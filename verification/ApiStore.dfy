/** The API response cache's store: what `get`, `put`, `block` and the counters
    of app/apicache.go do to an abstract recency sequence. ApiCache has the
    map-and-linked-list store of the source, proved against it. */
module ApiStore {
  import opened Common

  type Key = string
  type Header = map<string, seq<string>>
  type Time = int

  const OK := 200
  const FORBIDDEN := 403
  const TOO_MANY_REQUESTS := 429

  /** blockBackoff: one minute, in nanoseconds like every duration here. */
  const BLOCK_BACKOFF := 60_000_000_000

  datatype Response = Response(status: int, header: Header, body: Bytes)
  datatype Entry = Entry(key: Key, resp: Response, expires: Time)
  datatype Config = Config(maxBytes: int, ttl: int, stale: int)
  datatype Block = Block(until: Time, resp: Response)

  /** Front of `recency` is most recently used. */
  datatype Store = Store(recency: seq<Entry>, hits: nat, misses: nat, staleHits: nat, block: Option<Block>)

  const EMPTY := Store([], 0, 0, 0, None)

  function Held(es: seq<Entry>): nat {
    if es == [] then 0 else |es[0].resp.body| + Held(es[1..])
  }

  function Find(es: seq<Entry>, k: Key): Option<Entry> {
    if es == [] then None else if es[0].key == k then Some(es[0]) else Find(es[1..], k)
  }

  function Without(es: seq<Entry>, k: Key): seq<Entry> {
    if es == [] then [] else if es[0].key == k then Without(es[1..], k) else [es[0]] + Without(es[1..], k)
  }

  /** Drop from the least recently used end until at most `room` bytes are held. */
  function Evict(es: seq<Entry>, room: nat): seq<Entry> {
    if Held(es) <= room then es else Evict(es[..|es| - 1], room)
  }

  predicate DistinctKeys(es: seq<Entry>) {
    es != [] ==> (forall j :: 0 < j < |es| ==> es[j].key != es[0].key) && DistinctKeys(es[1..])
  }

  lemma {:induction false} DistinctAt(es: seq<Entry>, i: nat, j: nat)
    requires DistinctKeys(es) && i < j < |es|
    ensures es[i].key != es[j].key
  {
    if i > 0 {
      DistinctAt(es[1..], i - 1, j - 1);
    }
  }

  lemma {:induction false} DistinctPrefix(es: seq<Entry>, n: nat)
    requires DistinctKeys(es) && n <= |es|
    ensures DistinctKeys(es[..n])
  {
    if n > 0 {
      DistinctPrefix(es[1..], n - 1);
      assert es[..n][1..] == es[1..][..n - 1];
    }
  }

  /** The entry a lookup hands back, and whether it is fresh. */
  datatype Lookup = Lookup(at: Time, found: Option<Entry>, hit: bool)

  function LookupIn(c: Config, s: Store, k: Key, now: Time): Lookup {
    match Find(s.recency, k)
    case None => Lookup(now, None, false)
    case Some(e) =>
      if now < e.expires then Lookup(now, Some(e), true)
      else if now < e.expires + c.stale then Lookup(now, Some(e), false)
      else Lookup(now, None, false)
  }

  function AfterGet(c: Config, s: Store, k: Key, now: Time): Store {
    match Find(s.recency, k)
    case None => s.(misses := s.misses + 1)
    case Some(e) =>
      if now < e.expires then s.(recency := [e] + Without(s.recency, k), hits := s.hits + 1)
      else if now < e.expires + c.stale then s.(misses := s.misses + 1)
      else s.(recency := Without(s.recency, k), misses := s.misses + 1)
  }

  /** A lookup case by case, over the entry it finds. */
  lemma GetCases(c: Config, s: Store, k: Key, now: Time, e: Entry)
    requires Find(s.recency, k) == Some(e)
    ensures now < e.expires ==>
              && LookupIn(c, s, k, now) == Lookup(now, Some(e), true)
              && AfterGet(c, s, k, now) == s.(recency := [e] + Without(s.recency, k), hits := s.hits + 1)
    ensures e.expires <= now < e.expires + c.stale ==>
              && LookupIn(c, s, k, now) == Lookup(now, Some(e), false)
              && AfterGet(c, s, k, now) == s.(misses := s.misses + 1)
    ensures e.expires <= now && e.expires + c.stale <= now ==>
              && LookupIn(c, s, k, now) == Lookup(now, None, false)
              && AfterGet(c, s, k, now) == s.(recency := Without(s.recency, k), misses := s.misses + 1)
  {}

  function AfterPut(c: Config, s: Store, k: Key, r: Response, now: Time): Store {
    if |r.body| > c.maxBytes then s
    else s.(recency := [Entry(k, r, now + c.ttl)] + Evict(Without(s.recency, k), c.maxBytes - |r.body|))
  }

  function AfterBlock(s: Store, r: Response, now: Time): Store {
    s.(block := Some(Block(now + BLOCK_BACKOFF, r)))
  }

  predicate Blocked(s: Store, now: Time) {
    s.block.Some? && now < s.block.value.until
  }

  // ----- what these mean -----

  lemma {:induction false} WithoutMember(es: seq<Entry>, k: Key)
    ensures forall e :: e in Without(es, k) <==> e in es && e.key != k
  {
    if es != [] { WithoutMember(es[1..], k); }
  }

  /** Removing the key of position i removes exactly that position. */
  lemma {:induction false} WithoutAt(es: seq<Entry>, i: nat)
    requires DistinctKeys(es) && i < |es|
    ensures Without(es, es[i].key) == es[..i] + es[i + 1..]
  {
    if i == 0 {
      WithoutAbsent(es[1..], es[0].key);
    } else {
      var rest := es[1..];
      WithoutAt(rest, i - 1);
      DistinctAt(es, 0, i);
      assert rest[i..] == es[i + 1..] && [es[0]] + rest[..i - 1] == es[..i];
      Assoc([es[0]], rest[..i - 1], rest[i..]);
    }
  }

  lemma {:induction false} WithoutAbsent(es: seq<Entry>, k: Key)
    requires forall i :: 0 <= i < |es| ==> es[i].key != k
    ensures Without(es, k) == es
  {
    if es != [] { WithoutAbsent(es[1..], k); }
  }

  lemma {:induction false} FindSpec(es: seq<Entry>, k: Key)
    ensures Find(es, k).Some? <==> exists i :: 0 <= i < |es| && es[i].key == k
    ensures Find(es, k).Some? ==> Find(es, k).value in es && Find(es, k).value.key == k
    ensures DistinctKeys(es) ==> forall i :: 0 <= i < |es| && es[i].key == k ==> Find(es, k) == Some(es[i])
  {
    if es != [] { FindSpec(es[1..], k); }
  }

  lemma {:induction false} HeldSplit(a: seq<Entry>, b: seq<Entry>)
    ensures Held(a + b) == Held(a) + Held(b)
  {
    if a == [] {
      assert a + b == b;
    } else {
      HeldSplit(a[1..], b);
      assert (a + b)[1..] == a[1..] + b;
    }
  }

  /** Eviction keeps exactly the longest prefix that fits: a prefix of length n
      fits if and only if it is no longer than what was kept. */
  lemma {:induction false} EvictIsLongestFit(es: seq<Entry>, room: nat)
    ensures |Evict(es, room)| <= |es| && Evict(es, room) == es[..|Evict(es, room)|]
    ensures forall n :: 0 <= n <= |es| ==> (Held(es[..n]) <= room <==> n <= |Evict(es, room)|)
  {
    if Held(es) <= room {
      forall n | 0 <= n <= |es| ensures Held(es[..n]) <= room {
        HeldSplit(es[..n], es[n..]);
        assert es == es[..n] + es[n..];
      }
    } else {
      var shorter := es[..|es| - 1];
      EvictIsLongestFit(shorter, room);
      forall n | 0 <= n <= |es| ensures Held(es[..n]) <= room <==> n <= |Evict(es, room)| {
        if n == |es| {
          assert es[..n] == es;
        } else {
          assert es[..n] == shorter[..n];
        }
      }
    }
  }

  lemma {:induction false} EvictIsPrefix(es: seq<Entry>, room: nat)
    ensures |Evict(es, room)| <= |es| && Evict(es, room) == es[..|Evict(es, room)|]
    ensures Held(Evict(es, room)) <= room
  {
    if Held(es) > room { EvictIsPrefix(es[..|es| - 1], room); }
  }

  ghost predicate StoreOk(c: Config, s: Store) {
    && DistinctKeys(s.recency)
    && (s.recency != [] ==> Held(s.recency) <= c.maxBytes)
  }

  lemma {:induction false} WithoutDistinct(es: seq<Entry>, k: Key)
    requires DistinctKeys(es)
    ensures DistinctKeys(Without(es, k))
    ensures forall i :: 0 <= i < |Without(es, k)| ==> Without(es, k)[i].key != k
  {
    if es != [] {
      WithoutDistinct(es[1..], k);
      WithoutMember(es[1..], k);
    }
  }

  /** Removing a key gives back exactly the bytes of its entry, if it had one. */
  lemma {:induction false} HeldWithout(es: seq<Entry>, k: Key)
    requires DistinctKeys(es)
    ensures Held(es) == Held(Without(es, k))
                      + match Find(es, k) case None => 0 case Some(e) => |e.resp.body|
  {
    if es != [] {
      HeldSplit([es[0]], es[1..]);
      assert [es[0]] + es[1..] == es;
      HeldWithout(es[1..], k);
      if es[0].key == k {
        WithoutAbsent(es[1..], k);
        FindSpec(es[1..], k);
      } else {
        HeldSplit([es[0]], Without(es[1..], k));
      }
    }
  }

  lemma MovedToFront(es: seq<Entry>, e: Entry)
    requires DistinctKeys(es) && Find(es, e.key) == Some(e)
    ensures DistinctKeys([e] + Without(es, e.key)) && Held([e] + Without(es, e.key)) == Held(es)
  {
    WithoutDistinct(es, e.key);
    HeldWithout(es, e.key);
    HeldSplit([e], Without(es, e.key));
    assert ([e] + Without(es, e.key))[1..] == Without(es, e.key);
  }

  lemma PushedToFront(es: seq<Entry>, e: Entry)
    requires DistinctKeys(es) && Find(es, e.key) == None
    ensures DistinctKeys([e] + es) && Held([e] + es) == Held(es) + |e.resp.body|
  {
    FindSpec(es, e.key);
    HeldSplit([e], es);
    assert ([e] + es)[1..] == es;
  }

  lemma GetKeepsStoreOk(c: Config, s: Store, k: Key, now: Time)
    requires StoreOk(c, s)
    ensures StoreOk(c, AfterGet(c, s, k, now))
  {
    FindSpec(s.recency, k);
    if Find(s.recency, k).Some? {
      WithoutDistinct(s.recency, k);
      HeldWithout(s.recency, k);
      MovedToFront(s.recency, Find(s.recency, k).value);
    }
  }

  /** get of an entry in the middle of the order: fresh, it moves to the front and
      no other moves; stale, it is handed back and nothing moves; past its window,
      it is dropped and no other moves. Only the first is a hit. */
  lemma GetIsExactLru(c: Config, s: Store, before: seq<Entry>, e: Entry, after: seq<Entry>, now: Time)
    requires DistinctKeys(s.recency) && s.recency == before + [e] + after
    ensures var t, look := AfterGet(c, s, e.key, now), LookupIn(c, s, e.key, now);
            && t.recency == (if now < e.expires then [e] + before + after
                             else if now < e.expires + c.stale then before + [e] + after
                             else before + after)
            && look.found == (if now < e.expires || now < e.expires + c.stale then Some(e) else None)
            && (look.hit <==> now < e.expires)
            && t == s.(recency := t.recency, hits := t.hits, misses := t.misses)
            && t.hits + t.misses == s.hits + s.misses + 1 && (t.hits > s.hits <==> now < e.expires)
  {
    var i := |before|;
    assert s.recency[i] == e;
    FindSpec(s.recency, e.key);
    WithoutAt(s.recency, i);
    assert s.recency[..i] == before && s.recency[i + 1..] == after;
    Assoc([e], before, after);
  }

  /** get of a key that is not there changes nothing but the count of misses. */
  lemma GetOfAbsent(c: Config, s: Store, k: Key, now: Time)
    requires forall e :: e in s.recency ==> e.key != k
    ensures AfterGet(c, s, k, now) == s.(misses := s.misses + 1) && LookupIn(c, s, k, now).found == None
  {
    FindSpec(s.recency, k);
  }

  lemma GetMembers(c: Config, s: Store, k: Key, now: Time)
    ensures forall e :: e in AfterGet(c, s, k, now).recency ==> e in s.recency
  {
    FindSpec(s.recency, k);
    WithoutMember(s.recency, k);
  }

  lemma PutKeepsStoreOk(c: Config, s: Store, k: Key, r: Response, now: Time)
    requires StoreOk(c, s)
    ensures StoreOk(c, AfterPut(c, s, k, r, now))
  {
    if |r.body| <= c.maxBytes {
      var e, rest, room := Entry(k, r, now + c.ttl), Without(s.recency, k), c.maxBytes - |r.body|;
      WithoutDistinct(s.recency, k);
      EvictIsPrefix(rest, room);
      var kept := Evict(rest, room);
      DistinctPrefix(rest, |kept|);
      assert ([e] + kept)[1..] == kept;
      HeldSplit([e], kept);
    }
  }

  lemma PutMembers(c: Config, s: Store, k: Key, r: Response, now: Time)
    ensures forall e :: e in AfterPut(c, s, k, r, now).recency ==>
              e == Entry(k, r, now + c.ttl) || (e in s.recency && (e.key != k || |r.body| > c.maxBytes))
  {
    if |r.body| <= c.maxBytes {
      WithoutMember(s.recency, k);
      EvictIsPrefix(Without(s.recency, k), c.maxBytes - |r.body|);
    }
  }

  /** put of an entry that fits: it leads, followed by exactly the longest
      prefix of the previous order, less the same key, that still fits. */
  lemma PutIsExactLru(c: Config, s: Store, k: Key, r: Response, now: Time)
    requires StoreOk(c, s) && |r.body| <= c.maxBytes
    ensures var out := AfterPut(c, s, k, r, now).recency;
            var rest := Without(s.recency, k);
            && |out| >= 1
            && out[0] == Entry(k, r, now + c.ttl)
            && out[1..] <= rest
            && AfterPut(c, s, k, r, now) == s.(recency := out)
            && Held(out) <= c.maxBytes
            && (forall n :: 0 <= n <= |rest| ==> (Held([out[0]] + rest[..n]) <= c.maxBytes <==> n < |out|))
  {
    var rest := Without(s.recency, k);
    var room := c.maxBytes - |r.body|;
    var e := Entry(k, r, now + c.ttl);
    EvictIsLongestFit(rest, room);
    PutKeepsStoreOk(c, s, k, r, now);
    var out := AfterPut(c, s, k, r, now).recency;
    assert out[1..] == Evict(rest, room);
    forall n | 0 <= n <= |rest| ensures Held([e] + rest[..n]) <= c.maxBytes <==> n < |out| {
      HeldSplit([e], rest[..n]);
    }
  }

  /** put of a body larger than the bound changes nothing, the key's older entry included. */
  lemma OversizedPutKeeps(c: Config, s: Store, k: Key, r: Response, now: Time)
    requires |r.body| > c.maxBytes
    ensures AfterPut(c, s, k, r, now) == s
  {}

  // ----- recency order is the order of last fresh hit or store -----

  datatype Op = Get(key: Key, at: Time) | Put(key: Key, resp: Response, at: Time)

  function Apply(c: Config, s: Store, op: Op): Store {
    match op
    case Get(k, t) => AfterGet(c, s, k, t)
    case Put(k, r, t) => AfterPut(c, s, k, r, t)
  }

  function Replay(c: Config, ops: seq<Op>): Store {
    if ops == [] then EMPTY else Apply(c, Replay(c, ops[..|ops| - 1]), ops[|ops| - 1])
  }

  /** A fresh hit on k, or a store of k that was not oversized. */
  predicate Touches(c: Config, s: Store, op: Op, k: Key) {
    op.key == k &&
    match op
    case Get(_, t) => LookupIn(c, s, k, t).hit
    case Put(_, r, _) => |r.body| <= c.maxBytes
  }

  /** Index of the last operation that touched k, or -1. */
  function LastTouch(c: Config, ops: seq<Op>, k: Key): int {
    if ops == [] then -1
    else
      var before := ops[..|ops| - 1];
      if Touches(c, Replay(c, before), ops[|before|], k) then |before| else LastTouch(c, before, k)
  }

  lemma {:induction false} LastTouchBound(c: Config, ops: seq<Op>, k: Key)
    ensures -1 <= LastTouch(c, ops, k) < |ops|
  {
    if ops != [] { LastTouchBound(c, ops[..|ops| - 1], k); }
  }

  ghost predicate OrderedByTouch(c: Config, ops: seq<Op>, es: seq<Entry>) {
    && (forall i :: 0 <= i < |es| ==> LastTouch(c, ops, es[i].key) >= 0)
    && (forall i, j :: 0 <= i < j < |es| ==> LastTouch(c, ops, es[i].key) > LastTouch(c, ops, es[j].key))
  }

  /** es is a subsequence of the previous order: dropping entries keeps order. */
  lemma {:induction false} WithoutOrdered(c: Config, ops: seq<Op>, es: seq<Entry>, k: Key)
    requires OrderedByTouch(c, ops, es)
    requires DistinctKeys(es)
    ensures OrderedByTouch(c, ops, Without(es, k))
  {
    FindSpec(es, k);
    if i: nat :| i < |es| && es[i].key == k {
      WithoutAt(es, i);
    } else {
      WithoutAbsent(es, k);
    }
  }

  /** An operation that touches k moves k ahead of everything ordered before it. */
  lemma TouchedLeads(c: Config, ops: seq<Op>, e: Entry, tail: seq<Entry>)
    requires ops != []
    requires Touches(c, Replay(c, ops[..|ops| - 1]), ops[|ops| - 1], e.key)
    requires OrderedByTouch(c, ops[..|ops| - 1], tail)
    requires forall i :: 0 <= i < |tail| ==> tail[i].key != e.key
    ensures OrderedByTouch(c, ops, [e] + tail)
  {
    var out := [e] + tail;
    forall i | 0 < i < |out|
      ensures LastTouch(c, ops, out[i].key) == LastTouch(c, ops[..|ops| - 1], tail[i - 1].key) < |ops| - 1
    {
      LastTouchBound(c, ops[..|ops| - 1], tail[i - 1].key);
    }
  }

  lemma UntouchedStays(c: Config, ops: seq<Op>, es: seq<Entry>)
    requires ops != []
    requires !Touches(c, Replay(c, ops[..|ops| - 1]), ops[|ops| - 1], ops[|ops| - 1].key)
    requires OrderedByTouch(c, ops[..|ops| - 1], es)
    ensures OrderedByTouch(c, ops, es)
  {
    forall k ensures LastTouch(c, ops, k) == LastTouch(c, ops[..|ops| - 1], k) {}
  }

  /** Eviction keeps the order, and no entry of the key just removed comes back. */
  lemma EvictedOrdered(c: Config, ops: seq<Op>, es: seq<Entry>, room: nat, k: Key)
    requires OrderedByTouch(c, ops, es) && forall i :: 0 <= i < |es| ==> es[i].key != k
    ensures OrderedByTouch(c, ops, Evict(es, room))
    ensures forall i :: 0 <= i < |Evict(es, room)| ==> Evict(es, room)[i].key != k
  {
    EvictIsPrefix(es, room);
  }

  /** One operation keeps the recency sequence ordered by last touch. */
  lemma TouchStep(c: Config, ops: seq<Op>, s: Store, op: Op)
    requires ops != [] && s == Replay(c, ops[..|ops| - 1]) && op == ops[|ops| - 1]
    requires StoreOk(c, s)
    requires OrderedByTouch(c, ops[..|ops| - 1], s.recency)
    ensures OrderedByTouch(c, ops, Apply(c, s, op).recency)
  {
    var rest := Without(s.recency, op.key);
    assert OrderedByTouch(c, ops[..|ops| - 1], rest) by {
      WithoutOrdered(c, ops[..|ops| - 1], s.recency, op.key);
    }
    if !Touches(c, s, op, op.key) {
      UntouchedStays(c, ops, s.recency);
      UntouchedStays(c, ops, rest);
    } else if op.Put? {
      WithoutDistinct(s.recency, op.key);
      EvictedOrdered(c, ops[..|ops| - 1], rest, c.maxBytes - |op.resp.body|, op.key);
      TouchedLeads(c, ops, Entry(op.key, op.resp, op.at + c.ttl), Evict(rest, c.maxBytes - |op.resp.body|));
    } else {
      assert Find(s.recency, op.key).value.key == op.key by { FindSpec(s.recency, op.key); }
      WithoutDistinct(s.recency, op.key);
      TouchedLeads(c, ops, Find(s.recency, op.key).value, rest);
    }
  }

  /** After any history, an entry earlier in the recency sequence was touched
      later; with the byte bound and key uniqueness along the way. */
  lemma {:induction false} RecencyIsLastTouch(c: Config, ops: seq<Op>)
    ensures StoreOk(c, Replay(c, ops))
    ensures OrderedByTouch(c, ops, Replay(c, ops).recency)
  {
    if ops != [] {
      var before, op := ops[..|ops| - 1], ops[|ops| - 1];
      RecencyIsLastTouch(c, before);
      TouchStep(c, ops, Replay(c, before), op);
      match op {
        case Get(k, t) => GetKeepsStoreOk(c, Replay(c, before), k, t);
        case Put(k, r, t) => PutKeepsStoreOk(c, Replay(c, before), k, r, t);
      }
    }
  }
}
