/** The store of app/apicache.go as it is: a map of entry objects, a linked list
    of elements pointing back at them, and a running byte total. Every method is
    proved to do to the recency sequence what ApiStore says. */
module ApiCache {
  import opened Common
  import opened ApiStore

  /** One buffered response. `elem` is the entry's own list element while it is stored. */
  class CacheEntry {
    const key: Key
    const resp: Response
    var expires: Time
    var elem: Element?

    constructor (key: Key, resp: Response)
      ensures this.key == key && this.resp == resp
    {
      this.key, this.resp := key, resp;
      expires, elem := 0, null;
    }

    ghost function View(): Entry
      reads this
    {
      Entry(key, resp, expires)
    }
  }

  class Element {
    const value: CacheEntry

    constructor (value: CacheEntry)
      ensures this.value == value
    {
      this.value := value;
    }
  }

  /** A list element, its place in the recency sequence and the map agree: the
      entry is the one stored under its own key and points back at the element. */
  ghost predicate Slot(l: Element, at: Entry, m: map<Key, CacheEntry>)
    reads l.value
  {
    var e := l.value;
    e.key in m && m[e.key] == e && e.elem == l && at == e.View()
  }

  /** Unlinking an element from the list, by identity. */
  function Unlinked(l: seq<Element>, x: Element): seq<Element> {
    if l == [] then [] else if l[0] == x then l[1..] else [l[0]] + Unlinked(l[1..], x)
  }

  lemma {:induction false} UnlinkedAt(l: seq<Element>, i: nat)
    requires i < |l| && forall j :: 0 <= j < i ==> l[j] != l[i]
    ensures Unlinked(l, l[i]) == l[..i] + l[i + 1..]
  {
    if i > 0 {
      var rest := l[1..];
      UnlinkedAt(rest, i - 1);
      assert rest[i..] == l[i + 1..] && [l[0]] + rest[..i - 1] == l[..i];
      Assoc([l[0]], rest[..i - 1], rest[i..]);
    }
  }

  /** The list, the recency sequence and the map hold the same entries, all of them stored. */
  ghost predicate Matched(l: seq<Element>, es: seq<Entry>, m: map<Key, CacheEntry>, stored: set<CacheEntry>)
    reads stored
  {
    && |l| == |es| == |m|
    && (forall i: nat :: i < |l| ==> l[i].value in stored && Slot(l[i], es[i], m))
  }

  lemma MatchedGrows(l: seq<Element>, es: seq<Entry>, m: map<Key, CacheEntry>, stored: set<CacheEntry>, x: Element)
    requires Matched(l, es, m, stored) && x.value.key !in m && x.value.elem == x
    ensures Matched([x] + l, [x.value.View()] + es, m[x.value.key := x.value], stored + {x.value})
  {
    var e := x.value;
    assert m[e.key := e].Keys == m.Keys + {e.key};
    assert |m[e.key := e].Keys| == |m.Keys| + 1;
    forall j: nat | j < |[x] + l| ensures Slot(([x] + l)[j], ([e.View()] + es)[j], m[e.key := e]) {
      if j > 0 { assert Slot(l[j - 1], es[j - 1], m); }
    }
  }

  class Cache {
    const c: Config
    var entries: map<Key, CacheEntry>
    var lru: seq<Element>
    var held: int
    var hits: nat
    var misses: nat
    var staleHits: nat
    var blockedUntil: Time
    var blockResp: CacheEntry?

    /** The recency sequence the map, list and byte total stand for. */
    ghost var recency: seq<Entry>

    /** The entry objects currently stored. */
    ghost var stored: set<CacheEntry>

    /** The map and the list hold the same entries. */
    ghost predicate Linked()
      reads `lru, `recency, `entries, `stored, stored
    {
      Matched(lru, recency, entries, stored)
    }

    /** ... under distinct keys, and `held` is the sum of their bodies. */
    ghost predicate Sound()
      reads `lru, `recency, `entries, `held, `stored, stored
    {
      Linked() && DistinctKeys(recency) && held == Held(recency)
    }

    ghost predicate Valid()
      reads this, stored
    {
      Sound() && (recency != [] ==> held <= c.maxBytes)
    }

    ghost function Model(): Store
      reads this
    {
      Store(recency, hits, misses, staleHits,
            if blockResp == null then None else Some(Block(blockedUntil, blockResp.resp)))
    }

    constructor (c: Config)
      ensures Valid() && Model() == EMPTY && this.c == c
    {
      this.c := c;
      entries, lru, recency, stored, held, hits, misses, staleHits := map[], [], [], {}, 0, 0, 0, 0;
      blockedUntil, blockResp := 0, null;
    }

    /** Every entry of the map has its place in the list: its own element, found nowhere else. */
    lemma Place(k: Key) returns (i: nat)
      requires Sound() && k in entries
      ensures i < |lru| && lru[i].value == entries[k] && entries[k].elem == lru[i]
      ensures entries[k].key == k && recency[i] == entries[k].View()
      ensures forall j: nat :: j < |lru| && j != i ==> lru[j].value.key != k
    {
      var es := recency;
      var keys := seq(|es|, i requires 0 <= i < |es| => es[i].key);
      forall i: nat | i < |keys| ensures keys[i] in entries.Keys { assert Slot(lru[i], recency[i], entries); }
      forall i, j | 0 <= i < j < |keys| ensures keys[i] != keys[j] { DistinctAt(es, i, j); }
      DistinctCovers(keys, entries.Keys, k);
      i :| i < |keys| && keys[i] == k;
      assert Slot(lru[i], recency[i], entries);
      forall j: nat | j < |lru| && j != i ensures lru[j].value.key != k {
        assert Slot(lru[j], recency[j], entries);
        DistinctAt(recency, if i < j then i else j, if i < j then j else i);
      }
    }

    /** A lookup in the map is a lookup in the recency sequence. */
    lemma MapFinds(k: Key)
      requires Sound()
      ensures k in entries <==> Find(recency, k).Some?
      ensures k in entries ==> Find(recency, k) == Some(entries[k].View()) && entries[k].key == k
      ensures k !in entries ==> Without(recency, k) == recency
    {
      FindSpec(recency, k);
      if k in entries {
        var i := Place(k);
      } else {
        forall i: nat | i < |recency| ensures recency[i].key != k { assert Slot(lru[i], recency[i], entries); }
        WithoutAbsent(recency, k);
      }
    }

    /** list.Remove and delete: unlink the element at i and drop its key. */
    method Unlink(e: CacheEntry, ghost i: nat)
      requires Linked() && i < |lru| && lru[i].value == e
      requires forall j: nat :: j < |lru| && j != i ==> lru[j].value.key != e.key
      modifies `lru, `entries, `recency, `stored
      ensures Linked() && recency == old(recency[..i] + recency[i + 1..])
      ensures entries == old(entries) - {e.key} && stored == old(stored) - {e}
    {
      assert Slot(lru[i], recency[i], entries);
      UnlinkedAt(lru, i);
      lru := Unlinked(lru, e.elem);
      entries := entries - {e.key};
      recency := recency[..i] + recency[i + 1..];
      stored := stored - {e};
      assert entries.Keys == old(entries.Keys) - {e.key};
      assert |entries.Keys| == |old(entries.Keys)| - 1;
      forall j: nat | j < |lru| ensures lru[j].value in stored && Slot(lru[j], recency[j], entries) {
        var was: nat := if j < i then j else j + 1;
        assert Slot(old(lru)[was], old(recency)[was], old(entries));
      }
    }

    /** list.MoveToFront of the element at i. */
    method Relink(e: CacheEntry, ghost i: nat)
      requires Linked() && i < |lru| && lru[i].value == e
      requires forall j: nat :: j < i ==> lru[j].value.key != e.key
      modifies `lru, `recency
      ensures Linked() && recency == old([recency[i]] + (recency[..i] + recency[i + 1..]))
    {
      assert Slot(lru[i], recency[i], entries);
      UnlinkedAt(lru, i);
      lru := [e.elem] + Unlinked(lru, e.elem);
      recency := [recency[i]] + (recency[..i] + recency[i + 1..]);
      forall j: nat | j < |lru| ensures lru[j].value in stored && Slot(lru[j], recency[j], entries) {
        var was: nat := if j == 0 then i else if j <= i then j - 1 else j;
        assert Slot(old(lru)[was], old(recency)[was], entries);
      }
    }

    /** list.PushFront and the map store, after stamping the entry's expiry. */
    method Link(e: CacheEntry, expires: Time)
      requires Linked() && e.key !in entries && e !in stored
      modifies `lru, `entries, `recency, `stored, e
      ensures Linked() && recency == [Entry(e.key, e.resp, expires)] + old(recency)
    {
      e.expires := expires;
      var elem := new Element(e);
      e.elem := elem;
      assert Matched(lru, recency, entries, stored);
      MatchedGrows(lru, recency, entries, stored, elem);
      lru := [elem] + lru;
      entries := entries[e.key := e];
      recency := [e.View()] + recency;
      stored := stored + {e};
    }

    method Remove(e: CacheEntry)
      requires Sound() && e.key in entries && entries[e.key] == e
      modifies `lru, `entries, `held, `recency, `stored
      ensures Sound() && recency == Without(old(recency), e.key) && held <= old(held)
      ensures entries == old(entries) - {e.key} && stored == old(stored) - {e}
    {
      ghost var i := Place(e.key);
      assert Without(recency, e.key) == recency[..i] + recency[i + 1..] by { WithoutAt(recency, i); }
      assert DistinctKeys(Without(recency, e.key)) by { WithoutDistinct(recency, e.key); }
      assert Held(recency) == Held(Without(recency, e.key)) + |e.resp.body| by {
        MapFinds(e.key);
        HeldWithout(recency, e.key);
      }
      Unlink(e, i);
      held := held - |e.resp.body|;
    }

    /** Mark e most recently used. */
    method MoveToFront(e: CacheEntry)
      requires Sound() && e.key in entries && entries[e.key] == e
      modifies `lru, `recency
      ensures Sound() && recency == [e.View()] + Without(old(recency), e.key)
    {
      ghost var i := Place(e.key);
      ghost var moved := [e.View()] + Without(recency, e.key);
      assert Without(recency, e.key) == recency[..i] + recency[i + 1..] by { WithoutAt(recency, i); }
      assert DistinctKeys(moved) && Held(moved) == held by {
        MapFinds(e.key);
        MovedToFront(recency, e.View());
      }
      Relink(e, i);
    }

    /** A fresh hit on e. */
    method Hit(e: CacheEntry)
      requires Valid() && e.key in entries && entries[e.key] == e
      modifies `lru, `recency, `hits
      ensures Valid()
      ensures var s := old(Model());
              Model() == s.(recency := [e.View()] + Without(s.recency, e.key), hits := s.hits + 1)
    {
      assert recency != [] by { MapFinds(e.key); }
      MoveToFront(e);
      hits := hits + 1;
    }

    /** e is past its window. */
    method Expire(e: CacheEntry)
      requires Valid() && e.key in entries && entries[e.key] == e
      modifies `lru, `entries, `held, `recency, `stored
      ensures Valid() && Model() == old(Model()).(recency := Without(old(Model()).recency, e.key))
    {
      assert recency != [] by { MapFinds(e.key); }
      Remove(e);
    }

    /** The entry for key and whether it is still fresh. */
    method Get(key: Key, now: Time) returns (e: CacheEntry?, hit: bool)
      requires Valid()
      modifies this
      ensures Valid() && Model() == AfterGet(c, old(Model()), key, now)
      ensures Lookup(now, if e == null then None else Some(e.View()), hit) == LookupIn(c, old(Model()), key, now)
      ensures e != null ==> key in old(entries) && e == old(entries)[key]
    {
      ghost var s := Model();
      assert if key in entries then Find(s.recency, key) == Some(entries[key].View()) && entries[key].key == key
             else Find(s.recency, key) == None by { MapFinds(key); }
      if key !in entries {
        misses := misses + 1;
        return null, false;
      }
      e := entries[key];
      GetCases(c, s, key, now, e.View());
      if now < e.expires {
        Hit(e);
        return e, true;
      }
      misses := misses + 1;
      if now < e.expires + c.stale {
        return e, false;
      }
      Expire(e);
      return null, false;
    }

    /** The second half of put: stamp e and link it in at the front. */
    method PushFront(e: CacheEntry, expires: Time)
      requires Sound() && e.key !in entries && e !in stored
      modifies `lru, `entries, `held, `recency, `stored, e
      ensures Sound() && recency == [Entry(e.key, e.resp, expires)] + old(recency)
      ensures held == old(held) + |e.resp.body|
    {
      ghost var pushed := [Entry(e.key, e.resp, expires)] + recency;
      assert DistinctKeys(pushed) && Held(pushed) == held + |e.resp.body| by {
        MapFinds(e.key);
        PushedToFront(recency, pushed[0]);
      }
      Link(e, expires);
      held := held + |e.resp.body|;
    }

    /** The first half of put: drop the key's old entry, then evict from the back
        until size more bytes fit. */
    method MakeRoom(key: Key, size: nat)
      requires Sound() && size <= c.maxBytes
      modifies `lru, `entries, `held, `recency, `stored
      ensures Sound() && recency == Evict(Without(old(recency), key), c.maxBytes - size)
      ensures held + size <= c.maxBytes
      ensures key !in entries && stored <= old(stored)
    {
      MapFinds(key);
      if key in entries {
        Remove(entries[key]);
      }
      ghost var rest := recency;
      while held + size > c.maxBytes
        invariant Sound() && key !in entries && stored <= old(stored)
        invariant Evict(recency, c.maxBytes - size) == Evict(rest, c.maxBytes - size)
        decreases |lru|
      {
        // More than zero bytes are held, so the list is not empty and Back() is never nil.
        assert lru != [];
        RemoveBack();
      }
    }

    /** Drop the least recently used entry. */
    method RemoveBack()
      requires Sound() && lru != []
      modifies `lru, `entries, `held, `recency, `stored
      ensures Sound() && recency == old(recency[..|recency| - 1]) && |lru| == old(|lru|) - 1
      ensures entries.Keys <= old(entries.Keys) && stored <= old(stored)
    {
      ghost var n := |lru| - 1;
      WithoutAt(recency, n);
      assert recency[..n] + recency[n + 1..] == recency[..n];
      assert Slot(lru[n], recency[n], entries);
      Remove(lru[|lru| - 1].value);
    }

    /** Store e, evicting from the least recently used end until it fits. */
    method Put(e: CacheEntry, now: Time)
      requires Valid() && e !in stored
      modifies this, e
      ensures Valid() && Model() == AfterPut(c, old(Model()), e.key, e.resp, now)
      ensures |e.resp.body| > c.maxBytes ==>
                lru == old(lru) && entries == old(entries) && held == old(held) && Model() == old(Model())
    {
      var size := |e.resp.body|;
      if size > c.maxBytes {
        return;
      }
      ghost var s := Model();
      ghost var kept := Evict(Without(s.recency, e.key), c.maxBytes - size);
      assert AfterPut(c, s, e.key, e.resp, now) == s.(recency := [Entry(e.key, e.resp, now + c.ttl)] + kept);
      MakeRoom(e.key, size);
      PushFront(e, now + c.ttl);
    }

    method StartBlock(e: CacheEntry, now: Time)
      requires Valid()
      modifies this`blockedUntil, this`blockResp
      ensures Valid() && Model() == AfterBlock(old(Model()), e.resp, now)
      ensures blockedUntil == now + 60_000_000_000 && blockResp == e
    {
      blockedUntil, blockResp := now + BLOCK_BACKOFF, e;
    }

    method BlockedResponse(now: Time) returns (e: CacheEntry?)
      requires Valid()
      ensures e != null <==> Blocked(Model(), now)
      ensures e != null ==> e.resp == Model().block.value.resp
    {
      if blockResp != null && now < blockedUntil {
        return blockResp;
      }
      return null;
    }

    method CountStale()
      requires Valid()
      modifies this`staleHits
      ensures Valid() && Model() == old(Model()).(staleHits := old(Model()).staleHits + 1)
    {
      staleHits := staleHits + 1;
    }

    method Stats() returns (h: nat, m: nat, stale: nat, count: nat, bytes: int)
      requires Valid()
      ensures h == Model().hits && m == Model().misses && stale == Model().staleHits
      ensures count == |Model().recency| && bytes == Held(Model().recency)
      ensures count > 0 ==> bytes <= c.maxBytes
    {
      return hits, misses, staleHits, |entries|, held;
    }
  }
}
