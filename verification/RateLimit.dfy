/** The per-client token bucket of app/ratelimit.go: what `allow` and `prune` do
    to a table of buckets, an ideal bucket that is never pruned, and when the
    two cannot be told apart. Tokens and seconds are exact. */
module RateLimit {
  import opened Common

  type Client = string

  /** bucketIdle: ten minutes, in seconds. */
  const BUCKET_IDLE := 600.0

  /** Every PRUNE_EVERY-th insertion prunes. */
  const PRUNE_EVERY := 1000

  datatype Config = Config(perSecond: real, burst: real) {
    /** What newRateLimiter is given: a positive rate and a burst of at least one. */
    predicate Valid() { perSecond > 0.0 && burst >= 1.0 }

    /** An idle bucket would be full again by the time it may be pruned. */
    predicate RefillsBeforePrune() { perSecond * BUCKET_IDLE >= burst }
  }

  function NewConfig(perMinute: nat, burst: nat): (c: Config)
    requires perMinute > 0 && burst > 0
    ensures c.Valid() && c.perSecond * 60.0 == perMinute as real && c.burst == burst as real
    ensures c.RefillsBeforePrune() <==> 10 * perMinute >= burst
  {
    Config(perMinute as real / 60.0, burst as real)
  }

  datatype Bucket = Bucket(tokens: real, last: real)

  datatype Table = Table(buckets: map<Client, Bucket>, inserts: nat)

  const EMPTY := Table(map[], 0)

  function Min(a: real, b: real): real { if a <= b then a else b }

  /** Tokens gained between two moments. */
  function Gain(c: Config, from: real, to: real): real { (to - from) * c.perSecond }

  function Refilled(c: Config, b: Bucket, now: real): Bucket {
    Bucket(Min(c.burst, b.tokens + Gain(c, b.last, now)), now)
  }

  predicate Spends(b: Bucket) { b.tokens >= 1.0 }

  function Spent(b: Bucket): Bucket {
    if Spends(b) then b.(tokens := b.tokens - 1.0) else b
  }

  predicate Idle(b: Bucket, now: real) { now - b.last > BUCKET_IDLE }

  function Pruned(bs: map<Client, Bucket>, now: real): map<Client, Bucket> {
    map x | x in bs && !Idle(bs[x], now) :: bs[x]
  }

  /** The bucket a request finds: its own refilled, or a full one. */
  function FoundBucket(c: Config, t: Table, x: Client, now: real): Bucket {
    if x in t.buckets then Refilled(c, t.buckets[x], now) else Bucket(c.burst, now)
  }

  function Allows(c: Config, t: Table, x: Client, now: real): bool {
    Spends(FoundBucket(c, t, x, now))
  }

  /** The table once that bucket is in it: refilled in place, or inserted, with
      the prune the insertion may trigger. */
  function AfterFind(c: Config, t: Table, x: Client, now: real): Table {
    var found := t.buckets[x := FoundBucket(c, t, x, now)];
    if x in t.buckets then Table(found, t.inserts)
    else Table(if (t.inserts + 1) % PRUNE_EVERY == 0 then Pruned(found, now) else found, t.inserts + 1)
  }

  function AfterAllow(c: Config, t: Table, x: Client, now: real): Table {
    var u := AfterFind(c, t, x, now);
    u.(buckets := u.buckets[x := Spent(FoundBucket(c, t, x, now))])
  }

  // ----- histories -----

  /** A request, or a prune at a moment of anyone's choosing. */
  datatype Event = Request(client: Client, at: real) | Prune(at: real)

  /** What the server itself does: no prunes but those its own insertions trigger. */
  predicate RequestsOnly(es: seq<Event>) { forall e :: e in es ==> e.Request? }

  function Time(e: Event): real { e.at }

  predicate InOrder(es: seq<Event>) {
    forall i, j :: 0 <= i < j < |es| ==> Time(es[i]) <= Time(es[j])
  }

  function After(c: Config, es: seq<Event>): Table {
    if es == [] then EMPTY
    else
      var t, e := After(c, es[..|es| - 1]), es[|es| - 1];
      match e
      case Request(x, now) => AfterAllow(c, t, x, now)
      case Prune(now) => t.(buckets := Pruned(t.buckets, now))
  }

  /** The answers client x gets over the history, with their times. */
  datatype Reply = Reply(at: real, ok: bool)

  function Answers(c: Config, es: seq<Event>, x: Client): seq<Reply> {
    if es == [] then []
    else
      var before, e := es[..|es| - 1], es[|es| - 1];
      Answers(c, before, x)
      + if e.Request? && e.client == x then [Reply(e.at, Allows(c, After(c, before), x, e.at))] else []
  }

  // ----- one client on its own, never pruned -----

  function Times(es: seq<Event>, x: Client): seq<real> {
    if es == [] then []
    else
      var e := es[|es| - 1];
      Times(es[..|es| - 1], x) + if e.Request? && e.client == x then [e.at] else []
  }

  /** What the next request finds in the ideal bucket: full the first time,
      refilled ever after. */
  function IdealFound(c: Config, b: Option<Bucket>, now: real): Bucket {
    if b.Some? then Refilled(c, b.value, now) else Bucket(c.burst, now)
  }

  function Ideal(c: Config, ts: seq<real>): Option<Bucket> {
    if ts == [] then None else Some(Spent(IdealFound(c, Ideal(c, ts[..|ts| - 1]), ts[|ts| - 1])))
  }

  function IdealAnswers(c: Config, ts: seq<real>): seq<Reply> {
    if ts == [] then []
    else
      var before, now := ts[..|ts| - 1], ts[|ts| - 1];
      IdealAnswers(c, before) + [Reply(now, Spends(IdealFound(c, Ideal(c, before), now)))]
  }

  // ----- every bucket stays within its bounds -----

  ghost predicate InBounds(c: Config, b: Bucket) { 0.0 <= b.tokens <= c.burst }

  lemma ProductPositive(a: real, b: real)
    requires a >= 0.0 && b >= 0.0
    ensures a * b >= 0.0
  {}

  lemma ProductOrder(a: real, b: real, r: real)
    requires a <= b && r >= 0.0
    ensures a * r <= b * r
  {
    ProductPositive(b - a, r);
  }

  lemma GainPositive(c: Config, from: real, to: real)
    requires c.perSecond > 0.0 && from <= to
    ensures Gain(c, from, to) >= 0.0
  {
    ProductPositive(to - from, c.perSecond);
  }

  lemma RefillInBounds(c: Config, b: Bucket, now: real)
    requires c.Valid() && InBounds(c, b) && b.last <= now
    ensures InBounds(c, Refilled(c, b, now)) && InBounds(c, Spent(Refilled(c, b, now)))
  {
    GainPositive(c, b.last, now);
  }

  ghost predicate TableOk(c: Config, t: Table, now: real) {
    forall x :: x in t.buckets ==> InBounds(c, t.buckets[x]) && t.buckets[x].last <= now
  }

  function Latest(es: seq<Event>, otherwise: real): real {
    if es == [] then otherwise else Time(es[|es| - 1])
  }

  lemma AllowInBounds(c: Config, t: Table, x: Client, now: real)
    requires c.Valid() && TableOk(c, t, now)
    ensures TableOk(c, AfterAllow(c, t, x, now), now)
  {
    if x in t.buckets { RefillInBounds(c, t.buckets[x], now); }
  }

  /** In every reachable table, for any schedule of prunes, 0 <= tokens <= burst. */
  lemma {:induction false} TokensInBounds(c: Config, es: seq<Event>, now: real)
    requires c.Valid() && InOrder(es) && (es != [] ==> Time(es[|es| - 1]) <= now)
    ensures TableOk(c, After(c, es), now)
  {
    if es != [] {
      var e := es[|es| - 1];
      TokensInBounds(c, es[..|es| - 1], Time(e));
      if e.Request? { AllowInBounds(c, After(c, es[..|es| - 1]), e.client, e.at); }
    }
  }

  // ----- pruning is unobservable -----

  /** The table's view of x and the ideal bucket: equal, or x has been pruned and
      its ideal bucket has been idle long enough. */
  ghost predicate Tracks(t: Table, b: Option<Bucket>, x: Client, now: real) {
    if x in t.buckets then b == Some(t.buckets[x])
    else b.Some? ==> Idle(b.value, now)
  }

  /** Idle buckets are full again, so a pruned client finds what it would have found. */
  lemma FindsTheSame(c: Config, t: Table, b: Option<Bucket>, x: Client, now: real)
    requires c.Valid() && c.RefillsBeforePrune() && Tracks(t, b, x, now)
    requires b.Some? ==> InBounds(c, b.value)
    ensures FoundBucket(c, t, x, now) == IdealFound(c, b, now)
  {
    if x !in t.buckets && b.Some? {
      ProductOrder(BUCKET_IDLE, now - b.value.last, c.perSecond);
    }
  }

  ghost predicate Simulated(c: Config, t: Table, b: Option<Bucket>, x: Client, now: real) {
    Tracks(t, b, x, now) && (b.Some? ==> InBounds(c, b.value) && b.value.last <= now)
  }

  lemma RequestSimulated(c: Config, t: Table, b: Option<Bucket>, x: Client, now: real)
    requires c.Valid() && c.RefillsBeforePrune() && Simulated(c, t, b, x, now)
    ensures FoundBucket(c, t, x, now) == IdealFound(c, b, now)
    ensures Simulated(c, AfterAllow(c, t, x, now), Some(Spent(IdealFound(c, b, now))), x, now)
  {
    FindsTheSame(c, t, b, x, now);
    if b.Some? { RefillInBounds(c, b.value, now); }
  }

  lemma OthersSimulated(c: Config, t: Table, b: Option<Bucket>, x: Client, y: Client, now: real)
    requires Simulated(c, t, b, x, now)
    ensures y != x ==> Simulated(c, AfterAllow(c, t, y, now), b, x, now)
    ensures Simulated(c, t.(buckets := Pruned(t.buckets, now)), b, x, now)
  {}

  lemma {:induction false} Simulates(c: Config, es: seq<Event>, x: Client, now: real)
    requires c.Valid() && c.RefillsBeforePrune() && InOrder(es)
    requires es != [] ==> Time(es[|es| - 1]) <= now
    ensures Simulated(c, After(c, es), Ideal(c, Times(es, x)), x, now)
    ensures Answers(c, es, x) == IdealAnswers(c, Times(es, x))
  {
    if es != [] {
      var before, e := es[..|es| - 1], es[|es| - 1];
      var t, ts := After(c, before), Times(before, x);
      Simulates(c, before, x, Time(e));
      if e.Request? && e.client == x {
        assert Times(es, x) == ts + [e.at] && (ts + [e.at])[..|ts|] == ts;
        RequestSimulated(c, t, Ideal(c, ts), x, e.at);
      } else {
        assert Times(es, x) == ts;
        OthersSimulated(c, t, Ideal(c, ts), x, if e.Request? then e.client else x, Time(e));
      }
    }
  }

  /** When a bucket refills within the idle limit, every client's answers, under
      any mix of other clients and any schedule of prunes, are those of an ideal
      bucket run on that client's requests alone. */
  lemma PruningUnobservable(c: Config, es: seq<Event>, x: Client)
    requires c.Valid() && c.RefillsBeforePrune() && InOrder(es)
    ensures Answers(c, es, x) == IdealAnswers(c, Times(es, x))
  {
    Simulates(c, es, x, Latest(es, 0.0));
  }

  // ----- the window bound -----

  ghost predicate Sorted(ts: seq<real>) {
    forall i, j :: 0 <= i < j < |ts| ==> ts[i] <= ts[j]
  }

  /** How many of the replies from `from` to `until` are grants. */
  function Granted(rs: seq<Reply>, from: real, until: real): nat {
    if rs == [] then 0
    else
      var r := rs[|rs| - 1];
      Granted(rs[..|rs| - 1], from, until) + if r.ok && from <= r.at <= until then 1 else 0
  }

  lemma {:induction false} IdealInBounds(c: Config, ts: seq<real>)
    requires c.Valid() && Sorted(ts) && ts != []
    ensures InBounds(c, Ideal(c, ts).value) && Ideal(c, ts).value.last == ts[|ts| - 1]
  {
    var before, now := ts[..|ts| - 1], ts[|ts| - 1];
    if before != [] {
      IdealInBounds(c, before);
      RefillInBounds(c, Ideal(c, before).value, now);
    }
  }

  lemma {:induction false} IdealAnswerTimes(c: Config, ts: seq<real>)
    ensures |IdealAnswers(c, ts)| == |ts|
    ensures forall i :: 0 <= i < |ts| ==> IdealAnswers(c, ts)[i].at == ts[i]
  {
    if ts != [] { IdealAnswerTimes(c, ts[..|ts| - 1]); }
  }

  lemma {:induction false} NoneGranted(rs: seq<Reply>, from: real, until: real)
    requires forall i :: 0 <= i < |rs| ==> !(from <= rs[i].at <= until)
    ensures Granted(rs, from, until) == 0
  {
    if rs != [] { NoneGranted(rs[..|rs| - 1], from, until); }
  }

  /** A full bucket plus everything gained in between. */
  function Budget(c: Config, from: real, to: real): real { c.burst + Gain(c, from, to) }

  lemma BudgetGrows(c: Config, from: real, mid: real, to: real)
    ensures Budget(c, from, mid) + Gain(c, mid, to) == Budget(c, from, to)
  {}

  lemma RefillAtMost(c: Config, b: Bucket, now: real)
    ensures Refilled(c, b, now).tokens <= c.burst
    ensures Refilled(c, b, now).tokens <= b.tokens + Gain(c, b.last, now)
  {}

  /** One more request adds its grant to the window and takes its token from the bucket. */
  lemma OneMore(c: Config, ts: seq<real>, from: real, until: real)
    requires ts != [] && from <= ts[|ts| - 1] <= until
    ensures var before, now := ts[..|ts| - 1], ts[|ts| - 1];
            Granted(IdealAnswers(c, ts), from, until) as real + Ideal(c, ts).value.tokens
            == Granted(IdealAnswers(c, before), from, until) as real + IdealFound(c, Ideal(c, before), now).tokens
  {
    var before := IdealAnswers(c, ts[..|ts| - 1]);
    assert IdealAnswers(c, ts)[..|before|] == before;
  }

  /** Grants so far in the window plus tokens left never exceed a full bucket
      plus what has been refilled since the window opened. */
  lemma {:induction false} Potential(c: Config, ts: seq<real>, from: real, until: real)
    requires c.Valid() && Sorted(ts) && ts != [] && from <= ts[|ts| - 1] <= until
    ensures Granted(IdealAnswers(c, ts), from, until) as real + Ideal(c, ts).value.tokens
            <= Budget(c, from, ts[|ts| - 1])
  {
    var before, now := ts[..|ts| - 1], ts[|ts| - 1];
    var b := Ideal(c, before);
    OneMore(c, ts, from, until);
    if b.Some? { RefillAtMost(c, b.value, now); }
    if before != [] && from <= before[|before| - 1] {
      Potential(c, before, from, until);
      IdealInBounds(c, before);
      BudgetGrows(c, from, before[|before| - 1], now);
    } else {
      IdealAnswerTimes(c, before);
      NoneGranted(IdealAnswers(c, before), from, until);
      GainPositive(c, from, now);
    }
  }

  lemma {:induction false} IdealWindowBound(c: Config, ts: seq<real>, from: real, until: real)
    requires c.Valid() && Sorted(ts) && from <= until
    ensures Granted(IdealAnswers(c, ts), from, until) as real <= Budget(c, from, until)
  {
    if ts == [] {
      GainPositive(c, from, until);
    } else if from <= ts[|ts| - 1] <= until {
      var now := ts[|ts| - 1];
      Potential(c, ts, from, until);
      IdealInBounds(c, ts);
      GainPositive(c, now, until);
      BudgetGrows(c, from, now, until);
    } else {
      var before := IdealAnswers(c, ts[..|ts| - 1]);
      assert IdealAnswers(c, ts)[..|before|] == before;
      IdealWindowBound(c, ts[..|ts| - 1], from, until);
    }
  }

  lemma {:induction false} TimesSorted(es: seq<Event>, x: Client)
    requires InOrder(es)
    ensures Sorted(Times(es, x))
    ensures forall i :: 0 <= i < |Times(es, x)| ==> Times(es, x)[i] <= Latest(es, Times(es, x)[i])
  {
    if es != [] { TimesSorted(es[..|es| - 1], x); }
  }

  /** One client is granted at most burst + perSecond * T requests in any interval
      of length T, provided a bucket refills within the idle limit. */
  lemma WindowBound(c: Config, es: seq<Event>, x: Client, from: real, until: real)
    requires c.Valid() && c.RefillsBeforePrune() && InOrder(es) && from <= until
    ensures Granted(Answers(c, es, x), from, until) as real <= Budget(c, from, until)
  {
    PruningUnobservable(c, es, x);
    TimesSorted(es, x);
    IdealWindowBound(c, Times(es, x), from, until);
  }

  // ----- a client that keeps to the rate -----

  ghost predicate Paced(c: Config, ts: seq<real>) {
    forall i :: 0 < i < |ts| ==> Gain(c, ts[i - 1], ts[i]) >= 1.0
  }

  ghost predicate AllGranted(rs: seq<Reply>) {
    forall i :: 0 <= i < |rs| ==> rs[i].ok
  }

  lemma {:induction false} HeldBucketIsLatest(c: Config, es: seq<Event>, x: Client)
    ensures x in After(c, es).buckets ==>
              Times(es, x) != [] && After(c, es).buckets[x].last == Times(es, x)[|Times(es, x)| - 1]
  {
    if es != [] { HeldBucketIsLatest(c, es[..|es| - 1], x); }
  }

  lemma PacedSpends(c: Config, b: Bucket, now: real)
    requires c.Valid() && InBounds(c, b) && Gain(c, b.last, now) >= 1.0
    ensures Spends(Refilled(c, b, now))
  {}

  /** A client whose requests are at least 1 / perSecond apart is never refused,
      whatever the others do, however prunes fall, and whether or not a bucket
      refills within the idle limit. */
  lemma {:induction false} PacedNeverRefused(c: Config, es: seq<Event>, x: Client)
    requires c.Valid() && InOrder(es) && Paced(c, Times(es, x))
    ensures AllGranted(Answers(c, es, x))
  {
    if es != [] {
      var before, e := es[..|es| - 1], es[|es| - 1];
      var ts := Times(before, x);
      assert ts == Times(es, x)[..|ts|];
      assert Paced(c, ts) by {
        forall i | 0 < i < |ts| ensures Gain(c, ts[i - 1], ts[i]) >= 1.0 {
          assert ts[i] == Times(es, x)[i] && ts[i - 1] == Times(es, x)[i - 1];
        }
      }
      PacedNeverRefused(c, before, x);
      if e.Request? && e.client == x {
        assert Allows(c, After(c, before), x, e.at) by { NextPacedAllowed(c, before, x, e.at); }
      }
    }
  }

  lemma NextPacedAllowed(c: Config, es: seq<Event>, x: Client, now: real)
    requires c.Valid() && InOrder(es) && (es != [] ==> Time(es[|es| - 1]) <= now)
    requires Paced(c, Times(es, x) + [now])
    ensures Allows(c, After(c, es), x, now)
  {
    var t, ts := After(c, es), Times(es, x);
    HeldBucketIsLatest(c, es, x);
    if x in t.buckets {
      TokensInBounds(c, es, now);
      assert (ts + [now])[|ts|] == now && (ts + [now])[|ts| - 1] == t.buckets[x].last;
      PacedSpends(c, t.buckets[x], now);
    }
  }

  // ----- and observable otherwise -----

  /** History es, then k requests of x at one moment. */
  function Burst(es: seq<Event>, x: Client, now: real, k: nat): seq<Event> {
    if k == 0 then es else Burst(es, x, now, k - 1) + [Request(x, now)]
  }

  /** Names of clients other than the empty one, all different. */
  function Stranger(i: nat): (x: Client)
    ensures |x| == i + 1
  {
    seq(i + 1, _ => 'a')
  }

  /** History es, then one request from each of k new clients at one moment. */
  function Crowd(es: seq<Event>, now: real, k: nat): seq<Event> {
    if k == 0 then es else Crowd(es, now, k - 1) + [Request(Stranger(k - 1), now)]
  }

  const REGULAR: Client := ""

  lemma Extend(c: Config, es: seq<Event>, x: Client, now: real, y: Client)
    ensures After(c, es + [Request(x, now)]) == AfterAllow(c, After(c, es), x, now)
    ensures Answers(c, es + [Request(x, now)], y)
         == Answers(c, es, y) + if x == y then [Reply(now, Allows(c, After(c, es), x, now))] else []
  {
    assert (es + [Request(x, now)])[..|es|] == es;
  }

  lemma GrantedExtend(rs: seq<Reply>, r: Reply, from: real, until: real)
    ensures Granted(rs + [r], from, until) == Granted(rs, from, until) + if r.ok && from <= r.at <= until then 1 else 0
  {
    assert (rs + [r])[..|rs|] == rs;
  }

  /** x has spent k tokens of a full bucket, all at one moment. */
  ghost predicate Drained(c: Config, t: Table, x: Client, now: real, k: nat) {
    FoundBucket(c, t, x, now) == Bucket(c.burst - k as real, now)
    && (k > 0 ==> x in t.buckets && t.buckets[x].last == now)
  }

  ghost predicate OnlyClient(t: Table, x: Client, k: nat) {
    if k == 0 then t == EMPTY else t.inserts == 1 && t.buckets.Keys == {x}
  }

  lemma SpendStep(c: Config, t: Table, x: Client, now: real, k: nat)
    requires k > 0 && k as real <= c.burst && Drained(c, t, x, now, k - 1)
    ensures Allows(c, t, x, now) && Drained(c, AfterAllow(c, t, x, now), x, now, k)
    ensures OnlyClient(t, x, k - 1) ==> OnlyClient(AfterAllow(c, t, x, now), x, k)
  {
    assert Gain(c, now, now) == 0.0;
  }

  /** A client that finds a full bucket is granted its whole burst at once. */
  lemma {:induction false} Drains(c: Config, es: seq<Event>, x: Client, now: real, k: nat)
    requires k as real <= c.burst && Drained(c, After(c, es), x, now, 0)
    ensures Drained(c, After(c, Burst(es, x, now, k)), x, now, k)
    ensures es == [] ==> OnlyClient(After(c, Burst(es, x, now, k)), x, k)
  {
    if k > 0 {
      Drains(c, es, x, now, k - 1);
      SpendStep(c, After(c, Burst(es, x, now, k - 1)), x, now, k);
      Extend(c, Burst(es, x, now, k - 1), x, now, x);
    }
  }

  lemma {:induction false} BurstGranted(c: Config, es: seq<Event>, x: Client, now: real, k: nat,
                                        from: real, until: real)
    requires k as real <= c.burst && Drained(c, After(c, es), x, now, 0) && from <= now <= until
    ensures Granted(Answers(c, Burst(es, x, now, k), x), from, until) == Granted(Answers(c, es, x), from, until) + k
  {
    if k > 0 {
      var before := Burst(es, x, now, k - 1);
      BurstGranted(c, es, x, now, k - 1, from, until);
      Drains(c, es, x, now, k - 1);
      SpendStep(c, After(c, before), x, now, k);
      Extend(c, before, x, now, x);
      GrantedExtend(Answers(c, before, x), Reply(now, true), from, until);
    }
  }

  /** A drained client is refused, and stays drained. */
  lemma RefuseStep(c: Config, t: Table, x: Client, now: real, k: nat)
    requires k > 0 && c.burst == k as real && Drained(c, t, x, now, k)
    ensures !Allows(c, t, x, now) && Drained(c, AfterAllow(c, t, x, now), x, now, k)
  {
    assert Gain(c, now, now) == 0.0;
  }

  function Least(a: nat, b: nat): nat { if a <= b then a else b }

  /** Of n requests at one moment of a client that finds a full bucket, exactly as
      many are granted as there are tokens in it. */
  lemma {:induction false} BurstExact(c: Config, es: seq<Event>, x: Client, now: real, n: nat, burst: nat,
                                      from: real, until: real)
    requires burst > 0 && c.burst == burst as real && Drained(c, After(c, es), x, now, 0) && from <= now <= until
    ensures Drained(c, After(c, Burst(es, x, now, n)), x, now, Least(n, burst))
    ensures Granted(Answers(c, Burst(es, x, now, n), x), from, until)
         == Granted(Answers(c, es, x), from, until) + Least(n, burst)
  {
    if n <= burst {
      Drains(c, es, x, now, n);
      BurstGranted(c, es, x, now, n, from, until);
    } else {
      var before := Burst(es, x, now, n - 1);
      BurstExact(c, es, x, now, n - 1, burst, from, until);
      RefuseStep(c, After(c, before), x, now, burst);
      Extend(c, before, x, now, x);
      GrantedExtend(Answers(c, before, x), Reply(now, false), from, until);
    }
  }

  lemma {:induction false} NoAnswers(c: Config, es: seq<Event>, x: Client)
    requires Times(es, x) == []
    ensures Answers(c, es, x) == []
  {
    if es != [] { NoAnswers(c, es[..|es| - 1], x); }
  }

  /** In the configured numbers: of n requests a new client makes at one moment,
      whatever others have done, exactly n or burst are granted, whichever is less. */
  lemma NewClientBurst(perMinute: nat, burst: nat, es: seq<Event>, x: Client, now: real, n: nat)
    requires perMinute > 0 && burst > 0 && Times(es, x) == []
    ensures Granted(Answers(NewConfig(perMinute, burst), Burst(es, x, now, n), x), now, now)
         == if n <= burst then n else burst
  {
    var c := NewConfig(perMinute, burst);
    NoAnswers(c, es, x);
    HeldBucketIsLatest(c, es, x);
    BurstExact(c, es, x, now, n, burst, now, now);
  }

  /** A minute earns perMinute tokens, and any other time in proportion. */
  lemma MinuteGain(perMinute: nat, burst: nat, from: real, to: real)
    requires perMinute > 0 && burst > 0
    ensures Gain(NewConfig(perMinute, burst), from, to) == perMinute as real * (to - from) / 60.0
    ensures to == from + 60.0 ==> Gain(NewConfig(perMinute, burst), from, to) == perMinute as real
  {
    GainScaled(perMinute as real, to - from);
  }

  lemma GainScaled(rate: real, time: real)
    ensures time * (rate / 60.0) == rate * time / 60.0
  {}

  /** A new client's first request adds its bucket, and with every thousandth such
      insertion drops those idle for more than ten minutes. */
  lemma InsertionPrunes(c: Config, t: Table, x: Client, now: real, y: Client)
    requires x !in t.buckets && y != x
    ensures var u := AfterAllow(c, t, x, now);
            && u.inserts == t.inserts + 1
            && u.buckets.Keys <= t.buckets.Keys + {x}
            && (y in u.buckets <==>
                  y in t.buckets && !(u.inserts % 1000 == 0 && now - t.buckets[y].last > 600.0))
            && (y in u.buckets ==> u.buckets[y] == t.buckets[y])
  {}

  /** The idle client's bucket b and k newcomers, until the thousandth insertion. */
  ghost predicate Filling(t: Table, b: Bucket, k: nat) {
    && t.inserts == k + 1
    && (forall y :: y in t.buckets ==> |y| <= k)
    && (if k + 1 < PRUNE_EVERY then REGULAR in t.buckets && t.buckets[REGULAR] == b else REGULAR !in t.buckets)
  }

  lemma FillStep(c: Config, t: Table, b: Bucket, now: real, k: nat)
    requires 0 < k < PRUNE_EVERY && Filling(t, b, k - 1) && Idle(b, now)
    ensures Filling(AfterAllow(c, t, Stranger(k - 1), now), b, k)
  {
    InsertionPrunes(c, t, Stranger(k - 1), now, REGULAR);
  }

  /** Newcomers fill the table until the thousandth insertion prunes the idle client. */
  lemma {:induction false} TableFills(c: Config, es: seq<Event>, b: Bucket, now: real, k: nat)
    requires k < PRUNE_EVERY && Filling(After(c, es), b, 0) && Idle(b, now)
    ensures Filling(After(c, Crowd(es, now, k)), b, k)
  {
    if k > 0 {
      TableFills(c, es, b, now, k - 1);
      FillStep(c, After(c, Crowd(es, now, k - 1)), b, now, k);
      Extend(c, Crowd(es, now, k - 1), Stranger(k - 1), now, REGULAR);
    }
  }

  lemma {:induction false} CrowdUnseen(c: Config, es: seq<Event>, now: real, k: nat)
    ensures Answers(c, Crowd(es, now, k), REGULAR) == Answers(c, es, REGULAR)
  {
    if k > 0 {
      CrowdUnseen(c, es, now, k - 1);
      Extend(c, Crowd(es, now, k - 1), Stranger(k - 1), now, REGULAR);
    }
  }

  /** A burst, an idle spell in which a thousandth client turns up, a burst again. */
  function TwoBursts(n: nat, now: real): seq<Event> {
    Burst(Crowd(Burst([], REGULAR, 0.0, n), now, PRUNE_EVERY - 1), REGULAR, now, n)
  }

  ghost predicate OrderedBy(es: seq<Event>, now: real) {
    InOrder(es) && RequestsOnly(es) && (es != [] ==> Time(es[|es| - 1]) <= now)
  }

  lemma {:induction false} BurstOrdered(es: seq<Event>, x: Client, now: real, k: nat)
    requires OrderedBy(es, now)
    ensures OrderedBy(Burst(es, x, now, k), now)
  {
    if k > 0 { BurstOrdered(es, x, now, k - 1); }
  }

  lemma {:induction false} CrowdOrdered(es: seq<Event>, now: real, k: nat)
    requires OrderedBy(es, now)
    ensures OrderedBy(Crowd(es, now, k), now)
  {
    if k > 0 { CrowdOrdered(es, now, k - 1); }
  }

  lemma TwoBurstsGranted(c: Config, n: nat, now: real)
    requires n > 0 && c.burst == n as real && now > BUCKET_IDLE
    ensures Granted(Answers(c, TwoBursts(n, now), REGULAR), 0.0, now) == 2 * n
  {
    var first := Burst([], REGULAR, 0.0, n);
    Drains(c, [], REGULAR, 0.0, n);
    BurstGranted(c, [], REGULAR, 0.0, n, 0.0, now);
    TableFills(c, first, After(c, first).buckets[REGULAR], now, PRUNE_EVERY - 1);
    CrowdUnseen(c, first, now, PRUNE_EVERY - 1);
    BurstGranted(c, Crowd(first, now, PRUNE_EVERY - 1), REGULAR, now, n, 0.0, now);
  }

  /** A moment past the idle limit by which less than a burst has been earned. */
  lemma TooSoon(c: Config) returns (now: real)
    requires c.Valid() && !c.RefillsBeforePrune()
    ensures now > BUCKET_IDLE && Gain(c, 0.0, now) < c.burst
  {
    var full := c.burst / c.perSecond;
    assert full * c.perSecond == c.burst;
    assert full > BUCKET_IDLE;
    now := (BUCKET_IDLE + full) / 2.0;
    assert now < full;
  }

  /** A history of requests alone that grants more in a stretch of time than a full
      bucket and what is earned in it. */
  lemma WindowOverrun(perMinute: nat, burst: nat) returns (es: seq<Event>, now: real)
    requires perMinute > 0 && burst > 0 && 10 * perMinute < burst
    ensures InOrder(es) && RequestsOnly(es) && now >= 0.0
    ensures var c := NewConfig(perMinute, burst);
            Granted(Answers(c, es, REGULAR), 0.0, now) as real > Budget(c, 0.0, now)
  {
    var c := NewConfig(perMinute, burst);
    now := TooSoon(c);
    es := TwoBursts(burst, now);
    BurstOrdered([], REGULAR, 0.0, burst);
    CrowdOrdered(Burst([], REGULAR, 0.0, burst), now, PRUNE_EVERY - 1);
    BurstOrdered(Crowd(Burst([], REGULAR, 0.0, burst), now, PRUNE_EVERY - 1), REGULAR, now, burst);
    TwoBurstsGranted(c, burst, now);
  }

  lemma PruningObservable(perMinute: nat, burst: nat) returns (es: seq<Event>)
    requires perMinute > 0 && burst > 0 && 10 * perMinute < burst
    ensures InOrder(es) && RequestsOnly(es)
    ensures var c := NewConfig(perMinute, burst);
            Answers(c, es, REGULAR) != IdealAnswers(c, Times(es, REGULAR))
  {
    var c := NewConfig(perMinute, burst);
    var now;
    es, now := WindowOverrun(perMinute, burst);
    TimesSorted(es, REGULAR);
    IdealWindowBound(c, Times(es, REGULAR), 0.0, now);
  }

  /** Client x is never granted more than burst + perMinute * T / 60 requests in any
      stretch of T seconds. */
  ghost predicate WithinBudget(perMinute: nat, burst: nat, es: seq<Event>, x: Client)
    requires perMinute > 0 && burst > 0
  {
    forall from, until :: from <= until ==>
      Granted(Answers(NewConfig(perMinute, burst), es, x), from, until) as real
      <= burst as real + perMinute as real * (until - from) / 60.0
  }

  /** The window bound, too, is kept in every history exactly when ten minutes'
      worth of requests is at least a burst. */
  lemma WindowBoundIff(perMinute: nat, burst: nat)
    requires perMinute > 0 && burst > 0
    ensures (forall es, x :: InOrder(es) && RequestsOnly(es) ==> WithinBudget(perMinute, burst, es, x))
            <==> 10 * perMinute >= burst
  {
    var c := NewConfig(perMinute, burst);
    if 10 * perMinute >= burst {
      forall es, x | InOrder(es) ensures WithinBudget(perMinute, burst, es, x) {
        forall from, until | from <= until
          ensures Granted(Answers(c, es, x), from, until) as real
               <= burst as real + perMinute as real * (until - from) / 60.0
        {
          WindowBound(c, es, x, from, until);
          MinuteGain(perMinute, burst, from, until);
        }
      }
    } else {
      var es, now := WindowOverrun(perMinute, burst);
      MinuteGain(perMinute, burst, 0.0, now);
      assert !WithinBudget(perMinute, burst, es, REGULAR);
    }
  }

  /** Pruning can never be noticed exactly when ten minutes' worth of requests
      is at least a burst. */
  lemma PruningUnobservableIff(perMinute: nat, burst: nat)
    requires perMinute > 0 && burst > 0
    ensures (forall es, x :: InOrder(es) && RequestsOnly(es) ==>
               Answers(NewConfig(perMinute, burst), es, x)
               == IdealAnswers(NewConfig(perMinute, burst), Times(es, x)))
            <==> 10 * perMinute >= burst
  {
    var c := NewConfig(perMinute, burst);
    if 10 * perMinute >= burst {
      forall es, x | InOrder(es) ensures Answers(c, es, x) == IdealAnswers(c, Times(es, x)) {
        PruningUnobservable(c, es, x);
      }
    } else {
      var es := PruningObservable(perMinute, burst);
    }
  }
}
