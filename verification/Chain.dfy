/** chain of app/httpclient.go: the API cache in front of the throttle. A cache
    flight's upstream call is a throttled request of its own; everything else
    the throttle carries bypasses the cache. */
module Chain {
  import opened Common
  import A = ApiStore
  import P = CacheProtocol
  import R = CacheRuns
  import T = Throttle

  datatype State = State(cache: P.State, throttle: T.State)

  /** A step of either part. A flight's request enters the throttle only while
      its call is running, and the call ends only when that request has
      returned: with an error unless it was dispatched. */
  datatype Label = InCache(p: P.Label) | InThrottle(t: T.Label)

  predicate CallingFlight(s: P.State, f: nat) {
    f < |s.flights| && s.flights[f].phase.Calling?
  }

  predicate Enabled(tc: T.Config, s: State, l: Label) {
    match l
    case InCache(p) =>
      && P.Enabled(s.cache, p)
      && (p.Answered? ==>
            var r := T.ForFlight(p.flight);
            && r in s.throttle.reqs && s.throttle.reqs[r].Done?
            && (s.throttle.reqs[r].o != T.Dispatched ==> p.result.Failed?))
    case InThrottle(t) =>
      && T.Enabled(tc, s.throttle, t)
      && (t.Arrive? && t.req.ForFlight? ==> CallingFlight(s.cache, t.req.flight))
  }

  function Step(ac: A.Config, tc: T.Config, s: State, l: Label): State
    requires Enabled(tc, s, l)
  {
    match l
    case InCache(p) => s.(cache := P.Step(ac, s.cache, p))
    case InThrottle(t) => s.(throttle := T.Step(tc, s.throttle, t))
  }

  ghost predicate IsRun(ac: A.Config, tc: T.Config, ss: seq<State>, ls: seq<Label>) {
    && |ss| == |ls| + 1
    && ss[0] == State(P.Init(ss[0].cache.now), T.Init(ss[0].throttle.now))
    && forall i :: 0 <= i < |ls| ==> Enabled(tc, ss[i], ls[i]) && ss[i + 1] == Step(ac, tc, ss[i], ls[i])
  }

  /** The cache's part of a run is a run of the cache, and likewise the throttle's. */
  lemma {:induction false} Projections(ac: A.Config, tc: T.Config, ss: seq<State>, ls: seq<Label>, n: nat)
    returns (ps: seq<P.State>, pl: seq<P.Label>, ts: seq<T.State>, tl: seq<T.Label>)
    requires IsRun(ac, tc, ss, ls) && n < |ss|
    ensures P.IsRun(ac, ps, pl) && ps[|pl|] == ss[n].cache
    ensures T.IsRun(tc, ts, tl) && ts[|tl|] == ss[n].throttle
  {
    if n == 0 {
      ps, pl, ts, tl := [ss[0].cache], [], [ss[0].throttle], [];
    } else {
      ps, pl, ts, tl := Projections(ac, tc, ss, ls, n - 1);
      match ls[n - 1] {
        case InCache(p) => ps, pl := ps + [ss[n].cache], pl + [p];
        case InThrottle(t) => ts, tl := ts + [ss[n].throttle], tl + [t];
      }
    }
  }

  /** The two parts agree: a flight's request exists only for a flight, and a
      flight that got a reply got it through a dispatched base call. */
  ghost predicate Agree(s: State) {
    && (forall r :: r in s.throttle.reqs && r.ForFlight? ==> r.flight < |s.cache.flights|)
    && (forall i :: 0 <= i < |s.cache.replies| && s.cache.replies[i].result.Reply? ==>
          T.At(s.throttle, T.ForFlight(s.cache.replies[i].flight), T.Done(T.Dispatched)))
  }

  lemma {:induction false} RunAgree(ac: A.Config, tc: T.Config, ss: seq<State>, ls: seq<Label>, n: nat)
    requires IsRun(ac, tc, ss, ls) && n < |ss|
    ensures Agree(ss[n])
  {
    if n > 0 {
      RunAgree(ac, tc, ss, ls, n - 1);
      var s, l, t := ss[n - 1], ls[n - 1], ss[n];
      if l.InCache? { P.StepIsLater(ac, s.cache, l.p); }
    }
  }

  /** The base calls made on behalf of the cache, in order and each as often as made. */
  function FlightCalls(calls: seq<T.Caller>): seq<nat> {
    if calls == [] then []
    else (if calls[0].ForFlight? then [calls[0].flight] else []) + FlightCalls(calls[1..])
  }

  lemma {:induction false} FlightCallsMembers(calls: seq<T.Caller>)
    ensures forall f: nat :: f in FlightCalls(calls) <==> T.ForFlight(f) in calls
  {
    if calls != [] {
      FlightCallsMembers(calls[1..]);
      assert forall r :: r in calls <==> r == calls[0] || r in calls[1..];
    }
  }

  /** Calls that are each made once are made for different flights. */
  lemma {:induction false} FlightCallsOnce(calls: seq<T.Caller>)
    requires T.OnceEach(calls)
    ensures forall i, j :: 0 <= i < j < |FlightCalls(calls)| ==> FlightCalls(calls)[i] != FlightCalls(calls)[j]
  {
    if calls != [] {
      FlightCallsOnce(calls[1..]);
      FlightCallsMembers(calls[1..]);
    }
  }

  /** No more calls, each made once, than there are flights they are for. */
  lemma FlightCallsBound(calls: seq<T.Caller>, flights: nat)
    requires T.OnceEach(calls) && forall f: nat :: T.ForFlight(f) in calls ==> f < flights
    ensures |FlightCalls(calls)| <= flights
    ensures forall f: nat :: T.TimesCalled(calls, T.ForFlight(f)) <= 1
  {
    FlightCallsOnce(calls);
    FlightCallsMembers(calls);
    var fs := FlightCalls(calls);
    forall i | 0 <= i < |fs| ensures fs[i] in FirstNats(flights) { assert fs[i] in fs; }
    DistinctWithin(fs, FirstNats(flights));
    forall f: nat ensures T.TimesCalled(calls, T.ForFlight(f)) <= 1 { T.OccursOnce(calls, T.ForFlight(f)); }
  }

  lemma CallsWithinGrants(s: T.State)
    requires T.CallsOk(s) && T.GrantsOk(s)
    ensures |s.calls| <= |s.grants|
  {
    var granted := T.GrantedSet(s.grants);
    forall i | 0 <= i < |s.calls| ensures s.calls[i] in granted {
      assert T.HasGrant(s.grants, s.calls[i]);
    }
    DistinctWithin(s.calls, granted);
    T.GrantedSetSize(s.grants);
  }

  /** However requests interleave, the cache makes at most one upstream call for a
      flight, and so no more calls than flights and no more flights than misses; and
      in any window the calls granted, for the cache and past it, stay within one
      per interval, plus one. */
  lemma UpstreamTraffic(ac: A.Config, tc: T.Config, ss: seq<State>, ls: seq<Label>, n: nat, from: int, width: nat)
    requires IsRun(ac, tc, ss, ls) && n < |ss| && tc.interval > 0
    ensures forall f: nat :: T.TimesCalled(ss[n].throttle.calls, T.ForFlight(f)) <= 1
    ensures |FlightCalls(ss[n].throttle.calls)| <= |ss[n].cache.flights| <= ss[n].cache.store.misses
    ensures |T.Within(ss[n].throttle.grants, from, width)| <= width / tc.interval + 1
    ensures |ss[n].throttle.calls| <= |ss[n].throttle.grants|
  {
    var ps, pl, ts, tl := Projections(ac, tc, ss, ls, n);
    R.Conservation(ac, ps, pl, |pl|);
    T.WindowBound(tc, ts, tl, |tl|, from, width);
    T.RunOutcomes(tc, ts, tl, |tl|);
    RunAgree(ac, tc, ss, ls, n);
    FlightCallsBound(ss[n].throttle.calls, |ss[n].cache.flights|);
    CallsWithinGrants(ss[n].throttle);
  }

  ghost function FirstNats(n: nat): (s: set<nat>)
    ensures |s| == n && forall i: nat :: i in s <==> i < n
  {
    if n == 0 then {} else FirstNats(n - 1) + {n - 1}
  }

  /** A 200 handed out for k, through the whole chain, was brought by a base call
      that the throttle granted to a flight for k and that was made exactly once. */
  lemma ServedWasFetched(ac: A.Config, tc: T.Config, ss: seq<State>, ls: seq<Label>, n: nat, r: P.ReqId)
    requires IsRun(ac, tc, ss, ls) && n < |ss| && r in ss[n].cache.reqs && ss[n].cache.reqs[r].pc.Done?
    requires R.IsOkAnswer(ss[n].cache.reqs[r].pc.answer)
    ensures var s, q := ss[n], ss[n].cache.reqs[r];
            exists i: nat :: i < |s.cache.replies|
              && s.cache.replies[i].key == q.key && s.cache.replies[i].result == P.Reply(q.pc.answer.resp)
              && T.TimesCalled(s.throttle.calls, T.ForFlight(s.cache.replies[i].flight)) == 1
              && T.HasGrant(s.throttle.grants, T.ForFlight(s.cache.replies[i].flight))
  {
    var ps, pl, ts, tl := Projections(ac, tc, ss, ls, n);
    var s, q := ss[n], ss[n].cache.reqs[r];
    R.Coherence(ac, ps, pl, |pl|, r);
    var i: nat :| i < |s.cache.replies| && s.cache.replies[i].key == q.key
               && s.cache.replies[i].result == P.Reply(q.pc.answer.resp);
    RunAgree(ac, tc, ss, ls, n);
    T.ExactlyOneOutcome(tc, ts, tl, |tl|, T.ForFlight(s.cache.replies[i].flight));
  }

  /** x is a throttled request made for a flight that r leads. */
  predicate MadeFor(s: State, x: T.Caller, r: P.ReqId) {
    x.ForFlight? && x.flight < |s.cache.flights| && s.cache.flights[x.flight].leader == r
  }

  /** The throttle has x, has granted it or has called base for it. */
  ghost predicate Carried(s: T.State, x: T.Caller) {
    x in s.reqs || T.HasGrant(s.grants, x) || x in s.calls
  }

  /** A request whose lookup was a fresh hit never costs upstream anything: in every
      reachable state it has been answered with what it found, and it leads no flight
      and is in none. Whatever the throttle ever carried, granted or called for a
      flight was made for a request that missed. */
  lemma FreshHitSparesThrottle(ac: A.Config, tc: T.Config, ss: seq<State>, ls: seq<Label>, n: nat, r: P.ReqId)
    requires IsRun(ac, tc, ss, ls) && n < |ss| && r in ss[n].cache.reqs && ss[n].cache.reqs[r].look.hit
    ensures var s, q := ss[n], ss[n].cache.reqs[r];
            && q.look.found.Some? && q.pc == P.Done(P.Got(q.look.found.value.resp), P.FreshHit)
            && R.FlightOf(q.pc) == None && (forall f :: 0 <= f < |s.cache.flights| ==> s.cache.flights[f].leader != r)
    ensures forall x :: Carried(ss[n].throttle, x) && x.ForFlight? ==>
              exists p :: p in ss[n].cache.reqs && MadeFor(ss[n], x, p) && R.WasMiss(ss[n].cache.reqs[p])
  {
    var ps, pl, ts, tl := Projections(ac, tc, ss, ls, n);
    var s := ss[n];
    P.RunInv(ac, ps, pl, |pl|);
    R.RunCounters(ac, ps, pl, |pl|);
    T.RunOutcomes(tc, ts, tl, |tl|);
    RunAgree(ac, tc, ss, ls, n);
    assert P.ControlOk(ac, s.cache, s.cache.reqs[r]);
    forall x | Carried(s.throttle, x) && x.ForFlight?
      ensures exists p :: p in s.cache.reqs && MadeFor(s, x, p) && R.WasMiss(s.cache.reqs[p])
    {
      assert MadeFor(s, x, s.cache.flights[x.flight].leader);
    }
  }
}
