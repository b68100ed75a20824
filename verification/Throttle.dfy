/** daThrottle.RoundTrip of app/httpclient.go as an interleaved step system: an
    atomic queue counter, a counting semaphore, a mutex held while the interval
    is waited out, and cancellation at the two waits. `grants` and `calls` are
    logs kept for stating properties; no step reads them. */
module Throttle {
  import opened Common

  type Time = int

  /** maxQueueWait: twenty seconds, in nanoseconds like every duration here. */
  const MAX_QUEUE_WAIT: nat := 20_000_000_000

  datatype Config = Config(interval: nat, maxConcurrent: nat)

  /** A throttled request: one made for a cache flight, or one that bypasses the cache. */
  datatype Caller = ForFlight(flight: nat) | Direct(id: nat)

  datatype Outcome = Shed | Cancelled | Dispatched

  datatype Control =
    | Loaded                 // passed the shed test, not yet counted
    | Queued                 // counted; waiting for a slot or for the client to go
    | HasSlot                // waiting for the mutex
    | Sleeping(until: Time)  // holds the mutex, timer running
    | Due                    // holds the mutex, nothing left to wait for
    | Granted                // stamped and unlocked; base call is next
    | Calling                // inside the base call
    | Releasing(o: Outcome)  // deferred release of the slot is next
    | Uncounting(o: Outcome) // deferred decrement of the counter is next
    | Done(o: Outcome)

  datatype Grant = Grant(req: Caller, at: Time)

  datatype State = State(
    now: Time,
    waiting: int,
    occupied: nat,
    holder: Option<Caller>,
    last: Option<Time>,
    reqs: map<Caller, Control>,
    grants: seq<Grant>,
    calls: seq<Caller>)

  datatype Label =
    | Tick(elapsed: nat)
    | Arrive(req: Caller)
    | Enqueue(req: Caller)
    | Acquire(req: Caller)
    | LeaveQueue(req: Caller)
    | Lock(req: Caller)
    | Fire(req: Caller)
    | LeaveSleep(req: Caller)
    | Stamp(req: Caller)
    | Call(req: Caller)
    | Return(req: Caller)
    | Release(req: Caller)
    | Uncount(req: Caller)

  function Init(now: Time): State {
    State(now, 0, 0, None, None, map[], [], [])
  }

  predicate At(s: State, r: Caller, pc: Control) { r in s.reqs && s.reqs[r] == pc }

  predicate Enabled(c: Config, s: State, l: Label) {
    match l
    case Tick(_) => true
    case Arrive(r) => r !in s.reqs
    case Enqueue(r) => At(s, r, Loaded)
    case Acquire(r) => At(s, r, Queued) && s.occupied < c.maxConcurrent
    case LeaveQueue(r) => At(s, r, Queued)
    case Lock(r) => At(s, r, HasSlot) && s.holder.None?
    case Fire(r) => r in s.reqs && s.reqs[r].Sleeping? && s.reqs[r].until <= s.now
    case LeaveSleep(r) => r in s.reqs && s.reqs[r].Sleeping?
    case Stamp(r) => At(s, r, Due)
    case Call(r) => At(s, r, Granted)
    case Return(r) => At(s, r, Calling)
    case Release(r) => r in s.reqs && s.reqs[r].Releasing? && s.occupied > 0
    case Uncount(r) => r in s.reqs && s.reqs[r].Uncounting?
  }

  /** Where the moved request goes. */
  function Next(c: Config, s: State, l: Label): Control
    requires Enabled(c, s, l) && !l.Tick?
  {
    match l
    case Arrive(_) => if s.waiting * c.interval > MAX_QUEUE_WAIT then Done(Shed) else Loaded
    case Enqueue(_) => Queued
    case Acquire(_) => HasSlot
    case LeaveQueue(_) => Uncounting(Cancelled)
    case Lock(_) =>
      if s.last.Some? && c.interval - (s.now - s.last.value) > 0
      then Sleeping(s.now + (c.interval - (s.now - s.last.value)))
      else Due
    case Fire(_) => Due
    case LeaveSleep(_) => Releasing(Cancelled)
    case Stamp(_) => Granted
    case Call(_) => Calling
    case Return(_) => Releasing(Dispatched)
    case Release(r) => Uncounting(s.reqs[r].o)
    case Uncount(r) => Done(s.reqs[r].o)
  }

  function Step(c: Config, s: State, l: Label): State
    requires Enabled(c, s, l)
  {
    if l.Tick? then s.(now := s.now + l.elapsed) else
    var t := s.(reqs := s.reqs[l.req := Next(c, s, l)]);
    match l
    case Enqueue(_) => t.(waiting := s.waiting + 1)
    case Acquire(_) => t.(occupied := s.occupied + 1)
    case Lock(r) => t.(holder := Some(r))
    case LeaveSleep(_) => t.(holder := None)
    case Stamp(r) => t.(holder := None, last := Some(s.now), grants := s.grants + [Grant(r, s.now)])
    case Call(r) => t.(calls := s.calls + [r])
    case Release(_) => t.(occupied := s.occupied - 1)
    case Uncount(_) => t.(waiting := s.waiting - 1)
    case _ => t
  }

  ghost predicate IsRun(c: Config, ss: seq<State>, ls: seq<Label>) {
    && |ss| == |ls| + 1
    && ss[0] == Init(ss[0].now)
    && forall i :: 0 <= i < |ls| ==> Enabled(c, ss[i], ls[i]) && ss[i + 1] == Step(c, ss[i], ls[i])
  }

  // ----- conservation -----

  /** Between the increment and the decrement of the counter. */
  predicate Admitted(pc: Control) { !pc.Loaded? && !pc.Done? }

  /** Between acquiring and releasing a slot. */
  predicate HoldsSlot(pc: Control) { Admitted(pc) && !pc.Queued? && !pc.Uncounting? }

  predicate InBase(pc: Control) { pc.Calling? }

  predicate HoldsMutex(pc: Control) { pc.Sleeping? || pc.Due? }

  ghost predicate Conserved(c: Config, s: State) {
    && s.waiting == Count(s.reqs, Admitted)
    && s.occupied == Count(s.reqs, HoldsSlot)
    && s.occupied <= c.maxConcurrent
  }

  lemma ConservedStep(c: Config, s: State, l: Label)
    requires Enabled(c, s, l) && Conserved(c, s)
    ensures Conserved(c, Step(c, s, l))
  {
    if !l.Tick? {
      CountUpdate(s.reqs, l.req, Next(c, s, l), Admitted);
      CountUpdate(s.reqs, l.req, Next(c, s, l), HoldsSlot);
    }
  }

  lemma {:induction false} RunConserved(c: Config, ss: seq<State>, ls: seq<Label>, n: nat)
    requires IsRun(c, ss, ls) && n < |ss|
    ensures Conserved(c, ss[n])
  {
    if n > 0 {
      RunConserved(c, ss, ls, n - 1);
      ConservedStep(c, ss[n - 1], ls[n - 1]);
    }
  }

  /** In every reachable state base calls in flight <= slots taken <= queue
      counter, slots never exceed the limit, and once every request has
      returned, by whichever exit, both are back to zero. A slot being released
      is always there to release, so the deferred receive never blocks. */
  lemma Conservation(c: Config, ss: seq<State>, ls: seq<Label>, n: nat)
    requires IsRun(c, ss, ls) && n < |ss|
    ensures var s := ss[n];
            && Count(s.reqs, InBase) <= s.occupied <= c.maxConcurrent
            && s.occupied <= s.waiting <= |s.reqs|
            && s.occupied == Count(s.reqs, HoldsSlot) && s.waiting == Count(s.reqs, Admitted)
            && ((forall r :: r in s.reqs ==> s.reqs[r].Done?) ==> s.occupied == 0 && s.waiting == 0)
            && (forall r :: r in s.reqs && s.reqs[r].Releasing? ==> Enabled(c, s, Release(r)))
  {
    var s := ss[n];
    RunConserved(c, ss, ls, n);
    CountMonotone(s.reqs, InBase, HoldsSlot);
    CountMonotone(s.reqs, HoldsSlot, Admitted);
    SubsetSize(Where(s.reqs, Admitted), s.reqs.Keys);
    if forall r :: r in s.reqs ==> s.reqs[r].Done? {
      assert Where(s.reqs, Admitted) == {};
    }
    forall r | r in s.reqs && s.reqs[r].Releasing? ensures s.occupied > 0 {
      SubsetSize({r}, Where(s.reqs, HoldsSlot));
    }
  }

  // ----- spacing -----

  ghost predicate MutexOk(s: State) {
    forall r :: r in s.reqs && HoldsMutex(s.reqs[r]) ==> s.holder == Some(r)
  }

  ghost predicate Spaced(c: Config, gs: seq<Grant>) {
    forall i :: 0 < i < |gs| ==> gs[i - 1].at + c.interval <= gs[i].at
  }

  ghost predicate SpacingOk(c: Config, s: State) {
    && MutexOk(s)
    && Spaced(c, s.grants)
    && s.last == (if s.grants == [] then None else Some(s.grants[|s.grants| - 1].at))
    && (s.last.Some? ==> s.last.value <= s.now)
    && (forall r :: r in s.reqs && s.reqs[r].Sleeping? ==> s.last.Some? && s.reqs[r].until == s.last.value + c.interval)
    && (forall r :: r in s.reqs && s.reqs[r].Due? && s.last.Some? ==> s.last.value + c.interval <= s.now)
  }

  lemma MutexStep(c: Config, s: State, l: Label)
    requires Enabled(c, s, l) && MutexOk(s)
    ensures MutexOk(Step(c, s, l))
  {}

  /** The one step that adds a grant comes a full interval after the last. */
  lemma StampSpaced(c: Config, gs: seq<Grant>, r: Caller, now: Time)
    requires Spaced(c, gs) && (gs != [] ==> gs[|gs| - 1].at + c.interval <= now)
    ensures Spaced(c, gs + [Grant(r, now)])
  {}

  lemma SpacingStep(c: Config, s: State, l: Label)
    requires Enabled(c, s, l) && SpacingOk(c, s)
    ensures SpacingOk(c, Step(c, s, l))
  {
    MutexStep(c, s, l);
    if l.Stamp? { StampSpaced(c, s.grants, l.req, s.now); }
  }

  lemma {:induction false} RunSpacing(c: Config, ss: seq<State>, ls: seq<Label>, n: nat)
    requires IsRun(c, ss, ls) && n < |ss|
    ensures SpacingOk(c, ss[n])
  {
    if n > 0 {
      RunSpacing(c, ss, ls, n - 1);
      SpacingStep(c, ss[n - 1], ls[n - 1]);
    }
  }

  lemma {:induction false} SpacedApart(c: Config, gs: seq<Grant>, i: nat, j: nat)
    requires Spaced(c, gs) && i <= j < |gs|
    ensures gs[i].at + (j - i) * c.interval <= gs[j].at
    decreases j
  {
    if i < j {
      SpacedApart(c, gs, i, j - 1);
      assert (j - i) * c.interval == (j - 1 - i) * c.interval + c.interval;
    }
  }

  /** Any k + 1 successive grants span at least k intervals. */
  lemma GrantsSpan(c: Config, ss: seq<State>, ls: seq<Label>, n: nat, i: nat, k: nat)
    requires IsRun(c, ss, ls) && n < |ss| && i + k < |ss[n].grants|
    ensures ss[n].grants[i + k].at - ss[n].grants[i].at >= k * c.interval
  {
    RunSpacing(c, ss, ls, n);
    SpacedApart(c, ss[n].grants, i, i + k);
  }

  /** The grants made from `from` to `from + width`. */
  ghost function Within(gs: seq<Grant>, from: Time, width: nat): set<int> {
    set i | i in Range(0, |gs|) && from <= gs[i].at <= from + width
  }

  /** A window of any length holds at most length / interval + 1 grants. */
  lemma WindowBound(c: Config, ss: seq<State>, ls: seq<Label>, n: nat, from: Time, width: nat)
    requires IsRun(c, ss, ls) && n < |ss| && c.interval > 0
    ensures |Within(ss[n].grants, from, width)| <= width / c.interval + 1
  {
    RunSpacing(c, ss, ls, n);
    WindowOfSpaced(c, ss[n].grants, from, width);
  }

  lemma WindowOfSpaced(c: Config, gs: seq<Grant>, from: Time, width: nat)
    requires Spaced(c, gs) && c.interval > 0
    ensures |Within(gs, from, width)| <= width / c.interval + 1
  {
    var first: nat := 0;
    while first < |gs| && gs[first].at < from
      invariant first <= |gs| && forall j :: 0 <= j < first ==> gs[j].at < from
    {
      first := first + 1;
    }
    var room := Range(first, first + width / c.interval + 1);
    forall j | j in Within(gs, from, width) ensures j in room {
      WithinRoom(c, gs, from, width, first, j);
    }
    SubsetSize(Within(gs, from, width), room);
  }

  lemma WithinRoom(c: Config, gs: seq<Grant>, from: Time, width: nat, first: nat, j: nat)
    requires Spaced(c, gs) && c.interval > 0 && j < |gs| && from <= gs[j].at <= from + width
    requires (forall i :: 0 <= i < first && i < |gs| ==> gs[i].at < from) && (first < |gs| ==> from <= gs[first].at)
    ensures first <= j < first + width / c.interval + 1
  {
    if first <= j {
      SpacedApart(c, gs, first, j);
      QuotientBound(j - first, c.interval, width);
    }
  }

  lemma QuotientBound(k: nat, d: nat, w: nat)
    requires d > 0 && k * d <= w
    ensures k <= w / d
  {
    var q := w / d;
    assert w < (q + 1) * d;
    assert k * d < (q + 1) * d;
    assert k < q + 1 by {
      if k >= q + 1 {
        MulOrder(q + 1, k, d);
        assert false;
      }
    }
  }

  lemma MulOrder(a: nat, b: nat, d: nat)
    requires a <= b
    ensures a * d <= b * d
  {
    assert b * d == a * d + (b - a) * d;
  }

  // ----- outcomes -----

  /** Has made its base call. */
  predicate Called(pc: Control) {
    pc.Calling? || pc == Releasing(Dispatched) || pc == Uncounting(Dispatched) || pc == Done(Dispatched)
  }

  predicate GotGrant(pc: Control) { pc.Granted? || Called(pc) }

  ghost predicate OnceEach(xs: seq<Caller>) {
    forall i, j :: 0 <= i < j < |xs| ==> xs[i] != xs[j]
  }

  ghost predicate CallsOk(s: State) {
    && OnceEach(s.calls)
    && (forall i :: 0 <= i < |s.calls| ==> s.calls[i] in s.reqs && Called(s.reqs[s.calls[i]]))
    && (forall r :: r in s.reqs && Called(s.reqs[r]) ==> r in s.calls)
  }

  ghost predicate HasGrant(gs: seq<Grant>, r: Caller) {
    exists i :: 0 <= i < |gs| && gs[i].req == r
  }

  ghost predicate GrantsOk(s: State) {
    && (forall i :: 0 <= i < |s.grants| ==> s.grants[i].req in s.reqs && GotGrant(s.reqs[s.grants[i].req]))
    && (forall i, j :: 0 <= i < j < |s.grants| ==> s.grants[i].req != s.grants[j].req)
    && (forall r :: r in s.reqs && GotGrant(s.reqs[r]) ==> HasGrant(s.grants, r))
  }

  lemma CallsStep(c: Config, s: State, l: Label)
    requires Enabled(c, s, l) && CallsOk(s)
    ensures CallsOk(Step(c, s, l))
  {
    if l.Call? {
      assert Step(c, s, l).calls[|s.calls|] == l.req;
    } else {
      CallsLast(c, s, l);
    }
  }

  /** Without a call nobody's call is added or lost. */
  lemma CallsLast(c: Config, s: State, l: Label)
    requires Enabled(c, s, l) && !l.Call?
    ensures var t := Step(c, s, l);
            && t.calls == s.calls
            && (forall r :: r in s.reqs ==> r in t.reqs && (Called(t.reqs[r]) <==> Called(s.reqs[r])))
            && (forall r :: r in t.reqs && r !in s.reqs ==> !Called(t.reqs[r]))
  {}

  lemma HasGrantGrows(gs: seq<Grant>, g: Grant, r: Caller)
    ensures HasGrant(gs + [g], r) <==> HasGrant(gs, r) || g.req == r
  {
    assert (gs + [g])[|gs|] == g;
    if i :| 0 <= i < |gs| && gs[i].req == r { assert (gs + [g])[i].req == r; }
  }

  lemma GrantsStep(c: Config, s: State, l: Label)
    requires Enabled(c, s, l) && GrantsOk(s)
    ensures GrantsOk(Step(c, s, l))
  {
    if l.Stamp? {
      StampGrants(c, s, l.req);
    } else {
      OnlyStampsMoveLast(c, s, l);
      GrantsLast(c, s, l);
    }
  }

  /** Without a stamp nobody gets or loses a grant. */
  lemma GrantsLast(c: Config, s: State, l: Label)
    requires Enabled(c, s, l) && !l.Stamp?
    ensures var t := Step(c, s, l);
            && (forall r :: r in s.reqs ==> r in t.reqs && (GotGrant(t.reqs[r]) <==> GotGrant(s.reqs[r])))
            && (forall r :: r in t.reqs && r !in s.reqs ==> !GotGrant(t.reqs[r]))
  {}

  lemma StampGrants(c: Config, s: State, r: Caller)
    requires Enabled(c, s, Stamp(r)) && GrantsOk(s)
    ensures GrantsOk(Step(c, s, Stamp(r)))
  {
    var t := Step(c, s, Stamp(r));
    forall q | q in t.reqs && GotGrant(t.reqs[q]) ensures HasGrant(t.grants, q) {
      HasGrantGrows(s.grants, Grant(r, s.now), q);
    }
  }

  lemma {:induction false} RunOutcomes(c: Config, ss: seq<State>, ls: seq<Label>, n: nat)
    requires IsRun(c, ss, ls) && n < |ss|
    ensures CallsOk(ss[n]) && GrantsOk(ss[n])
  {
    if n > 0 {
      RunOutcomes(c, ss, ls, n - 1);
      CallsStep(c, ss[n - 1], ls[n - 1]);
      GrantsStep(c, ss[n - 1], ls[n - 1]);
    }
  }

  /** Times r appears among the base calls. */
  ghost function TimesCalled(xs: seq<Caller>, r: Caller): nat {
    multiset(xs)[r]
  }

  /** A returned request was dispatched to base exactly once, or shed or
      cancelled and then never dispatched and never granted. */
  lemma ExactlyOneOutcome(c: Config, ss: seq<State>, ls: seq<Label>, n: nat, r: Caller)
    requires IsRun(c, ss, ls) && n < |ss| && r in ss[n].reqs && ss[n].reqs[r].Done?
    ensures TimesCalled(ss[n].calls, r) == if ss[n].reqs[r].o == Dispatched then 1 else 0
    ensures HasGrant(ss[n].grants, r) <==> ss[n].reqs[r].o == Dispatched
  {
    RunOutcomes(c, ss, ls, n);
    OccursOnce(ss[n].calls, r);
  }

  lemma {:induction false} OccursOnce(xs: seq<Caller>, r: Caller)
    requires OnceEach(xs)
    ensures multiset(xs)[r] == if r in xs then 1 else 0
  {
    if xs != [] {
      var n := |xs| - 1;
      OccursOnce(xs[..n], r);
      assert xs == xs[..n] + [xs[n]];
    }
  }

  /** Shedding touches nothing but the request itself; cancelling, at either wait,
      makes no call and leaves the last stamp and the grants alone; and only a
      stamp ever moves the last start. */
  lemma OnlyStampsMoveLast(c: Config, s: State, l: Label)
    requires Enabled(c, s, l)
    ensures var t := Step(c, s, l);
            && (l.Arrive? ==> t == s.(reqs := t.reqs))
            && (!l.Stamp? ==> t.last == s.last && t.grants == s.grants)
            && (!l.Call? ==> t.calls == s.calls)
            && (l.LeaveQueue? || l.LeaveSleep? ==> t.waiting == s.waiting && t.occupied == s.occupied)
  {}

  /** Neither being shed nor on the way to it. */
  predicate Spared(pc: Control) { pc != Done(Shed) && pc != Releasing(Shed) && pc != Uncounting(Shed) }

  lemma ArrivalSheds(c: Config, ss: seq<State>, ls: seq<Label>, i: nat, r: Caller)
    requires IsRun(c, ss, ls) && i < |ls| && ls[i] == Arrive(r)
    ensures r in ss[i + 1].reqs
    ensures if ss[i].waiting * c.interval > 20_000_000_000 then ss[i + 1].reqs[r] == Done(Shed)
            else Spared(ss[i + 1].reqs[r])
  {
    assert ss[i + 1] == Step(c, ss[i], ls[i]);
  }

  lemma StepKeepsShed(c: Config, ss: seq<State>, ls: seq<Label>, n: nat, r: Caller)
    requires IsRun(c, ss, ls) && n < |ls| && r in ss[n].reqs
    ensures r in ss[n + 1].reqs
    ensures ss[n].reqs[r] == Done(Shed) ==> ss[n + 1].reqs[r] == Done(Shed)
    ensures Spared(ss[n].reqs[r]) ==> Spared(ss[n + 1].reqs[r])
  {
    assert ss[n + 1] == Step(c, ss[n], ls[n]);
  }

  lemma {:induction false} ShedOrSpared(c: Config, ss: seq<State>, ls: seq<Label>, i: nat, n: nat, r: Caller)
    requires IsRun(c, ss, ls) && i < n < |ss| && ls[i] == Arrive(r)
    ensures r in ss[n].reqs
    ensures if ss[i].waiting * c.interval > 20_000_000_000 then ss[n].reqs[r] == Done(Shed) else Spared(ss[n].reqs[r])
    decreases n
  {
    if n == i + 1 {
      ArrivalSheds(c, ss, ls, i, r);
    } else {
      ShedOrSpared(c, ss, ls, i, n - 1, r);
      StepKeepsShed(c, ss, ls, n - 1, r);
    }
  }

  /** Which requests are shed: those that arrive to a queue of more than twenty
      seconds' worth of intervals, and no others, whoever makes them. */
  lemma ShedIff(c: Config, ss: seq<State>, ls: seq<Label>, i: nat, n: nat, r: Caller)
    requires IsRun(c, ss, ls) && i < n < |ss| && ls[i] == Arrive(r)
    ensures r in ss[n].reqs && (ss[n].reqs[r] == Done(Shed) <==> ss[i].waiting * c.interval > 20_000_000_000)
  {
    ShedOrSpared(c, ss, ls, i, n, r);
  }

  /** The states some enabled steps lead through. */
  ghost predicate Leads(c: Config, s: State, ls: seq<Label>, t: State)
    decreases |ls|
  {
    if ls == [] then s == t else Enabled(c, s, ls[0]) && Leads(c, Step(c, s, ls[0]), ls[1..], t)
  }

  lemma LeadsOn(c: Config, s: State, l: Label, rest: seq<Label>, t: State)
    requires Enabled(c, s, l) && Leads(c, Step(c, s, l), rest, t)
    ensures Leads(c, s, [l] + rest, t)
  {
    assert ([l] + rest)[1..] == rest;
  }

  /** A request that waits can always be cancelled, and gives back exactly what it
      took: its place in the queue, and, if it was waiting out the interval, its slot
      and the mutex. Nothing else changes. */
  lemma CancelGivesBack(c: Config, ss: seq<State>, ls: seq<Label>, n: nat, r: Caller)
    requires IsRun(c, ss, ls) && n < |ss| && r in ss[n].reqs
    ensures var s := ss[n];
            s.reqs[r].Queued? ==>
              Leads(c, s, [LeaveQueue(r)] + ([Uncount(r)] + []),
                    s.(waiting := s.waiting - 1, reqs := s.reqs[r := Done(Cancelled)]))
    ensures var s := ss[n];
            s.reqs[r].Sleeping? ==>
              && s.occupied > 0
              && Leads(c, s, [LeaveSleep(r)] + ([Release(r)] + ([Uncount(r)] + [])),
                       s.(waiting := s.waiting - 1, occupied := s.occupied - 1, holder := None,
                          reqs := s.reqs[r := Done(Cancelled)]))
  {
    var s := ss[n];
    RunConserved(c, ss, ls, n);
    if s.reqs[r].Queued? {
      var s1 := Step(c, s, LeaveQueue(r));
      var s2 := Step(c, s1, Uncount(r));
      assert s.reqs[r := Uncounting(Cancelled)][r := Done(Cancelled)] == s.reqs[r := Done(Cancelled)];
      LeadsOn(c, s1, Uncount(r), [], s2);
      LeadsOn(c, s, LeaveQueue(r), [Uncount(r)] + [], s2);
    } else if s.reqs[r].Sleeping? {
      SubsetSize({r}, Where(s.reqs, HoldsSlot));
      SleepGivesBack(c, s, r);
    }
  }

  lemma SleepGivesBack(c: Config, s: State, r: Caller)
    requires r in s.reqs && s.reqs[r].Sleeping? && s.occupied > 0
    ensures Leads(c, s, [LeaveSleep(r)] + ([Release(r)] + ([Uncount(r)] + [])),
                  s.(waiting := s.waiting - 1, occupied := s.occupied - 1, holder := None,
                     reqs := s.reqs[r := Done(Cancelled)]))
  {
    var s1 := Step(c, s, LeaveSleep(r));
    var s2 := Step(c, s1, Release(r));
    var s3 := Step(c, s2, Uncount(r));
    assert s.reqs[r := Releasing(Cancelled)][r := Uncounting(Cancelled)][r := Done(Cancelled)]
        == s.reqs[r := Done(Cancelled)];
    LeadsOn(c, s2, Uncount(r), [], s3);
    LeadsOn(c, s1, Release(r), [Uncount(r)] + [], s3);
    LeadsOn(c, s, LeaveSleep(r), [Release(r)] + ([Uncount(r)] + []), s3);
  }

  /** In every reachable state the last start is that of the latest grant, and the
      request it was made to is bound for base or has been there: no shed or
      cancelled request ever moved it. */
  lemma LastIsDispatched(c: Config, ss: seq<State>, ls: seq<Label>, n: nat)
    requires IsRun(c, ss, ls) && n < |ss|
    ensures var s := ss[n];
            if s.grants == [] then s.last == None
            else
              var g := s.grants[|s.grants| - 1];
              s.last == Some(g.at) && g.req in s.reqs && GotGrant(s.reqs[g.req])
              && s.reqs[g.req] != Done(Shed) && s.reqs[g.req] != Done(Cancelled)
  {
    RunSpacing(c, ss, ls, n);
    RunOutcomes(c, ss, ls, n);
  }

  ghost function GrantedSet(gs: seq<Grant>): set<Caller> {
    set i | i in Range(0, |gs|) :: gs[i].req
  }

  lemma {:induction false} GrantedSetSize(gs: seq<Grant>)
    ensures |GrantedSet(gs)| <= |gs|
  {
    if gs != [] {
      var n := |gs| - 1;
      GrantedSetSize(gs[..n]);
      assert GrantedSet(gs) == GrantedSet(gs[..n]) + {gs[n].req};
    }
  }

  // ----- how deep the queue gets -----

  predicate IsLoaded(pc: Control) { pc.Loaded? }

  /** At most m requests are ever between the check and the increment together. */
  ghost predicate ChecksTogether(ss: seq<State>, m: nat) {
    forall i :: 0 <= i < |ss| ==> Count(ss[i].reqs, IsLoaded) <= m
  }

  /** The counter never exceeds what the shed test allows by more than the number
      of requests that pass the test together. */
  lemma {:induction false} QueueBound(c: Config, ss: seq<State>, ls: seq<Label>, n: nat, m: nat)
    requires IsRun(c, ss, ls) && n < |ss| && c.interval > 0 && ChecksTogether(ss, m)
    ensures ss[n].waiting + Count(ss[n].reqs, IsLoaded) <= MAX_QUEUE_WAIT / c.interval + m
  {
    if n > 0 {
      QueueBound(c, ss, ls, n - 1, m);
      var s, l := ss[n - 1], ls[n - 1];
      if !l.Tick? { CountUpdate(s.reqs, l.req, Next(c, s, l), IsLoaded); }
      if l.Arrive? && Next(c, s, l).Loaded? {
        RunConserved(c, ss, ls, n - 1);
        QuotientBound(s.waiting, c.interval, MAX_QUEUE_WAIT);
        assert Count(ss[n].reqs, IsLoaded) <= m;
      }
    }
  }

  /** With check and increment serialised the counter stays at the floor plus one. */
  lemma SerialisedQueueBound(c: Config, ss: seq<State>, ls: seq<Label>, n: nat)
    requires IsRun(c, ss, ls) && n < |ss| && c.interval > 0 && ChecksTogether(ss, 1)
    ensures ss[n].waiting <= MAX_QUEUE_WAIT / c.interval + 1
  {
    QueueBound(c, ss, ls, n, 1);
  }

  /** Some run leads to s with at most m requests ever between check and increment. */
  ghost predicate Reachable(c: Config, m: nat, s: State) {
    exists ss, ls :: IsRun(c, ss, ls) && ChecksTogether(ss, m) && ss[|ls|] == s
  }

  lemma ReachStep(c: Config, m: nat, s: State, l: Label)
    requires Reachable(c, m, s) && Enabled(c, s, l) && Count(Step(c, s, l).reqs, IsLoaded) <= m
    ensures Reachable(c, m, Step(c, s, l))
  {
    var ss, ls :| IsRun(c, ss, ls) && ChecksTogether(ss, m) && ss[|ls|] == s;
    assert IsRun(c, ss + [Step(c, s, l)], ls + [l]);
  }

  /** What a new request, or counting a loaded one, does to the number loaded. */
  lemma LoadedAfter(c: Config, s: State, l: Label)
    requires Enabled(c, s, l)
    ensures l.Arrive? && Next(c, s, l).Loaded? ==> Count(Step(c, s, l).reqs, IsLoaded) == Count(s.reqs, IsLoaded) + 1
    ensures l.Enqueue? ==> Count(Step(c, s, l).reqs, IsLoaded) == Count(s.reqs, IsLoaded) - 1
  {
    if !l.Tick? { CountUpdate(s.reqs, l.req, Next(c, s, l), IsLoaded); }
  }

  /** counted requests have been counted, and the next `loaded` have passed the test. */
  ghost predicate Crowded(s: State, counted: nat, loaded: nat) {
    && s.waiting == counted && s.occupied == 0 && Count(s.reqs, IsLoaded) == loaded
    && (forall i: nat :: counted <= i < counted + loaded ==> At(s, Direct(i), Loaded))
    && (forall i: nat :: i >= counted + loaded ==> Direct(i) !in s.reqs)
  }

  lemma LoadOne(c: Config, m: nat, s: State, counted: nat, loaded: nat) returns (t: State)
    requires Reachable(c, m, s) && Crowded(s, counted, loaded)
    requires loaded < m && counted * c.interval <= MAX_QUEUE_WAIT
    ensures Reachable(c, m, t) && Crowded(t, counted, loaded + 1)
  {
    var l := Arrive(Direct(counted + loaded));
    LoadedAfter(c, s, l);
    ReachStep(c, m, s, l);
    t := Step(c, s, l);
  }

  lemma CountOne(c: Config, m: nat, s: State, counted: nat, loaded: nat) returns (t: State)
    requires Reachable(c, m, s) && Crowded(s, counted, loaded) && 0 < loaded <= m
    ensures Reachable(c, m, t) && Crowded(t, counted + 1, loaded - 1)
  {
    var l := Enqueue(Direct(counted));
    LoadedAfter(c, s, l);
    ReachStep(c, m, s, l);
    t := Step(c, s, l);
  }

  /** One at a time, requests fill the queue as far as the test lets them. */
  lemma {:induction false} Serially(c: Config, m: nat, k: nat) returns (s: State)
    requires k > 0 ==> m > 0 && (k - 1) * c.interval <= MAX_QUEUE_WAIT
    ensures Reachable(c, m, s) && Crowded(s, k, 0)
  {
    if k == 0 {
      s := Init(0);
      assert Where(s.reqs, IsLoaded) == {} && IsRun(c, [s], []) && ChecksTogether([s], m);
    } else {
      if k > 1 { MulOrder(k - 2, k - 1, c.interval); }
      s := Serially(c, m, k - 1);
      s := LoadOne(c, m, s, k - 1, 0);
      s := CountOne(c, m, s, k - 1, 1);
    }
  }

  /** Then as many as can pass the test together do. */
  lemma {:induction false} LoadMany(c: Config, m: nat, k: nat, j: nat) returns (s: State)
    requires j <= m && k * c.interval <= MAX_QUEUE_WAIT && (k > 0 ==> m > 0)
    ensures Reachable(c, m, s) && Crowded(s, k, j)
  {
    if j == 0 {
      if k > 0 { MulOrder(k - 1, k, c.interval); }
      s := Serially(c, m, k);
    } else {
      s := LoadMany(c, m, k, j - 1);
      s := LoadOne(c, m, s, k, j - 1);
    }
  }

  /** And then they are all counted. */
  lemma {:induction false} CountMany(c: Config, m: nat, k: nat, j: nat) returns (s: State)
    requires j <= m && k * c.interval <= MAX_QUEUE_WAIT && (k > 0 ==> m > 0)
    ensures Reachable(c, m, s) && Crowded(s, k + j, m - j)
  {
    if j == 0 {
      s := LoadMany(c, m, k, m);
    } else {
      s := CountMany(c, m, k, j - 1);
      s := CountOne(c, m, s, k + j - 1, m - j + 1);
    }
  }

  /** Without that serialisation the shed test bounds nothing: whatever the
      interval, the counter can reach any height, since the load and the
      increment are two atomic operations and not one. */
  lemma UnserialisedQueueUnbounded(c: Config, height: nat)
    ensures exists s, m :: Reachable(c, m, s) && s.waiting == height
  {
    var s := CountMany(c, height, 0, height);
  }

  /** The queue bounded by `bound` in every run with at most m between check and increment. */
  ghost predicate QueueBounded(c: Config, m: nat, bound: int) {
    forall s :: Reachable(c, m, s) ==> s.waiting <= bound
  }

  /** Exactly which bounds the queue keeps when at most m requests are ever between
      check and increment: those from m above the floor on, if there is an
      interval to wait for, and none if there is not. */
  lemma QueueBoundIff(c: Config, m: nat, bound: int)
    requires m > 0
    ensures QueueBounded(c, m, bound) <==> c.interval > 0 && bound >= MAX_QUEUE_WAIT / c.interval + m
  {
    if c.interval > 0 {
      var floor := MAX_QUEUE_WAIT / c.interval;
      forall s | Reachable(c, m, s) ensures s.waiting <= floor + m {
        var ss, ls :| IsRun(c, ss, ls) && ChecksTogether(ss, m) && ss[|ls|] == s;
        QueueBound(c, ss, ls, |ls|, m);
      }
      var s := CountMany(c, m, floor, m);
    } else {
      var s := Serially(c, m, if bound < 0 then 0 else bound + 1);
    }
  }

  // ----- the window bound is attained -----

  /** No request but returned ones; k grants made an interval apart from `from` on. */
  ghost predicate Paced(c: Config, s: State, from: Time, k: nat) {
    && s.waiting == 0 && s.occupied == 0 && s.holder == None
    && (forall r :: r in s.reqs ==> s.reqs[r].Done?)
    && (forall i: nat :: i >= k ==> Direct(i) !in s.reqs)
    && |s.grants| == k && (forall i :: 0 <= i < k ==> s.grants[i].at == from + i * c.interval)
    && s.last == (if k == 0 then None else Some(s.grants[k - 1].at))
    && s.now == from + (if k == 0 then 0 else (k - 1) * c.interval)
  }

  /** No step but an arrival adds to the requests between check and increment. */
  lemma LoadedAtMost(c: Config, s: State, l: Label)
    requires Enabled(c, s, l)
    ensures Count(Step(c, s, l).reqs, IsLoaded) <= Count(s.reqs, IsLoaded) + (if l.Arrive? then 1 else 0)
  {
    if !l.Tick? { CountUpdate(s.reqs, l.req, Next(c, s, l), IsLoaded); }
  }

  lemma Take(c: Config, s: State, l: Label) returns (t: State)
    requires Reachable(c, 1, s) && Enabled(c, s, l) && Count(s.reqs, IsLoaded) <= (if l.Arrive? then 0 else 1)
    ensures t == Step(c, s, l) && Reachable(c, 1, t)
    ensures Count(t.reqs, IsLoaded) <= 1
  {
    LoadedAtMost(c, s, l);
    ReachStep(c, 1, s, l);
    t := Step(c, s, l);
  }

  lemma NoneLoaded(s: State)
    requires forall r :: r in s.reqs ==> s.reqs[r].Done?
    ensures Count(s.reqs, IsLoaded) == 0
  {
    assert Where(s.reqs, IsLoaded) == {};
  }

  /** A request that finds the queue empty gets a slot at once. */
  lemma Entering(c: Config, s: State, r: Caller) returns (t: State)
    requires Reachable(c, 1, s) && c.maxConcurrent > 0 && s.waiting == 0 && s.occupied == 0
    requires r !in s.reqs && Count(s.reqs, IsLoaded) == 0
    ensures Reachable(c, 1, t) && Count(t.reqs, IsLoaded) <= 1
    ensures t == s.(waiting := 1, occupied := 1, reqs := s.reqs[r := HasSlot])
  {
    t := Take(c, s, Arrive(r));
    t := Take(c, t, Enqueue(r));
    t := Take(c, t, Acquire(r));
    assert s.reqs[r := Loaded][r := Queued][r := HasSlot] == s.reqs[r := HasSlot];
  }

  /** With the mutex free and the interval over, it is granted at once as well. */
  lemma Granting(c: Config, s: State, r: Caller) returns (t: State)
    requires Reachable(c, 1, s) && At(s, r, HasSlot) && s.holder == None && Count(s.reqs, IsLoaded) <= 1
    requires s.last.Some? ==> s.last.value + c.interval <= s.now
    ensures Reachable(c, 1, t) && Count(t.reqs, IsLoaded) <= 1
    ensures t == s.(reqs := s.reqs[r := Granted], last := Some(s.now), grants := s.grants + [Grant(r, s.now)])
  {
    t := Take(c, s, Lock(r));
    t := Take(c, t, Stamp(r));
    assert s.reqs[r := Due][r := Granted] == s.reqs[r := Granted];
  }

  /** ... and returns. */
  lemma Returning(c: Config, s: State, r: Caller) returns (t: State)
    requires Reachable(c, 1, s) && At(s, r, Granted) && s.occupied > 0 && Count(s.reqs, IsLoaded) <= 1
    ensures Reachable(c, 1, t)
    ensures t == s.(waiting := s.waiting - 1, occupied := s.occupied - 1, reqs := s.reqs[r := Done(Dispatched)],
                    calls := s.calls + [r])
  {
    t := Take(c, s, Call(r));
    t := Take(c, t, Return(r));
    t := Take(c, t, Release(r));
    t := Take(c, t, Uncount(r));
    assert s.reqs[r := Calling][r := Releasing(Dispatched)][r := Uncounting(Dispatched)][r := Done(Dispatched)]
        == s.reqs[r := Done(Dispatched)];
  }

  lemma OneMore(c: Config, s: State, from: Time, k: nat) returns (t: State)
    requires Reachable(c, 1, s) && c.maxConcurrent > 0
    requires Paced(c, s.(now := s.now - (if k == 0 then 0 else c.interval)), from, k)
    ensures Reachable(c, 1, t) && Paced(c, t, from, k + 1)
  {
    var r := Direct(k);
    NoneLoaded(s);
    t := Entering(c, s, r);
    t := Granting(c, t, r);
    t := Returning(c, t, r);
    if k > 0 { assert k * c.interval == (k - 1) * c.interval + c.interval; }
  }

  /** One request after another, an interval apart. */
  lemma {:induction false} PacedRun(c: Config, from: Time, k: nat) returns (s: State)
    requires c.maxConcurrent > 0
    ensures Reachable(c, 1, s) && Paced(c, s, from, k)
  {
    if k == 0 {
      s := Init(from);
      NoneLoaded(s);
      assert IsRun(c, [s], []) && ChecksTogether([s], 1);
    } else {
      s := PacedRun(c, from, k - 1);
      NoneLoaded(s);
      if k > 1 { s := Take(c, s, Tick(c.interval)); }
      s := OneMore(c, s, from, k - 1);
    }
  }

  lemma PacedWithin(c: Config, s: State, from: Time, width: nat)
    requires c.interval > 0 && Paced(c, s, from, width / c.interval + 1)
    ensures |Within(s.grants, from, width)| == width / c.interval + 1
  {
    var k := width / c.interval + 1;
    forall i | 0 <= i < k ensures from <= s.grants[i].at <= from + width {
      MulOrder(i, k - 1, c.interval);
      assert (k - 1) * c.interval <= width;
    }
    assert Within(s.grants, from, width) == Range(0, k);
  }

  /** Exactly which bounds a window of grants keeps in every run: those from its
      length over the interval, plus one, on. */
  lemma WindowBoundIff(c: Config, from: Time, width: nat, bound: int)
    requires c.interval > 0 && c.maxConcurrent > 0
    ensures (forall m, s :: Reachable(c, m, s) ==> |Within(s.grants, from, width)| <= bound)
            <==> bound >= width / c.interval + 1
  {
    forall m, s | Reachable(c, m, s) ensures |Within(s.grants, from, width)| <= width / c.interval + 1 {
      var ss, ls :| IsRun(c, ss, ls) && ChecksTogether(ss, m) && ss[|ls|] == s;
      WindowBound(c, ss, ls, |ls|, from, width);
    }
    var s := PacedRun(c, from, width / c.interval + 1);
    PacedWithin(c, s, from, width);
  }

  // ----- every slot can be taken -----

  /** k of the requests that were counted hold slots; the others up to m wait for one. */
  ghost predicate Slotted(s: State, m: nat, k: nat) {
    && s.occupied == k && Count(s.reqs, IsLoaded) == 0
    && (forall i: nat :: k <= i < m ==> At(s, Direct(i), Queued))
  }

  /** Counting one more of a crowd leaves it queued. */
  lemma {:induction false} QueueMany(c: Config, m: nat, j: nat) returns (s: State)
    requires j <= m
    ensures Reachable(c, m, s) && Crowded(s, j, m - j)
    ensures forall i: nat :: i < j ==> At(s, Direct(i), Queued)
  {
    if j == 0 {
      s := LoadMany(c, m, 0, m);
    } else {
      s := QueueMany(c, m, j - 1);
      s := QueueOne(c, m, s, j - 1, m - j + 1);
    }
  }

  lemma QueueOne(c: Config, m: nat, s: State, counted: nat, loaded: nat) returns (t: State)
    requires Reachable(c, m, s) && Crowded(s, counted, loaded) && 0 < loaded <= m
    requires forall i: nat :: i < counted ==> At(s, Direct(i), Queued)
    ensures Reachable(c, m, t) && Crowded(t, counted + 1, loaded - 1)
    ensures forall i: nat :: i < counted + 1 ==> At(t, Direct(i), Queued)
  {
    var l := Enqueue(Direct(counted));
    LoadedAfter(c, s, l);
    ReachStep(c, m, s, l);
    t := Step(c, s, l);
  }

  lemma {:induction false} SlotMany(c: Config, m: nat, k: nat) returns (s: State)
    requires k <= m && k <= c.maxConcurrent
    ensures Reachable(c, m, s) && Slotted(s, m, k)
  {
    if k == 0 {
      s := QueueMany(c, m, m);
    } else {
      var before := SlotMany(c, m, k - 1);
      var l := Acquire(Direct(k - 1));
      LoadedAtMost(c, before, l);
      ReachStep(c, m, before, l);
      s := Step(c, before, l);
    }
  }

  /** Exactly which bounds the slots taken keep in every run: those from the limit on. */
  lemma SlotsIff(c: Config, bound: int)
    ensures (forall m, s :: Reachable(c, m, s) ==> s.occupied <= bound) <==> bound >= c.maxConcurrent
  {
    forall m, s | Reachable(c, m, s) ensures s.occupied <= c.maxConcurrent {
      var ss, ls :| IsRun(c, ss, ls) && ChecksTogether(ss, m) && ss[|ls|] == s;
      RunConserved(c, ss, ls, |ls|);
    }
    var s := SlotMany(c, c.maxConcurrent, c.maxConcurrent);
  }
}
