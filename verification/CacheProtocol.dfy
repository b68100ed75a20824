/** cachedTransport.RoundTrip of app/apicache.go as an interleaved step system.
    Each step is one critical section of the source: the mutex is released
    between lookup, backoff check, entering a flight, recording its reply and
    counting a stale answer, so any other request may run in between.
    `replies` and `puts` are logs kept for stating properties; no step reads them. */
module CacheProtocol {
  import opened Common
  import opened ApiStore

  type ReqId = nat
  type FlightId = nat

  /** What the leader's function gets from the next transport. */
  datatype Upstream = Reply(resp: Response) | Failed(error: string)

  datatype ReplyEvent = ReplyEvent(flight: FlightId, key: Key, result: Upstream)

  /** A put call: which reply it stored, and when. */
  datatype PutEvent = PutEvent(reply: nat, at: Time)

  /** A singleflight call. The nat is the index of its reply in the log. */
  datatype Phase = Calling | Replied(reply: nat) | Recorded(reply: nat) | Finished(reply: nat)
  datatype Flight = Flight(key: Key, leader: ReqId, phase: Phase)

  datatype Answer = Got(resp: Response) | Error(error: string)

  /** The branch of RoundTrip an answer came from. */
  datatype Via =
    | FreshHit
    | BackoffStale
    | BackoffBlock
    | FlightResult(flight: FlightId)
    | FlightStale(flight: FlightId)

  datatype Control =
    | Checking                   // looked up without a fresh hit; backoff check is next
    | Entering                   // past the backoff check; flight.Do is next
    | InFlight(flight: FlightId) // inside flight.Do, as leader or waiter
    | StaleDue(via: Via)         // decided to serve the stale entry; countStale is next
    | Done(answer: Answer, via: Via)

  datatype Req = Req(key: Key, look: Lookup, pc: Control)

  datatype State = State(
    now: Time,
    store: Store,
    reqs: map<ReqId, Req>,
    flights: seq<Flight>,
    active: map<Key, FlightId>,
    replies: seq<ReplyEvent>,
    puts: seq<PutEvent>)

  datatype Label =
    | Tick(elapsed: nat)
    | LookUp(req: ReqId, key: Key)
    | Check(req: ReqId)
    | Enter(req: ReqId)
    | Answered(flight: FlightId, result: Upstream)
    | Record(flight: FlightId)
    | Finish(flight: FlightId)
    | Choose(req: ReqId)
    | CountStale(req: ReqId)

  function Init(now: Time): State {
    State(now, EMPTY, map[], [], map[], [], [])
  }

  predicate Enabled(s: State, l: Label) {
    match l
    case Tick(_) => true
    case LookUp(r, _) => r !in s.reqs
    case Check(r) => r in s.reqs && s.reqs[r].pc.Checking?
    case Enter(r) => r in s.reqs && s.reqs[r].pc.Entering?
    case Answered(f, _) => f < |s.flights| && s.flights[f].phase.Calling?
    case Record(f) => f < |s.flights| && s.flights[f].phase.Replied? && s.flights[f].phase.reply < |s.replies|
    case Finish(f) => f < |s.flights| && s.flights[f].phase.Recorded?
    case Choose(r) =>
      r in s.reqs && s.reqs[r].pc.InFlight? && s.reqs[r].pc.flight < |s.flights|
      && s.flights[s.reqs[r].pc.flight].phase.Finished?
      && s.flights[s.reqs[r].pc.flight].phase.reply < |s.replies|
    case CountStale(r) => r in s.reqs && s.reqs[r].pc.StaleDue? && s.reqs[r].look.found.Some?
  }

  // ----- one function per critical section -----

  function DoLookUp(c: Config, s: State, r: ReqId, k: Key): State {
    var look := LookupIn(c, s.store, k, s.now);
    var pc := if look.hit && look.found.Some? then Done(Got(look.found.value.resp), FreshHit) else Checking;
    s.(store := AfterGet(c, s.store, k, s.now), reqs := s.reqs[r := Req(k, look, pc)])
  }

  function AfterCheck(s: State, q: Req): Control {
    if !Blocked(s.store, s.now) then Entering
    else if q.look.found.Some? then StaleDue(BackoffStale)
    else Done(Got(s.store.block.value.resp), BackoffBlock)
  }

  function DoCheck(s: State, r: ReqId): State
    requires r in s.reqs
  {
    s.(reqs := s.reqs[r := s.reqs[r].(pc := AfterCheck(s, s.reqs[r]))])
  }

  /** flight.Do: join the key's flight if there is one, else lead a new one. */
  function DoEnter(s: State, r: ReqId): State
    requires r in s.reqs
  {
    var q := s.reqs[r];
    if q.key in s.active then
      s.(reqs := s.reqs[r := q.(pc := InFlight(s.active[q.key]))])
    else
      s.(reqs := s.reqs[r := q.(pc := InFlight(|s.flights|))],
         flights := s.flights + [Flight(q.key, r, Calling)],
         active := s.active[q.key := |s.flights|])
  }

  function DoAnswered(s: State, f: FlightId, u: Upstream): State
    requires f < |s.flights|
  {
    s.(flights := s.flights[f := s.flights[f].(phase := Replied(|s.replies|))],
       replies := s.replies + [ReplyEvent(f, s.flights[f].key, u)])
  }

  predicate IsOk(u: Upstream) { u.Reply? && u.resp.status == OK }

  predicate IsBlock(u: Upstream) {
    u.Reply? && (u.resp.status == FORBIDDEN || u.resp.status == TOO_MANY_REQUESTS)
  }

  /** The leader's function after the body is read: put a 200, remember a block. */
  function DoRecord(c: Config, s: State, f: FlightId): State
    requires f < |s.flights| && s.flights[f].phase.Replied? && s.flights[f].phase.reply < |s.replies|
  {
    var i := s.flights[f].phase.reply;
    var u := s.replies[i].result;
    var t := s.(flights := s.flights[f := s.flights[f].(phase := Recorded(i))]);
    if IsOk(u) then
      t.(store := AfterPut(c, s.store, s.flights[f].key, u.resp, s.now), puts := s.puts + [PutEvent(i, s.now)])
    else if IsBlock(u) then t.(store := AfterBlock(s.store, u.resp, s.now))
    else t
  }

  /** The leader's function returns: the key leaves the group, waiters are released. */
  function DoFinish(s: State, f: FlightId): State
    requires f < |s.flights| && s.flights[f].phase.Recorded?
  {
    s.(flights := s.flights[f := s.flights[f].(phase := Finished(s.flights[f].phase.reply))],
       active := s.active - {s.flights[f].key})
  }

  function Chosen(q: Req, f: FlightId, u: Upstream): Control {
    if !IsOk(u) && q.look.found.Some? then StaleDue(FlightStale(f))
    else if u.Reply? then Done(Got(u.resp), FlightResult(f))
    else Done(Error(u.error), FlightResult(f))
  }

  function DoChoose(s: State, r: ReqId): State
    requires Enabled(s, Choose(r))
  {
    var q := s.reqs[r];
    var f := q.pc.flight;
    s.(reqs := s.reqs[r := q.(pc := Chosen(q, f, s.replies[s.flights[f].phase.reply].result))])
  }

  function DoCountStale(s: State, r: ReqId): State
    requires Enabled(s, CountStale(r))
  {
    var q := s.reqs[r];
    s.(store := s.store.(staleHits := s.store.staleHits + 1),
       reqs := s.reqs[r := q.(pc := Done(Got(q.look.found.value.resp), q.pc.via))])
  }

  function Step(c: Config, s: State, l: Label): State
    requires Enabled(s, l)
  {
    match l
    case Tick(d) => s.(now := s.now + d)
    case LookUp(r, k) => DoLookUp(c, s, r, k)
    case Check(r) => DoCheck(s, r)
    case Enter(r) => DoEnter(s, r)
    case Answered(f, u) => DoAnswered(s, f, u)
    case Record(f) => DoRecord(c, s, f)
    case Finish(f) => DoFinish(s, f)
    case Choose(r) => DoChoose(s, r)
    case CountStale(r) => DoCountStale(s, r)
  }

  /** A run: states joined by enabled steps, from the empty cache. */
  ghost predicate IsRun(c: Config, ss: seq<State>, ls: seq<Label>) {
    && |ss| == |ls| + 1
    && ss[0] == Init(ss[0].now)
    && forall i :: 0 <= i < |ls| ==> Enabled(ss[i], ls[i]) && ss[i + 1] == Step(c, ss[i], ls[i])
  }

  // ----- invariants -----

  /** At most one flight per key is unfinished, and `active` names it. */
  ghost predicate FlightsOk(s: State) {
    && (forall k :: k in s.active ==>
          && s.active[k] < |s.flights|
          && s.flights[s.active[k]].key == k && !s.flights[s.active[k]].phase.Finished?)
    && (forall f :: 0 <= f < |s.flights| && !s.flights[f].phase.Finished? ==>
          s.flights[f].key in s.active && s.active[s.flights[f].key] == f)
  }

  /** Every flight past its call points at its own reply; flights and replies agree on the key. */
  ghost predicate RepliesOk(s: State) {
    && (forall f :: 0 <= f < |s.flights| && !s.flights[f].phase.Calling? ==>
          s.flights[f].phase.reply < |s.replies| && s.replies[s.flights[f].phase.reply].flight == f)
    && (forall i :: 0 <= i < |s.replies| ==>
          s.replies[i].flight < |s.flights| && s.replies[i].key == s.flights[s.replies[i].flight].key
          && s.flights[s.replies[i].flight].phase != Calling && s.flights[s.replies[i].flight].phase.reply == i)
  }

  /** Each put stored a 200 that upstream had sent, not later than now. */
  ghost predicate PutsOk(s: State) {
    forall j :: 0 <= j < |s.puts| ==>
      s.puts[j].reply < |s.replies| && IsOk(s.replies[s.puts[j].reply].result) && s.puts[j].at <= s.now
  }

  function PutEntry(c: Config, s: State, j: nat): Entry
    requires j < |s.puts| && s.puts[j].reply < |s.replies| && s.replies[s.puts[j].reply].result.Reply?
  {
    var r := s.replies[s.puts[j].reply];
    Entry(r.key, r.result.resp, s.puts[j].at + c.ttl)
  }

  /** e is the entry some put call made, no later than `at`. */
  ghost predicate WasPut(c: Config, s: State, e: Entry, at: Time) {
    exists j: nat :: j < |s.puts| && PutIs(c, s, j, e) && s.puts[j].at <= at
  }

  ghost predicate PutIs(c: Config, s: State, j: nat, e: Entry)
    requires j < |s.puts|
  {
    s.puts[j].reply < |s.replies| && IsOk(s.replies[s.puts[j].reply].result) && PutEntry(c, s, j) == e
  }

  ghost predicate StoredWerePut(c: Config, s: State) {
    StoreOk(c, s.store) && forall e :: e in s.store.recency ==> WasPut(c, s, e, s.now)
  }

  /** The remembered block is a 403 or 429 that upstream sent, at most a backoff ago. */
  ghost predicate BlockOk(s: State) {
    s.store.block.Some? ==>
      && s.store.block.value.until <= s.now + BLOCK_BACKOFF
      && SentAsBlock(s, s.store.block.value.resp)
  }

  ghost predicate LookOk(c: Config, s: State, k: Key, look: Lookup) {
    && (look.hit ==> look.found.Some?)
    && look.at <= s.now
    && match look.found
       case None => true
       case Some(e) =>
         e.key == k && WasPut(c, s, e, look.at)
         && if look.hit then look.at < e.expires else e.expires <= look.at < e.expires + c.stale
  }

  /** f was a flight for q's key and ended with this reply. */
  ghost predicate Ended(s: State, q: Req, f: FlightId, u: Upstream) {
    && f < |s.flights| && s.flights[f].key == q.key && s.flights[f].phase.Finished?
    && s.flights[f].phase.reply < |s.replies| && s.replies[s.flights[f].phase.reply].result == u
  }

  ghost predicate SentAsBlock(s: State, r: Response) {
    exists i: nat :: i < |s.replies| && IsBlock(s.replies[i].result) && s.replies[i].result.resp == r
  }

  /** What each position in the source, and each answer, says about the past. */
  ghost predicate ControlOk(c: Config, s: State, q: Req) {
    match q.pc
    case Checking => !q.look.hit
    case Entering => !q.look.hit
    case InFlight(f) => !q.look.hit && f < |s.flights| && s.flights[f].key == q.key
    case StaleDue(via) => !q.look.hit && q.look.found.Some? && StaleVia(s, q, via)
    case Done(a, FreshHit) => q.look.hit && q.look.found.Some? && a == Got(q.look.found.value.resp)
    case Done(a, BackoffBlock) => !q.look.hit && q.look.found.None? && a.Got? && SentAsBlock(s, a.resp)
    case Done(a, FlightResult(f)) =>
      && !q.look.hit
      && (exists u :: Ended(s, q, f, u) && (q.look.found.Some? ==> IsOk(u))
            && a == if u.Reply? then Got(u.resp) else Error(u.error))
    case Done(a, via) => !q.look.hit && q.look.found.Some? && StaleVia(s, q, via) && a == Got(q.look.found.value.resp)
  }

  ghost predicate StaleVia(s: State, q: Req, via: Via) {
    via == BackoffStale || (via.FlightStale? && exists u :: Ended(s, q, via.flight, u) && !IsOk(u))
  }

  ghost predicate ReqsOk(c: Config, s: State) {
    forall r :: r in s.reqs ==> LookOk(c, s, s.reqs[r].key, s.reqs[r].look) && ControlOk(c, s, s.reqs[r])
  }

  ghost predicate Inv(c: Config, s: State) {
    && FlightsOk(s) && RepliesOk(s) && PutsOk(s) && StoredWerePut(c, s) && BlockOk(s) && ReqsOk(c, s)
  }

  // ----- logs only grow -----

  /** t is a later state: its logs extend s's, and finished flights stay as they are. */
  ghost predicate Later(s: State, t: State) {
    && s.now <= t.now
    && s.replies <= t.replies && s.puts <= t.puts
    && |s.flights| <= |t.flights|
    && (forall f :: 0 <= f < |s.flights| ==>
          && t.flights[f].key == s.flights[f].key && t.flights[f].leader == s.flights[f].leader
          && (s.flights[f].phase.Finished? ==> t.flights[f].phase == s.flights[f].phase))
  }

  lemma StepIsLater(c: Config, s: State, l: Label)
    requires Enabled(s, l)
    ensures Later(s, Step(c, s, l))
  {}

  lemma WasPutLasts(c: Config, s: State, t: State, e: Entry, at: Time, later: Time)
    requires Later(s, t) && WasPut(c, s, e, at) && at <= later
    ensures WasPut(c, t, e, later)
  {
    var j: nat :| j < |s.puts| && PutIs(c, s, j, e) && s.puts[j].at <= at;
    assert s.puts[j] == t.puts[j] && s.replies[s.puts[j].reply] == t.replies[s.puts[j].reply];
    assert PutIs(c, t, j, e);
  }

  lemma EndedLasts(s: State, t: State, q: Req, f: FlightId, u: Upstream)
    requires Later(s, t) && Ended(s, q, f, u)
    ensures Ended(t, q, f, u)
  {
    assert t.replies[s.flights[f].phase.reply] == s.replies[s.flights[f].phase.reply];
  }

  lemma SentAsBlockLasts(s: State, t: State, r: Response)
    requires Later(s, t) && SentAsBlock(s, r)
    ensures SentAsBlock(t, r)
  {
    var i: nat :| i < |s.replies| && IsBlock(s.replies[i].result) && s.replies[i].result.resp == r;
    assert t.replies[i] == s.replies[i];
  }

  lemma ReqLasts(c: Config, s: State, t: State, q: Req)
    requires Later(s, t) && LookOk(c, s, q.key, q.look) && ControlOk(c, s, q)
    ensures LookOk(c, t, q.key, q.look) && ControlOk(c, t, q)
  {
    if q.look.found.Some? { WasPutLasts(c, s, t, q.look.found.value, q.look.at, q.look.at); }
    match q.pc {
      case Done(a, FlightResult(f)) =>
        var u :| Ended(s, q, f, u) && (q.look.found.Some? ==> IsOk(u))
              && a == if u.Reply? then Got(u.resp) else Error(u.error);
        EndedLasts(s, t, q, f, u);
      case Done(a, BackoffBlock) => SentAsBlockLasts(s, t, a.resp);
      case Done(a, FlightStale(f)) => StaleViaLasts(s, t, q, FlightStale(f));
      case StaleDue(via) => StaleViaLasts(s, t, q, via);
      case _ =>
    }
  }

  lemma StaleViaLasts(s: State, t: State, q: Req, via: Via)
    requires Later(s, t) && StaleVia(s, q, via)
    ensures StaleVia(t, q, via)
  {
    if via.FlightStale? {
      var u :| Ended(s, q, via.flight, u) && !IsOk(u);
      EndedLasts(s, t, q, via.flight, u);
    }
  }

  // ----- every step keeps the invariant -----

  lemma EnterFlights(s: State, r: ReqId)
    requires Enabled(s, Enter(r)) && FlightsOk(s)
    ensures FlightsOk(DoEnter(s, r))
  {
    var t := DoEnter(s, r);
    forall f | 0 <= f < |t.flights| && !t.flights[f].phase.Finished?
      ensures t.flights[f].key in t.active && t.active[t.flights[f].key] == f
    {
      if f < |s.flights| { assert t.flights[f] == s.flights[f]; }
    }
  }

  lemma FinishFlights(s: State, f: FlightId)
    requires Enabled(s, Finish(f)) && FlightsOk(s)
    ensures FlightsOk(DoFinish(s, f))
  {
    var t := DoFinish(s, f);
    forall g | 0 <= g < |t.flights| && !t.flights[g].phase.Finished?
      ensures t.flights[g].key in t.active && t.active[t.flights[g].key] == g
    {
      assert t.flights[g] == s.flights[g];
    }
  }

  lemma FlightsStep(c: Config, s: State, l: Label)
    requires Enabled(s, l) && FlightsOk(s)
    ensures FlightsOk(Step(c, s, l))
  {
    match l {
      case Enter(r) => EnterFlights(s, r);
      case Finish(f) => FinishFlights(s, f);
      case _ =>
    }
  }

  /** A flight changing phase without losing its reply keeps the log in order. */
  lemma PhaseKeepsReplies(s: State, t: State, f: FlightId)
    requires RepliesOk(s) && f < |s.flights| && t.replies == s.replies && |t.flights| == |s.flights|
    requires forall g :: 0 <= g < |s.flights| && g != f ==> t.flights[g] == s.flights[g]
    requires t.flights[f].key == s.flights[f].key && !s.flights[f].phase.Calling? && !t.flights[f].phase.Calling?
    requires t.flights[f].phase.reply == s.flights[f].phase.reply
    ensures RepliesOk(t)
  {}

  lemma RepliesStep(c: Config, s: State, l: Label)
    requires Enabled(s, l) && RepliesOk(s)
    ensures RepliesOk(Step(c, s, l))
  {
    var t := Step(c, s, l);
    match l {
      case Enter(_) => forall f | 0 <= f < |s.flights| ensures t.flights[f] == s.flights[f] {}
      case Answered(f, u) => AnsweredReplies(s, f, u);
      case Record(f) => PhaseKeepsReplies(s, t, f);
      case Finish(f) => PhaseKeepsReplies(s, t, f);
      case _ =>
    }
  }

  lemma AnsweredReplies(s: State, f: FlightId, u: Upstream)
    requires RepliesOk(s) && f < |s.flights| && s.flights[f].phase.Calling?
    ensures RepliesOk(DoAnswered(s, f, u))
  {}

  lemma PutsStep(c: Config, s: State, l: Label)
    requires Enabled(s, l) && PutsOk(s)
    ensures PutsOk(Step(c, s, l))
  {}

  lemma StoredStep(c: Config, s: State, l: Label)
    requires Enabled(s, l) && FlightsOk(s) && RepliesOk(s) && PutsOk(s) && StoredWerePut(c, s) && BlockOk(s)
    ensures StoredWerePut(c, Step(c, s, l))
  {
    var t := Step(c, s, l);
    StepIsLater(c, s, l);
    assert StoreOk(c, t.store)
        && forall e :: e in t.store.recency && e !in s.store.recency ==> WasPut(c, t, e, t.now) by {
      match l {
        case LookUp(_, k) =>
          GetKeepsStoreOk(c, s.store, k, s.now);
          GetMembers(c, s.store, k, s.now);
        case Record(f) =>
          var u := s.replies[s.flights[f].phase.reply].result;
          if IsOk(u) {
            PutKeepsStoreOk(c, s.store, s.flights[f].key, u.resp, s.now);
            PutMembers(c, s.store, s.flights[f].key, u.resp, s.now);
            assert PutIs(c, t, |s.puts|, Entry(s.flights[f].key, u.resp, s.now + c.ttl));
          }
        case _ =>
      }
    }
    forall e | e in t.store.recency ensures WasPut(c, t, e, t.now) {
      if e in s.store.recency { WasPutLasts(c, s, t, e, s.now, t.now); }
    }
  }

  lemma BlockStep(c: Config, s: State, l: Label)
    requires Enabled(s, l) && BlockOk(s)
    ensures BlockOk(Step(c, s, l))
  {
    var t := Step(c, s, l);
    StepIsLater(c, s, l);
    if s.store.block.Some? { SentAsBlockLasts(s, t, s.store.block.value.resp); }
    if l.Record? {
      var i := s.flights[l.flight].phase.reply;
      assert t.replies[i] == s.replies[i];
    }
  }

  lemma LookUpStep(c: Config, s: State, r: ReqId, k: Key)
    requires Enabled(s, LookUp(r, k)) && StoredWerePut(c, s)
    ensures var t := DoLookUp(c, s, r, k);
            LookOk(c, t, t.reqs[r].key, t.reqs[r].look) && ControlOk(c, t, t.reqs[r])
  {
    var t := DoLookUp(c, s, r, k);
    StepIsLater(c, s, LookUp(r, k));
    FindSpec(s.store.recency, k);
    if t.reqs[r].look.found.Some? { WasPutLasts(c, s, t, t.reqs[r].look.found.value, s.now, s.now); }
  }

  /** The request a step moves ends up in a position that fits the new state. */
  lemma MoverStep(c: Config, s: State, l: Label, r: ReqId)
    requires Enabled(s, l) && Inv(c, s)
    requires (l.LookUp? || l.Check? || l.Enter? || l.Choose? || l.CountStale?) && l.req == r
    ensures r in Step(c, s, l).reqs
    ensures var t := Step(c, s, l);
            LookOk(c, t, t.reqs[r].key, t.reqs[r].look) && ControlOk(c, t, t.reqs[r])
  {
    var t := Step(c, s, l);
    StepIsLater(c, s, l);
    match l {
      case LookUp(_, k) => LookUpStep(c, s, r, k);
      case Choose(_) =>
        var q := s.reqs[r];
        ReqLasts(c, s, t, q);
        var f := q.pc.flight;
        assert Ended(t, t.reqs[r], f, s.replies[s.flights[f].phase.reply].result);
      case CountStale(_) =>
        ReqLasts(c, s, t, s.reqs[r]);
        var q, p := s.reqs[r], t.reqs[r];
        if q.pc.via.FlightStale? {
          var u :| Ended(t, q, q.pc.via.flight, u) && !IsOk(u);
          assert Ended(t, p, q.pc.via.flight, u);
        }
      case Check(_) => ReqLasts(c, s, t, s.reqs[r]);
      case Enter(_) => ReqLasts(c, s, t, s.reqs[r]);
      case _ =>
    }
  }

  lemma ReqsStep(c: Config, s: State, l: Label)
    requires Enabled(s, l) && Inv(c, s)
    ensures ReqsOk(c, Step(c, s, l))
  {
    var t := Step(c, s, l);
    StepIsLater(c, s, l);
    forall r | r in t.reqs
      ensures LookOk(c, t, t.reqs[r].key, t.reqs[r].look) && ControlOk(c, t, t.reqs[r])
    {
      if (l.LookUp? || l.Check? || l.Enter? || l.Choose? || l.CountStale?) && l.req == r {
        MoverStep(c, s, l, r);
      } else {
        assert t.reqs[r] == s.reqs[r];
        ReqLasts(c, s, t, s.reqs[r]);
      }
    }
  }

  lemma InvStep(c: Config, s: State, l: Label)
    requires Enabled(s, l) && Inv(c, s)
    ensures Inv(c, Step(c, s, l))
  {
    FlightsStep(c, s, l);
    RepliesStep(c, s, l);
    PutsStep(c, s, l);
    StoredStep(c, s, l);
    BlockStep(c, s, l);
    ReqsStep(c, s, l);
  }

  lemma {:induction false} RunInv(c: Config, ss: seq<State>, ls: seq<Label>, n: nat)
    requires IsRun(c, ss, ls) && n < |ss|
    ensures Inv(c, ss[n])
  {
    if n > 0 {
      RunInv(c, ss, ls, n - 1);
      InvStep(c, ss[n - 1], ls[n - 1]);
    }
  }
}
