/** What holds over every interleaved run of the API cache. */
module CacheRuns {
  import opened Common
  import opened ApiStore
  import opened CacheProtocol

  // ----- coherence and availability -----

  /** Upstream answered k with u at some time before. */
  ghost predicate SentFor(s: State, k: Key, u: Upstream) {
    exists i: nat :: i < |s.replies| && s.replies[i].key == k && s.replies[i].result == u
  }

  /** Put number j stored this very response under k. */
  ghost predicate PutOf(s: State, j: nat, k: Key, r: Response) {
    j < |s.puts| && s.puts[j].reply < |s.replies|
    && s.replies[s.puts[j].reply].key == k && s.replies[s.puts[j].reply].result == Reply(r)
  }

  function AsAnswer(u: Upstream): Answer {
    if u.Reply? then Got(u.resp) else Error(u.error)
  }

  predicate IsOkAnswer(a: Answer) { a.Got? && a.resp.status == 200 }

  lemma FoundWasPut(c: Config, s: State, q: Req)
    requires Inv(c, s) && LookOk(c, s, q.key, q.look) && q.look.found.Some?
    ensures var e := q.look.found.value;
            && e.resp.status == OK
            && SentFor(s, q.key, Reply(e.resp))
            && exists j: nat :: PutOf(s, j, q.key, e.resp)
                                && e.expires == s.puts[j].at + c.ttl && s.puts[j].at <= q.look.at
  {
    var e := q.look.found.value;
    var j: nat :| j < |s.puts| && PutIs(c, s, j, e) && s.puts[j].at <= q.look.at;
    assert PutOf(s, j, q.key, e.resp);
  }

  lemma EndedWasSent(s: State, q: Req, f: FlightId, u: Upstream)
    requires RepliesOk(s) && Ended(s, q, f, u)
    ensures SentFor(s, q.key, u)
  {
    assert s.replies[s.flights[f].phase.reply].key == q.key;
  }

  // ----- the block a backoff answers with -----

  /** The step records a 403 or 429, and this is the response. */
  predicate RecordsBlock(s: State, l: Label, r: Response) {
    && l.Record? && Enabled(s, l) && s.replies[s.flights[l.flight].phase.reply].result == Reply(r)
    && (r.status == 403 || r.status == 429)
  }

  ghost predicate NoBlockSince(ss: seq<State>, ls: seq<Label>, j: nat, n: nat)
    requires n <= |ls| <= |ss|
  {
    forall i, r :: j < i < n ==> !RecordsBlock(ss[i], ls[i], r)
  }

  /** Step j recorded b, a minute before b ends, and no block was recorded since. */
  ghost predicate LastBlock(ss: seq<State>, ls: seq<Label>, n: nat, j: nat, b: Block)
    requires n <= |ls| <= |ss|
  {
    && j < n && RecordsBlock(ss[j], ls[j], b.resp)
    && b.until == ss[j].now + 60_000_000_000 && NoBlockSince(ss, ls, j, n)
  }

  /** The block remembered is the last one recorded; if there is none, none was. */
  lemma {:induction false} BlockIsLast(c: Config, ss: seq<State>, ls: seq<Label>, n: nat)
    requires IsRun(c, ss, ls) && n < |ss|
    ensures match ss[n].store.block
            case None => forall i, r :: 0 <= i < n ==> !RecordsBlock(ss[i], ls[i], r)
            case Some(b) => exists j: nat :: LastBlock(ss, ls, n, j, b)
  {
    if n > 0 {
      BlockIsLast(c, ss, ls, n - 1);
      BlockMoves(c, ss[n - 1], ls[n - 1]);
      var s, l, t := ss[n - 1], ls[n - 1], ss[n];
      if r :| RecordsBlock(s, l, r) {
        assert LastBlock(ss, ls, n, n - 1, t.store.block.value);
      } else if t.store.block.Some? {
        var j: nat :| LastBlock(ss, ls, n - 1, j, t.store.block.value);
        assert LastBlock(ss, ls, n, j, t.store.block.value);
      }
    }
  }

  /** Only recording a block moves it, and replaces it whole. */
  lemma BlockMoves(c: Config, s: State, l: Label)
    requires Enabled(s, l)
    ensures forall r :: RecordsBlock(s, l, r) ==> Step(c, s, l).store.block == Some(Block(s.now + BLOCK_BACKOFF, r))
    ensures (forall r :: !RecordsBlock(s, l, r)) ==> Step(c, s, l).store.block == s.store.block
  {
    if l.Record? && IsBlock(s.replies[s.flights[l.flight].phase.reply].result) {
      assert RecordsBlock(s, l, s.replies[s.flights[l.flight].phase.reply].result.resp);
    }
  }

  /** r's check was step i; it fell inside the backoff of the block then remembered. */
  ghost predicate CheckedInside(ss: seq<State>, ls: seq<Label>, n: nat, i: nat, r: ReqId, resp: Response)
    requires n <= |ls| <= |ss|
  {
    i < n && ls[i] == Check(r) && Blocked(ss[i].store, ss[i].now) && ss[i].store.block.value.resp == resp
  }

  lemma {:induction false} BackoffAnswer(c: Config, ss: seq<State>, ls: seq<Label>, n: nat, r: ReqId)
    requires IsRun(c, ss, ls) && n < |ss| && r in ss[n].reqs
    requires ss[n].reqs[r].pc.Done? && ss[n].reqs[r].pc.via == BackoffBlock && ss[n].reqs[r].pc.answer.Got?
    ensures exists i: nat :: CheckedInside(ss, ls, n, i, r, ss[n].reqs[r].pc.answer.resp)
  {
    if n > 0 {
      var resp := ss[n].reqs[r].pc.answer.resp;
      BackoffOrigin(c, ss, ls, n - 1, r);
      if ls[n - 1] == Check(r) {
        assert CheckedInside(ss, ls, n, n - 1, r, resp);
      } else {
        BackoffAnswer(c, ss, ls, n - 1, r);
        var i: nat :| CheckedInside(ss, ls, n - 1, i, r, resp);
        assert CheckedInside(ss, ls, n, i, r, resp);
      }
    }
  }

  /** Only a check gives such an answer. */
  lemma BackoffOrigin(c: Config, ss: seq<State>, ls: seq<Label>, n: nat, r: ReqId)
    requires IsRun(c, ss, ls) && n < |ls| && r in ss[n + 1].reqs
    requires ss[n + 1].reqs[r].pc.Done? && ss[n + 1].reqs[r].pc.via == BackoffBlock
    ensures var s, q := ss[n], ss[n + 1].reqs[r];
            if ls[n] == Check(r) then Blocked(s.store, s.now) && q.pc.answer == Got(s.store.block.value.resp)
            else r in s.reqs && s.reqs[r] == q
  {
    var s := ss[n];
    RunInv(c, ss, ls, n);
    assert ss[n + 1] == Step(c, s, ls[n]);
    if r in s.reqs { assert ControlOk(c, s, s.reqs[r]); }
  }

  /** The response with which step i of the run answers r's check: the last block
      recorded by then, at step j, less than a minute before. */
  ghost predicate BlockServed(ss: seq<State>, ls: seq<Label>, n: nat, i: nat, j: nat, r: ReqId, resp: Response)
    requires n <= |ls| <= |ss|
  {
    && CheckedInside(ss, ls, n, i, r, resp)
    && LastBlock(ss, ls, i, j, ss[i].store.block.value)
    && ss[j].now <= ss[i].now < ss[j].now + 60_000_000_000
  }

  lemma {:induction false} ClockForward(c: Config, ss: seq<State>, ls: seq<Label>, m: nat, n: nat)
    requires IsRun(c, ss, ls) && m <= n < |ss|
    ensures ss[m].now <= ss[n].now
    decreases n
  {
    if m < n {
      ClockForward(c, ss, ls, m, n - 1);
      StepIsLater(c, ss[n - 1], ls[n - 1]);
    }
  }

  /** A 403 or 429 was recorded less than a minute before state i. */
  ghost predicate RecentlyBlocked(ss: seq<State>, ls: seq<Label>, i: nat)
    requires i <= |ls| < |ss|
  {
    exists j: nat, r :: j < i && RecordsBlock(ss[j], ls[j], r) && ss[i].now < ss[j].now + 60_000_000_000
  }

  lemma BlockedIff(c: Config, ss: seq<State>, ls: seq<Label>, i: nat)
    requires IsRun(c, ss, ls) && i <= |ls|
    ensures Blocked(ss[i].store, ss[i].now) <==> RecentlyBlocked(ss, ls, i)
  {
    BlockIsLast(c, ss, ls, i);
    match ss[i].store.block {
      case None =>
      case Some(b) =>
        var last: nat :| LastBlock(ss, ls, i, last, b);
        if RecentlyBlocked(ss, ls, i) {
          var j: nat, r :| j < i && RecordsBlock(ss[j], ls[j], r) && ss[i].now < ss[j].now + 60_000_000_000;
          ClockForward(c, ss, ls, j, last);
        }
    }
  }

  /** What a check decides: a request goes on to a flight exactly if no 403 or 429 was
      recorded in the last minute; otherwise it is served its stale entry if it has
      one, and the last block if not. */
  lemma CheckPassesIff(c: Config, ss: seq<State>, ls: seq<Label>, i: nat, r: ReqId)
    requires IsRun(c, ss, ls) && i < |ls| && ls[i] == Check(r)
    ensures var p, q := ss[i].reqs[r], ss[i + 1].reqs[r];
            && q == p.(pc := q.pc)
            && (q.pc == Entering <==> !RecentlyBlocked(ss, ls, i))
            && (RecentlyBlocked(ss, ls, i) && p.look.found.Some? ==> q.pc == StaleDue(BackoffStale))
            && (RecentlyBlocked(ss, ls, i) && p.look.found.None? ==>
                  exists j: nat, b :: LastBlock(ss, ls, i, j, b) && q.pc == Done(Got(b.resp), BackoffBlock))
  {
    BlockedIff(c, ss, ls, i);
    BlockIsLast(c, ss, ls, i);
  }

  lemma BackoffServed(c: Config, ss: seq<State>, ls: seq<Label>, n: nat, r: ReqId)
    requires IsRun(c, ss, ls) && n < |ss| && r in ss[n].reqs
    requires ss[n].reqs[r].pc.Done? && ss[n].reqs[r].pc.via == BackoffBlock
    ensures ss[n].reqs[r].pc.answer.Got?
    ensures exists i: nat, j: nat :: BlockServed(ss, ls, n, i, j, r, ss[n].reqs[r].pc.answer.resp)
  {
    RunInv(c, ss, ls, n);
    assert ControlOk(c, ss[n], ss[n].reqs[r]);
    BackoffAnswer(c, ss, ls, n, r);
    var resp := ss[n].reqs[r].pc.answer.resp;
    var i: nat :| CheckedInside(ss, ls, n, i, r, resp);
    BlockIsLast(c, ss, ls, i);
    var j: nat :| LastBlock(ss, ls, i, j, ss[i].store.block.value);
    ClockForward(c, ss, ls, j, i);
    assert BlockServed(ss, ls, n, i, j, r, resp);
  }

  /** Every 200 handed out for a key is a 200 upstream sent for that key. One
      from the store was put no later than it was looked up, and looked up inside
      the window its put opened: before ttl if served fresh, between ttl and
      ttl + stale if served stale. Anything else is the result of a flight for the
      key, or the last block recorded when it was checked, less than a minute old. */
  lemma Coherence(c: Config, ss: seq<State>, ls: seq<Label>, n: nat, r: ReqId)
    requires IsRun(c, ss, ls) && n < |ss| && r in ss[n].reqs && ss[n].reqs[r].pc.Done?
    ensures var s, q := ss[n], ss[n].reqs[r];
            IsOkAnswer(q.pc.answer) ==> SentFor(s, q.key, Reply(q.pc.answer.resp))
    ensures var s, q := ss[n], ss[n].reqs[r];
            q.pc.via == FreshHit ==>
              IsOkAnswer(q.pc.answer)
              && exists j: nat :: PutOf(s, j, q.key, q.pc.answer.resp)
                                  && s.puts[j].at <= q.look.at < s.puts[j].at + c.ttl
    ensures var s, q := ss[n], ss[n].reqs[r];
            q.pc.via == BackoffStale || q.pc.via.FlightStale? ==>
              IsOkAnswer(q.pc.answer)
              && exists j: nat :: PutOf(s, j, q.key, q.pc.answer.resp)
                                  && s.puts[j].at <= q.look.at
                                  && s.puts[j].at + c.ttl <= q.look.at < s.puts[j].at + c.ttl + c.stale
    ensures var s, q := ss[n], ss[n].reqs[r];
            !IsOkAnswer(q.pc.answer) ==>
              || (q.pc.via == BackoffBlock && q.pc.answer.Got?
                  && exists i: nat, j: nat :: BlockServed(ss, ls, n, i, j, r, q.pc.answer.resp))
              || (q.pc.via.FlightResult? && exists u :: Ended(s, q, q.pc.via.flight, u) && q.pc.answer == AsAnswer(u))
  {
    RunInv(c, ss, ls, n);
    var s, q := ss[n], ss[n].reqs[r];
    assert LookOk(c, s, q.key, q.look) && ControlOk(c, s, q);
    if q.look.found.Some? { FoundWasPut(c, s, q); }
    if q.pc.via.FlightResult? {
      var u :| Ended(s, q, q.pc.via.flight, u) && q.pc.answer == AsAnswer(u);
      EndedWasSent(s, q, q.pc.via.flight, u);
    }
    if q.pc.via == BackoffBlock {
      BackoffServed(c, ss, ls, n, r);
      assert q.pc.answer.resp.status != OK;
    }
  }

  /** A request whose lookup found an entry, fresh or stale, never gets an error,
      a block or any other non-200, whatever upstream does. */
  lemma Availability(c: Config, ss: seq<State>, ls: seq<Label>, n: nat, r: ReqId)
    requires IsRun(c, ss, ls) && n < |ss| && r in ss[n].reqs && ss[n].reqs[r].pc.Done?
    requires ss[n].reqs[r].look.found.Some?
    ensures IsOkAnswer(ss[n].reqs[r].pc.answer)
  {
    Coherence(c, ss, ls, n, r);
    RunInv(c, ss, ls, n);
    assert ControlOk(c, ss[n], ss[n].reqs[r]);
  }

  /** In every reachable state the store holds distinct keys within the byte bound. */
  lemma StoreBounded(c: Config, ss: seq<State>, ls: seq<Label>, n: nat)
    requires IsRun(c, ss, ls) && n < |ss|
    ensures DistinctKeys(ss[n].store.recency)
    ensures Held(ss[n].store.recency) <= if c.maxBytes < 0 then 0 else c.maxBytes
  {
    RunInv(c, ss, ls, n);
  }

  // ----- coalescing -----

  /** Two calls for one key are never in flight together. */
  lemma OneFlightPerKey(c: Config, ss: seq<State>, ls: seq<Label>, n: nat, f: FlightId, g: FlightId)
    requires IsRun(c, ss, ls) && n < |ss| && f < |ss[n].flights| && g < |ss[n].flights|
    requires !ss[n].flights[f].phase.Finished? && !ss[n].flights[g].phase.Finished?
    requires ss[n].flights[f].key == ss[n].flights[g].key
    ensures f == g
  {
    RunInv(c, ss, ls, n);
    assert ss[n].active[ss[n].flights[f].key] == f;
  }

  function FlightOfVia(via: Via): Option<FlightId> {
    if via.FlightResult? || via.FlightStale? then Some(via.flight) else None
  }

  function FlightOf(pc: Control): Option<FlightId> {
    match pc
    case InFlight(f) => Some(f)
    case StaleDue(via) => FlightOfVia(via)
    case Done(_, via) => FlightOfVia(via)
    case _ => None
  }

  predicate PastCheck(pc: Control) { pc.Entering? || FlightOf(pc).Some? }

  /** What never changes about a request once it has it: its key, its lookup,
      the flight it is in, and the outcome of its backoff check. */
  ghost predicate SameRequest(p: Req, q: Req) {
    && q.key == p.key && q.look == p.look
    && (FlightOf(p.pc).Some? ==> FlightOf(q.pc) == FlightOf(p.pc))
    && (!PastCheck(p.pc) && !p.pc.Checking? ==> !PastCheck(q.pc) && !q.pc.Checking?)
  }

  lemma StepKeepsRequest(c: Config, s: State, l: Label, r: ReqId)
    requires Enabled(s, l) && r in s.reqs
    ensures r in Step(c, s, l).reqs && SameRequest(s.reqs[r], Step(c, s, l).reqs[r])
  {}

  lemma NextKeepsRequest(c: Config, ss: seq<State>, ls: seq<Label>, n: nat, r: ReqId)
    requires IsRun(c, ss, ls) && n < |ls| && r in ss[n].reqs
    ensures r in ss[n + 1].reqs && SameRequest(ss[n].reqs[r], ss[n + 1].reqs[r])
  {
    StepKeepsRequest(c, ss[n], ls[n], r);
  }

  lemma {:induction false} RequestPersists(c: Config, ss: seq<State>, ls: seq<Label>, m: nat, n: nat, r: ReqId)
    requires IsRun(c, ss, ls) && m <= n < |ss| && r in ss[m].reqs
    ensures r in ss[n].reqs && SameRequest(ss[m].reqs[r], ss[n].reqs[r])
    decreases n
  {
    if m < n {
      RequestPersists(c, ss, ls, m, n - 1, r);
      NextKeepsRequest(c, ss, ls, n - 1, r);
    }
  }

  /** What a lookup finds in a reachable state, and where it takes the request: a
      fresh entry answers it at once; a stale one is kept for it, and one past its
      window is not; and all but the first go on to the backoff check. */
  lemma LookUpFinds(c: Config, ss: seq<State>, ls: seq<Label>, n: nat, r: ReqId, k: Key)
    requires IsRun(c, ss, ls) && n < |ls| && ls[n] == LookUp(r, k)
    ensures var s, t := ss[n], ss[n + 1];
            && (forall e :: e in s.store.recency && e.key == k ==>
                  t.reqs[r]
                  == if s.now < e.expires then Req(k, Lookup(s.now, Some(e), true), Done(Got(e.resp), FreshHit))
                     else if s.now < e.expires + c.stale then Req(k, Lookup(s.now, Some(e), false), Checking)
                     else Req(k, Lookup(s.now, None, false), Checking))
            && ((forall e :: e in s.store.recency ==> e.key != k) ==>
                  t.reqs[r] == Req(k, Lookup(s.now, None, false), Checking))
  {
    RunInv(c, ss, ls, n);
    FindSpec(ss[n].store.recency, k);
  }

  /** flight.Do: a request joins the unfinished flight for its key if there is one,
      and leads a new one exactly if there is none. */
  lemma EnterJoinsOrLeads(c: Config, ss: seq<State>, ls: seq<Label>, n: nat, r: ReqId)
    requires IsRun(c, ss, ls) && n < |ls| && ls[n] == Enter(r)
    ensures var s, t, k := ss[n], ss[n + 1], ss[n].reqs[r].key;
            && (forall f :: 0 <= f < |s.flights| && s.flights[f].key == k && !s.flights[f].phase.Finished? ==>
                  t.flights == s.flights && t.reqs[r].pc == InFlight(f))
            && ((forall f :: 0 <= f < |s.flights| && s.flights[f].key == k ==> s.flights[f].phase.Finished?) ==>
                  t.flights == s.flights + [Flight(k, r, Calling)] && t.reqs[r].pc == InFlight(|s.flights|))
  {
    RunInv(c, ss, ls, n);
  }

  /** What recording a flight's reply does to the store: a 200 that fits leads the
      order with its expiry; a 403 or 429 is remembered as a block for a minute; and
      anything else, an oversized 200 and an error included, changes nothing. */
  lemma RecordingStores(c: Config, ss: seq<State>, ls: seq<Label>, n: nat, f: FlightId)
    requires IsRun(c, ss, ls) && n < |ls| && ls[n] == Record(f)
    ensures var s, t := ss[n], ss[n + 1];
            var k, i := s.flights[f].key, s.flights[f].phase.reply;
            var u := s.replies[i].result;
            && s.replies[i].flight == f && s.replies[i].key == k
            && if u.Reply? && u.resp.status == 200 && |u.resp.body| <= c.maxBytes then
                 && t.store.recency != [] && t.store.recency[0] == Entry(k, u.resp, s.now + c.ttl)
                 && t.store == s.store.(recency := t.store.recency)
               else if u.Reply? && (u.resp.status == 403 || u.resp.status == 429) then
                 t.store == s.store.(block := Some(Block(s.now + 60_000_000_000, u.resp)))
               else
                 t.store == s.store
  {
    RunInv(c, ss, ls, n);
  }

  /** So from then until the time to live is over, a lookup for that key is a fresh hit on it. */
  lemma RecordedIsServed(c: Config, ss: seq<State>, ls: seq<Label>, n: nat, f: FlightId, at: Time)
    requires IsRun(c, ss, ls) && n < |ls| && ls[n] == Record(f)
    ensures var s, t := ss[n], ss[n + 1];
            var k, u := s.flights[f].key, s.replies[s.flights[f].phase.reply].result;
            && (u.Reply? && u.resp.status == 200 && |u.resp.body| <= c.maxBytes && at < s.now + c.ttl ==>
                  LookupIn(c, t.store, k, at) == Lookup(at, Some(Entry(k, u.resp, s.now + c.ttl)), true))
            && (u.Reply? && u.resp.status == 200 && |u.resp.body| > c.maxBytes ==>
                  LookupIn(c, t.store, k, at) == LookupIn(c, s.store, k, at))
  {
    RecordingStores(c, ss, ls, n, f);
  }

  /** A request inside a flight, leader or waiter, leaves with that flight's own
      result, replaced by its stale entry only when the result is not a 200. */
  lemma WaiterGetsItsFlight(c: Config, ss: seq<State>, ls: seq<Label>, m: nat, n: nat, r: ReqId)
    requires IsRun(c, ss, ls) && m <= n < |ss| && r in ss[m].reqs
    requires ss[m].reqs[r].pc.InFlight? && r in ss[n].reqs && ss[n].reqs[r].pc.Done?
    ensures var q, f := ss[n].reqs[r], ss[m].reqs[r].pc.flight;
            exists u :: Ended(ss[n], q, f, u)
              && q.pc.answer == if u.Reply? && u.resp.status == 200 then Got(u.resp)
                                else if q.look.found.Some? then Got(q.look.found.value.resp)
                                else if u.Reply? then Got(u.resp)
                                else Error(u.error)
  {
    RequestPersists(c, ss, ls, m, n, r);
    RunInv(c, ss, ls, n);
    assert ControlOk(c, ss[n], ss[n].reqs[r]);
  }

  // ----- counters -----

  predicate WasHit(q: Req) { q.look.hit }
  predicate WasMiss(q: Req) { !q.look.hit }
  predicate WasStale(q: Req) { q.pc.Done? && (q.pc.via == BackoffStale || q.pc.via.FlightStale?) }

  /** Each flight is led by its own request, which missed. */
  ghost predicate LeadersOk(s: State) {
    forall f :: 0 <= f < |s.flights| ==>
      s.flights[f].leader in s.reqs && FlightOf(s.reqs[s.flights[f].leader].pc) == Some(f)
      && WasMiss(s.reqs[s.flights[f].leader])
  }

  ghost predicate CountersOk(s: State) {
    && s.store.hits == Count(s.reqs, WasHit)
    && s.store.misses == Count(s.reqs, WasMiss)
    && s.store.staleHits == Count(s.reqs, WasStale)
  }

  lemma UnfinishedMissed(c: Config, s: State, r: ReqId)
    requires ReqsOk(c, s) && r in s.reqs && !s.reqs[r].pc.Done?
    ensures WasMiss(s.reqs[r])
  {
    assert ControlOk(c, s, s.reqs[r]);
  }

  lemma LeadersStep(c: Config, s: State, l: Label)
    requires Enabled(s, l) && ReqsOk(c, s) && LeadersOk(s)
    ensures LeadersOk(Step(c, s, l))
  {
    var t := Step(c, s, l);
    forall f | 0 <= f < |t.flights|
      ensures t.flights[f].leader in t.reqs && FlightOf(t.reqs[t.flights[f].leader].pc) == Some(f)
              && WasMiss(t.reqs[t.flights[f].leader])
    {
      if f < |s.flights| {
        assert t.flights[f].leader == s.flights[f].leader;
        StepKeepsRequest(c, s, l, s.flights[f].leader);
      } else {
        UnfinishedMissed(c, s, l.req);
      }
    }
  }

  /** What a step does to the counters, and to the one request it moves. */
  lemma MoverCounts(c: Config, s: State, l: Label)
    requires Enabled(s, l) && ReqsOk(c, s)
    requires l.LookUp? || l.Check? || l.Enter? || l.Choose? || l.CountStale?
    ensures var t := Step(c, s, l);
            && l.req in t.reqs && t.reqs == s.reqs[l.req := t.reqs[l.req]]
            && var q := t.reqs[l.req];
            && (l.LookUp? <==> l.req !in s.reqs)
            && (l.req in s.reqs ==> WasMiss(s.reqs[l.req]) && WasMiss(q) && !WasStale(s.reqs[l.req]))
            && t.store.hits == s.store.hits + (if l.LookUp? && WasHit(q) then 1 else 0)
            && t.store.misses == s.store.misses + (if l.LookUp? && WasMiss(q) then 1 else 0)
            && t.store.staleHits == s.store.staleHits + (if WasStale(q) then 1 else 0)
  {
    if l.req in s.reqs {
      UnfinishedMissed(c, s, l.req);
      assert ControlOk(c, s, s.reqs[l.req]);
    }
  }

  lemma CountersStep(c: Config, s: State, l: Label)
    requires Enabled(s, l) && ReqsOk(c, s) && CountersOk(s)
    ensures CountersOk(Step(c, s, l))
  {
    var t := Step(c, s, l);
    if l.LookUp? || l.Check? || l.Enter? || l.Choose? || l.CountStale? {
      MoverCounts(c, s, l);
      CountUpdate(s.reqs, l.req, t.reqs[l.req], WasHit);
      CountUpdate(s.reqs, l.req, t.reqs[l.req], WasMiss);
      CountUpdate(s.reqs, l.req, t.reqs[l.req], WasStale);
    }
  }

  lemma {:induction false} RunCounters(c: Config, ss: seq<State>, ls: seq<Label>, n: nat)
    requires IsRun(c, ss, ls) && n < |ss|
    ensures LeadersOk(ss[n]) && CountersOk(ss[n])
  {
    if n > 0 {
      RunCounters(c, ss, ls, n - 1);
      RunInv(c, ss, ls, n - 1);
      LeadersStep(c, ss[n - 1], ls[n - 1]);
      CountersStep(c, ss[n - 1], ls[n - 1]);
    }
  }

  /** Every lookup is a hit or a miss; stale answers are misses; and however
      requests interleave, no more flights start than there were misses. */
  lemma Conservation(c: Config, ss: seq<State>, ls: seq<Label>, n: nat)
    requires IsRun(c, ss, ls) && n < |ss|
    ensures var s := ss[n];
            && s.store.hits + s.store.misses == |s.reqs|
            && s.store.hits == Count(s.reqs, WasHit) && s.store.staleHits == Count(s.reqs, WasStale)
            && s.store.staleHits <= s.store.misses
            && |s.flights| <= s.store.misses
  {
    var s := ss[n];
    RunCounters(c, ss, ls, n);
    RunInv(c, ss, ls, n);
    var hits, misses := Where(s.reqs, WasHit), Where(s.reqs, WasMiss);
    assert hits + misses == s.reqs.Keys && hits !! misses;
    forall r | r in s.reqs && WasStale(s.reqs[r]) ensures WasMiss(s.reqs[r]) {
      assert ControlOk(c, s, s.reqs[r]);
    }
    CountMonotone(s.reqs, WasStale, WasMiss);
    var leaders := seq(|s.flights|, f requires 0 <= f < |s.flights| => s.flights[f].leader);
    DistinctWithin(leaders, misses);
  }

  // ----- backoff -----

  lemma BackoffStep(c: Config, s: State, l: Label)
    requires Enabled(s, l) && BlockOk(s) && s.store.block.Some?
    ensures var t := Step(c, s, l);
            t.store.block.Some? && s.store.block.value.until <= t.store.block.value.until
  {}

  /** The end of the backoff never moves earlier. */
  lemma {:induction false} BackoffNeverShrinks(c: Config, ss: seq<State>, ls: seq<Label>, m: nat, n: nat)
    requires IsRun(c, ss, ls) && m <= n < |ss| && ss[m].store.block.Some?
    ensures ss[n].store.block.Some? && ss[m].store.block.value.until <= ss[n].store.block.value.until
    decreases n
  {
    if m < n {
      BackoffNeverShrinks(c, ss, ls, m, n - 1);
      assert BlockOk(ss[n - 1]) by { RunInv(c, ss, ls, n - 1); }
      BackoffStep(c, ss[n - 1], ls[n - 1]);
    }
  }

  /** A request whose check falls inside the backoff is never part of any flight. */
  lemma CheckedInsideStartsNoFlight(c: Config, ss: seq<State>, ls: seq<Label>, m: nat, n: nat)
    requires IsRun(c, ss, ls) && m < n < |ss|
    requires ls[m].Check? && Blocked(ss[m].store, ss[m].now)
    ensures ls[m].req in ss[n].reqs && FlightOf(ss[n].reqs[ls[m].req].pc) == None
  {
    assert ss[m + 1] == Step(c, ss[m], ls[m]);
    RequestPersists(c, ss, ls, m + 1, n, ls[m].req);
  }

  predicate IsEntering(q: Req) { q.pc.Entering? }

  /** While the backoff lasts, the flights that start are paid for by requests
      that were already past their check when it began. */
  lemma {:induction false} FlightsDuringBackoff(c: Config, ss: seq<State>, ls: seq<Label>, m: nat, n: nat)
    requires IsRun(c, ss, ls) && m <= n < |ss|
    requires forall i :: m <= i < n ==> Blocked(ss[i].store, ss[i].now)
    ensures |ss[n].flights| + Count(ss[n].reqs, IsEntering) <= |ss[m].flights| + Count(ss[m].reqs, IsEntering)
    decreases n
  {
    if m < n {
      FlightsDuringBackoff(c, ss, ls, m, n - 1);
      var s, l, t := ss[n - 1], ls[n - 1], ss[n];
      if l.LookUp? || l.Check? || l.Enter? || l.Choose? || l.CountStale? {
        CountUpdate(s.reqs, l.req, t.reqs[l.req], IsEntering);
      }
    }
  }

  // ----- the store of a run is that of its lookups and puts, one after the other -----

  /** The store operation a step amounts to, if any. */
  function OpOf(s: State, l: Label): seq<Op> {
    if l.LookUp? then [Get(l.key, s.now)]
    else if l.Record? && Enabled(s, l) then
      match s.replies[s.flights[l.flight].phase.reply].result
      case Reply(r) => if r.status == 200 then [Put(s.flights[l.flight].key, r, s.now)] else []
      case Failed(_) => []
    else []
  }

  function OpsOf(ss: seq<State>, ls: seq<Label>, n: nat): seq<Op>
    requires n <= |ls| <= |ss|
  {
    if n == 0 then [] else OpsOf(ss, ls, n - 1) + OpOf(ss[n - 1], ls[n - 1])
  }

  /** What an operation does to the order depends on the order alone. */
  lemma ApplyRecency(c: Config, s: Store, t: Store, op: Op)
    requires s.recency == t.recency
    ensures Apply(c, s, op).recency == Apply(c, t, op).recency
  {}

  lemma StepIsOp(c: Config, s: State, l: Label)
    requires Enabled(s, l)
    ensures Step(c, s, l).store.recency
         == if OpOf(s, l) == [] then s.store.recency else Apply(c, s.store, OpOf(s, l)[0]).recency
    ensures |OpOf(s, l)| <= 1
  {}

  lemma ReplayExtend(c: Config, ops: seq<Op>, op: Op)
    ensures Replay(c, ops + [op]) == Apply(c, Replay(c, ops), op)
  {
    assert (ops + [op])[..|ops|] == ops;
  }

  lemma {:induction false} RunReplays(c: Config, ss: seq<State>, ls: seq<Label>, n: nat)
    requires IsRun(c, ss, ls) && n < |ss|
    ensures ss[n].store.recency == Replay(c, OpsOf(ss, ls, n)).recency
  {
    if n > 0 {
      RunReplays(c, ss, ls, n - 1);
      var s, l, before := ss[n - 1], ls[n - 1], OpsOf(ss, ls, n - 1);
      StepIsOp(c, s, l);
      if OpOf(s, l) == [] {
        assert OpsOf(ss, ls, n) == before;
      } else {
        assert OpOf(s, l) == [OpOf(s, l)[0]];
        ReplayExtend(c, before, OpOf(s, l)[0]);
        ApplyRecency(c, s.store, Replay(c, before), OpOf(s, l)[0]);
      }
    }
  }

  /** So in every state of every run the order is that of last fresh hit or store. */
  lemma LruInEveryState(c: Config, ss: seq<State>, ls: seq<Label>, n: nat)
    requires IsRun(c, ss, ls) && n < |ss|
    ensures ss[n].store.recency == Replay(c, OpsOf(ss, ls, n)).recency
    ensures OrderedByTouch(c, OpsOf(ss, ls, n), ss[n].store.recency)
  {
    RunReplays(c, ss, ls, n);
    RecencyIsLastTouch(c, OpsOf(ss, ls, n));
  }

  // ----- a stored entry is the most recent storable 200 -----

  predicate Storable(c: Config, e: ReplyEvent, k: Key) {
    e.key == k && e.result.Reply? && e.result.resp.status == 200 && |e.result.resp.body| <= c.maxBytes
  }

  /** Index of the last of the first n replies that is a 200 for k whose body fits, or -1. */
  function LastStorable(c: Config, es: seq<ReplyEvent>, k: Key, n: nat): (i: int)
    requires n <= |es|
    ensures -1 <= i < n && (i >= 0 ==> Storable(c, es[i], k))
    ensures forall j :: i < j < n ==> !Storable(c, es[j], k)
  {
    if n == 0 then -1 else if Storable(c, es[n - 1], k) then n - 1 else LastStorable(c, es, k, n - 1)
  }

  predicate Pending(s: State, k: Key) {
    k in s.active && s.active[k] < |s.flights| && s.flights[s.active[k]].phase.Replied?
  }

  /** Replies before this index have been recorded, as far as k is concerned. */
  function Recorded(s: State, k: Key): nat {
    if Pending(s, k) && s.flights[s.active[k]].phase.reply < |s.replies|
    then s.flights[s.active[k]].phase.reply else |s.replies|
  }

  /** A reply waiting to be recorded is the last one for its key. */
  ghost predicate PendingLast(s: State) {
    forall k, i :: Pending(s, k) && s.flights[s.active[k]].phase.reply < i < |s.replies| ==> s.replies[i].key != k
  }

  ghost predicate EntryRecent(c: Config, s: State, e: Entry) {
    var i := LastStorable(c, s.replies, e.key, Recorded(s, e.key));
    i >= 0 && s.replies[i].result == Reply(e.resp)
  }

  ghost predicate RecentOk(c: Config, s: State) {
    PendingLast(s) && forall e :: e in s.store.recency ==> EntryRecent(c, s, e)
  }

  lemma {:induction false} LastStorableGrows(c: Config, es: seq<ReplyEvent>, fs: seq<ReplyEvent>,
                                             k: Key, m: nat, n: nat)
    requires es <= fs && m <= |es| && m <= n <= |fs|
    requires forall i :: m <= i < n ==> !Storable(c, fs[i], k)
    ensures LastStorable(c, es, k, m) == LastStorable(c, fs, k, n)
  {
    var i, j := LastStorable(c, es, k, m), LastStorable(c, fs, k, n);
    if i >= 0 { assert fs[i] == es[i]; }
    if j >= 0 { assert j < m && fs[j] == es[j]; }
  }

  /** A flight that waits to record was already waiting, unless it is the one just answered. */
  lemma WasPending(c: Config, s: State, l: Label, k: Key)
    requires Enabled(s, l) && FlightsOk(s) && Pending(Step(c, s, l), k)
    requires !(l.Answered? && Step(c, s, l).active[k] == l.flight)
    ensures Pending(s, k) && s.flights[s.active[k]].phase == Step(c, s, l).flights[Step(c, s, l).active[k]].phase
  {}

  lemma PendingStep(c: Config, s: State, l: Label)
    requires Enabled(s, l) && Inv(c, s) && PendingLast(s)
    ensures PendingLast(Step(c, s, l))
  {
    var t := Step(c, s, l);
    forall k, i | Pending(t, k) && t.flights[t.active[k]].phase.reply < i < |t.replies|
      ensures t.replies[i].key != k
    {
      if !(l.Answered? && t.active[k] == l.flight) {
        WasPending(c, s, l, k);
        if i < |s.replies| { assert t.replies[i] == s.replies[i]; }
      }
    }
  }

  lemma AnsweredKeepsRecent(c: Config, s: State, f: FlightId, u: Upstream, e: Entry)
    requires Enabled(s, Answered(f, u)) && FlightsOk(s) && EntryRecent(c, s, e)
    ensures EntryRecent(c, DoAnswered(s, f, u), e)
  {
    var t := DoAnswered(s, f, u);
    LastStorableGrows(c, s.replies, t.replies, e.key, Recorded(s, e.key), Recorded(t, e.key));
  }

  /** Recording a reply for k settles it: it is the latest if storable, and if
      not, whatever was latest before it still is. */
  lemma RecordSettles(c: Config, s: State, f: FlightId)
    requires Enabled(s, Record(f)) && FlightsOk(s) && RepliesOk(s) && PendingLast(s)
    ensures var i, k := s.flights[f].phase.reply, s.flights[f].key;
            && Recorded(s, k) == i && s.replies[i].key == k
            && LastStorable(c, s.replies, k, |s.replies|)
               == if Storable(c, s.replies[i], k) then i else LastStorable(c, s.replies, k, i)
  {
    var i, k := s.flights[f].phase.reply, s.flights[f].key;
    assert s.active[k] == f && s.replies[i].flight == f && Pending(s, k);
    if Storable(c, s.replies[i], k) {
      LastStorableGrows(c, s.replies, s.replies, k, i + 1, |s.replies|);
    } else {
      LastStorableGrows(c, s.replies, s.replies, k, i, |s.replies|);
    }
  }

  lemma RecordedElsewhere(c: Config, s: State, f: FlightId, k: Key)
    requires Enabled(s, Record(f)) && FlightsOk(s)
    ensures Recorded(DoRecord(c, s, f), k) == if k == s.flights[f].key then |s.replies| else Recorded(s, k)
  {
    assert s.active[s.flights[f].key] == f;
  }

  lemma RecordKeepsRecent(c: Config, s: State, f: FlightId, e: Entry)
    requires Enabled(s, Record(f)) && Inv(c, s) && RecentOk(c, s) && e in DoRecord(c, s, f).store.recency
    ensures EntryRecent(c, DoRecord(c, s, f), e)
  {
    var i, k := s.flights[f].phase.reply, s.flights[f].key;
    var u := s.replies[i].result;
    RecordSettles(c, s, f);
    RecordedElsewhere(c, s, f, e.key);
    if IsOk(u) { PutMembers(c, s.store, k, u.resp, s.now); }
  }

  lemma RecentStep(c: Config, s: State, l: Label, e: Entry)
    requires Enabled(s, l) && Inv(c, s) && RecentOk(c, s) && e in Step(c, s, l).store.recency
    ensures EntryRecent(c, Step(c, s, l), e)
  {
    match l {
      case Answered(f, u) => AnsweredKeepsRecent(c, s, f, u, e);
      case Record(f) => RecordKeepsRecent(c, s, f, e);
      case Enter(_) => EnterKeepsRecent(c, s, l.req, e);
      case Finish(f) => FinishKeepsRecent(c, s, f, e);
      case _ => QuietKeepsRecent(c, s, l, e);
    }
  }

  /** Steps that touch neither flights nor replies store nothing new. */
  lemma QuietKeepsRecent(c: Config, s: State, l: Label, e: Entry)
    requires Enabled(s, l) && (l.Tick? || l.LookUp? || l.Check? || l.Choose? || l.CountStale?)
    requires RecentOk(c, s) && e in Step(c, s, l).store.recency
    ensures EntryRecent(c, Step(c, s, l), e)
  {
    if l.LookUp? { GetMembers(c, s.store, l.key, s.now); }
    assert EntryRecent(c, s, e);
  }

  lemma EnterKeepsRecent(c: Config, s: State, r: ReqId, e: Entry)
    requires Enabled(s, Enter(r)) && FlightsOk(s) && EntryRecent(c, s, e)
    ensures EntryRecent(c, DoEnter(s, r), e)
  {
    assert Recorded(DoEnter(s, r), e.key) == Recorded(s, e.key);
  }

  lemma FinishKeepsRecent(c: Config, s: State, f: FlightId, e: Entry)
    requires Enabled(s, Finish(f)) && FlightsOk(s) && EntryRecent(c, s, e)
    ensures EntryRecent(c, DoFinish(s, f), e)
  {
    assert s.active[s.flights[f].key] == f;
    assert Recorded(DoFinish(s, f), e.key) == Recorded(s, e.key);
  }

  lemma {:induction false} RunRecent(c: Config, ss: seq<State>, ls: seq<Label>, n: nat)
    requires IsRun(c, ss, ls) && n < |ss|
    ensures RecentOk(c, ss[n])
  {
    if n > 0 {
      RunRecent(c, ss, ls, n - 1);
      RunInv(c, ss, ls, n - 1);
      PendingStep(c, ss[n - 1], ls[n - 1]);
      forall e | e in ss[n].store.recency ensures EntryRecent(c, ss[n], e) {
        RecentStep(c, ss[n - 1], ls[n - 1], e);
      }
    }
  }

  /** An entry present for k is the most recent 200 upstream sent for k whose body
      fits the bound: among all replies, or among all but the one whose flight
      has not reached its put yet. */
  lemma StoredIsMostRecent(c: Config, ss: seq<State>, ls: seq<Label>, n: nat, e: Entry)
    requires IsRun(c, ss, ls) && n < |ss| && e in ss[n].store.recency
    ensures var s := ss[n];
            var cut := if Pending(s, e.key) then s.flights[s.active[e.key]].phase.reply else |s.replies|;
            && cut <= |s.replies|
            && (forall j :: cut < j < |s.replies| ==> s.replies[j].key != e.key)
            && exists i: nat :: i < cut && s.replies[i].key == e.key && s.replies[i].result == Reply(e.resp)
                 && e.resp.status == 200
                 && forall j :: i < j < cut ==> !Storable(c, s.replies[j], e.key)
  {
    RunRecent(c, ss, ls, n);
    RunInv(c, ss, ls, n);
    var i := LastStorable(c, ss[n].replies, e.key, Recorded(ss[n], e.key));
    assert EntryRecent(c, ss[n], e);
  }
}
