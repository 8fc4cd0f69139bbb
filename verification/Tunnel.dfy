/** The pending table of one tunnel as the program updates it, one call at a time. Every call is a run of
    the multiplexer machine, so its theorems apply to the table after any sequence of calls. */
module Tunnel {
  import opened Wrappers
  import opened Dispatch
  import opened DispatchProofs

  lemma {:induction false} RunAppend(a: State, es: seq<Event>, s: State, e: Event)
    requires IsRun(a, es, s) && Enabled(s, e)
    ensures IsRun(a, es + [e], Next(s, e))
    decreases |es|
  {
    if es == [] {
      assert [e][1..] == [];
    } else {
      RunAppend(Next(a, es[0]), es[1..], s, e);
      assert (es + [e])[1..] == es[1..] + [e];
    }
  }

  lemma ReachNext(s: State, e: Event)
    requires Reachable(s) && Enabled(s, e)
    ensures Reachable(Next(s, e))
  {
    var es :| IsRun(INITIAL, es, s);
    RunAppend(INITIAL, es, s, e);
  }

  /** What routing a frame leaves of its request. */
  function AfterRouting(q: Request, pending: bool, f: Frame): Request {
    q.(routed := q.routed + [f],
       buffer := if pending && Accepts(q) then q.buffer + [f] else q.buffer,
       outcome := if !pending then q.outcome
                  else if !Accepts(q) then Severed
                  else if Terminal(f) then Ended else q.outcome)
  }

  /** What routing a frame to an open entry comes to, kind of frame by kind of frame. */
  predicate Handled(before: Request, f: Frame, after: Request, open: bool) {
    var room := before.listening && |before.buffer| < 256;
    && after.buffer == (if room then before.buffer + [f] else before.buffer)
    && match f
       case Response(_) => open == room
       case Chunk(_) => open == room
       case End(_) => !open
       case Error(_, _) => !open
       case ActivateResponse(_) => !open
  }

  /** The disconnect error reaches a receiver whose channel has room. */
  predicate ToldGone(before: Request, after: Request) {
    before.listening && |before.buffer| < 256 ==> after.buffer == before.buffer + [Error(502, "node disconnected")]
  }

  /** What a sweep leaves of a request. */
  function AfterSweep(q: Request, pending: bool): Request {
    if pending then Failed(q, |q.routed|) else q
  }

  /** Routing is at most two steps of the reader. */
  lemma RouteReaches(s: State, rid: Rid, f: Frame)
    requires Reachable(s) && s.reader.Reading? && s.sweeps == map[] && rid in s.requests
    ensures var q := s.requests[rid];
      var gone := rid in s.table && (Terminal(f) || !Accepts(q));
      Reachable(State(if gone then s.table - {rid} else s.table,
                      s.requests[rid := AfterRouting(q, rid in s.table, f)], Reading, map[]))
  {
    ReachableInv(s);
    assert TableOk(s, rid);
    ReachNext(s, Route(rid, f));
    var s1 := Next(s, Route(rid, f));
    var q := s.requests[rid];
    if !s1.reader.Reading? {
      ReachNext(s1, Continue);
      var s2 := Next(s1, Continue);
      assert s2.requests == s.requests[rid := AfterRouting(q, true, f)];
      assert s2.table == s.table - {rid};
    } else {
      assert s1.requests == s.requests[rid := AfterRouting(q, rid in s.table, f)];
    }
  }

  lemma SweepReaches(s: State, k: SweepId, rid: Rid)
    requires Reachable(s) && s.reader.Reading? && k in s.sweeps && rid in s.table && rid in s.requests
    ensures var q := s.requests[rid];
      Reachable(State(s.table - {rid}, s.requests[rid := Failed(q, |q.routed|)], Reading, s.sweeps))
  {
    ReachNext(s, FailOne(k, rid));
  }

  class NodeTunnel {
    var table: set<Rid>
    var requests: map<Rid, Request>

    function View(): State
      reads this
    {
      State(table, requests, Reading, map[])
    }

    ghost predicate Valid()
      reads this
    {
      Reachable(View())
    }

    constructor ()
      ensures Valid() && table == {} && requests == map[]
    {
      table, requests := {}, map[];
      new;
      assert View() == INITIAL;
      assert IsRun(INITIAL, [], INITIAL);
    }

    method RegisterPending(rid: Rid)
      requires Valid() && rid !in requests
      modifies this`table, this`requests
      ensures Valid() && table == old(table) + {rid} && requests == old(requests)[rid := FRESH]
    {
      ReachNext(View(), Register(rid));
      table := table + {rid};
      requests := requests[rid := FRESH];
    }

    /** Deliver a frame; a terminal frame closes the entry, and so does a full or closed channel. */
    method RouteInbound(rid: Rid, frame: Frame)
      requires Valid()
      modifies this`table, this`requests
      ensures Valid()
      ensures rid !in old(requests) ==> requests == old(requests) && table == old(table)
      ensures rid in old(requests) ==>
        requests == old(requests)[rid := AfterRouting(old(requests)[rid], rid in old(table), frame)]
      ensures rid in old(requests) && (Terminal(frame) || !Accepts(old(requests)[rid])) ==> table == old(table) - {rid}
      ensures rid in old(requests) && !Terminal(frame) && Accepts(old(requests)[rid]) ==> table == old(table)
      // a status or a chunk leaves an entry with room open; an end, an error or an activation closes it
      ensures rid in old(table) && rid in old(requests) ==>
        Handled(old(requests)[rid], frame, requests[rid], rid in table)
    {
      if rid !in requests {
        ReachableInv(View());
        return;
      }
      RouteReaches(View(), rid, frame);
      var pending := rid in table;
      var q := requests[rid];
      requests := requests[rid := q.(routed := q.routed + [frame])];
      if Terminal(frame) {
        if pending {
          table := table - {rid};
          requests := requests[rid := TrySend(requests[rid], frame).(outcome := if Accepts(q) then Ended else Severed)];
        }
        assert requests == old(requests)[rid := AfterRouting(q, pending, frame)];
        assert pending || old(table) - {rid} == table;
        return;
      }
      var sendFailed := false;
      if pending {
        sendFailed := !Accepts(q);
        requests := requests[rid := TrySend(requests[rid], frame)];
      }
      if sendFailed {
        table := table - {rid};
        requests := requests[rid := requests[rid].(outcome := Severed)];
      }
      assert requests == old(requests)[rid := AfterRouting(q, pending, frame)];
      assert pending || old(table) - {rid} == table;
    }

    /** Every pending request gets the disconnect error if its channel has room, in whatever order. */
    method FailAllPending()
      requires Valid()
      modifies this
      ensures Valid() && table == {} && requests.Keys == old(requests).Keys
      ensures forall rid :: rid in requests ==> requests[rid] == AfterSweep(old(requests)[rid], rid in old(table))
      // whoever was pending and had room is told that the node is gone
      ensures forall rid :: rid in requests && rid in old(table) ==> ToldGone(old(requests)[rid], requests[rid])
    {
      ghost var was := table;
      ReachableInv(View());
      ReachNext(View(), BeginSweep(0));
      ghost var sweeps := map[0 := was];
      assert Reachable(State(table, requests, Reading, sweeps));
      while table != {}
        invariant Reachable(State(table, requests, Reading, sweeps))
        invariant table <= was && requests.Keys == old(requests).Keys && was <= requests.Keys
        invariant forall rid :: rid in requests ==> requests[rid] == AfterSweep(old(requests)[rid], rid in was - table)
        decreases table
      {
        var rid :| rid in table;
        SweepReaches(State(table, requests, Reading, sweeps), 0, rid);
        requests := requests[rid := Failed(requests[rid], |requests[rid].routed|)];
        table := table - {rid};
      }
      ReachNext(State(table, requests, Reading, sweeps), EndSweep(0));
      assert sweeps - {0} == map[];
    }

    /** Take the next buffered frame. */
    method TryRecv(rid: Rid) returns (f: Option<Frame>)
      requires Valid() && rid in requests && requests[rid].listening
      modifies this`requests
      ensures Valid() && requests.Keys == old(requests).Keys
      ensures forall r :: r in requests && r != rid ==> requests[r] == old(requests)[r]
      ensures if old(requests)[rid].buffer == [] then f.None? && requests[rid] == old(requests)[rid] else
        && f == Some(old(requests)[rid].buffer[0])
        && requests[rid] == old(requests)[rid].(received := old(requests)[rid].received + [f.value],
                                                buffer := old(requests)[rid].buffer[1..])
    {
      var q := requests[rid];
      if q.buffer == [] { return None; }
      ReachNext(View(), Pop(rid));
      requests := requests[rid := q.(received := q.received + [q.buffer[0]], buffer := q.buffer[1..])];
      f := Some(q.buffer[0]);
    }

    /** Dropping a request: first its receiver, then its table entry. */
    method DropPending(rid: Rid)
      requires Valid() && rid in requests && requests[rid].listening
      modifies this`table, this`requests
      ensures Valid() && table == old(table) - {rid}
      ensures requests == old(requests)[rid := old(requests)[rid].(listening := false, buffer := [], cleaned := true)]
    {
      ReachableInv(View());
      assert RequestOk(View(), rid);
      var q := requests[rid];
      ReachNext(View(), CloseReceiver(rid));
      var closed := requests[rid := q.(listening := false, buffer := [])];
      ReachNext(State(table, closed, Reading, map[]), Cleanup(rid));
      table := table - {rid};
      requests := closed[rid := q.(listening := false, buffer := [], cleaned := true)];
      assert requests == old(requests)[rid := q.(listening := false, buffer := [], cleaned := true)];
    }

    /** The number of live requests nobody has closed. */
    method InFlightCount() returns (n: nat)
      requires Valid()
      ensures n == |set rid | rid in requests && !requests[rid].cleaned && requests[rid].outcome.Open?|
    {
      TableAgreement(View());
      assert table == set rid | rid in requests && !requests[rid].cleaned && requests[rid].outcome.Open?;
      n := |table|;
    }
  }
}
