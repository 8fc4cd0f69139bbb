/** What the multiplexer guarantees in every run. */
module DispatchProofs {
  import opened Dispatch

  lemma PrefixOfCut(d: seq<Frame>, fs: seq<Frame>, f: Frame)
    requires d <= Cut(fs)
    ensures d <= Cut(fs + [f])
  {
    CutGrow(fs, f);
    CutPrefix(fs);
  }

  // ------------------------------------------------------------------ one request at a time

  /** A frame is routed to a request whose entry is gone. */
  lemma RoutedInVain(q: Request, f: Frame)
    requires HistoryOk(q, false) && ChannelOk(q)
    requires q.cleaned || !q.outcome.Open?
    ensures HistoryOk(q.(routed := q.routed + [f]), false)
  {
    match q.outcome {
      case Open => PrefixOfCut(q.received, q.routed, f);
      case Ended => CutGrow(q.routed, f);
      case Severed =>
        PrefixOfCut(Delivered(q), q.routed, f);
        CutGrow(q.routed, f);
        CutPrefix(q.routed);
      case Disconnected(n) => assert (q.routed + [f])[..n] == q.routed[..n];
    }
  }

  /** A frame is routed to an open entry: put into the channel, or still in the reader's hands. */
  lemma RoutedOpen(q: Request, f: Frame)
    requires HistoryOk(q, false) && ChannelOk(q) && q.outcome.Open? && !q.cleaned
    ensures var q' := q.(routed := q.routed + [f]);
      && HistoryOk(q', true) && Past(q', true) == q.routed && NoTerminal(q.routed)
      && (!Terminal(f) && Accepts(q) ==> HistoryOk(TrySend(q', f), false) && ChannelOk(TrySend(q', f)))
  {
    var q' := q.(routed := q.routed + [f]);
    assert q'.routed[..|q'.routed| - 1] == q.routed;
    if Accepts(q) {
      assert Delivered(TrySend(q', f)) == Delivered(q) + [f];
    }
  }

  lemma CutOfRouted(q: Request, past: seq<Frame>, f: Frame)
    requires q.routed == past + [f] && NoTerminal(past)
    ensures Cut(q.routed) == q.routed && past <= Cut(q.routed) && past != Cut(q.routed)
  {
    CutGrow(past, f);
  }

  /** The reader puts the terminal frame into the channel. */
  lemma Sent(q: Request, past: seq<Frame>, f: Frame)
    requires q.outcome.Open? && !q.cleaned && Accepts(q) && Terminal(f)
    requires q.routed == past + [f] && NoTerminal(past) && Delivered(q) == past
    ensures HistoryOk(TrySend(q, f).(outcome := Ended), false)
  {
    CutOfRouted(q, past, f);
    assert Delivered(TrySend(q, f)) == Delivered(q) + [f];
    assert f in q.routed;
  }

  /** The channel refuses a frame: what it has is a proper prefix. */
  lemma Lost(q: Request, past: seq<Frame>, f: Frame)
    requires q.outcome.Open? && ChannelOk(q)
    requires q.routed == past + [f] && NoTerminal(past)
    requires if q.cleaned then q.received <= Cut(q.routed) else Line(q, past)
    requires q.listening ==> |Delivered(q)| >= CAPACITY
    ensures HistoryOk(q.(outcome := Severed), false)
  {
    CutOfRouted(q, past, f);
    if !q.listening { assert Delivered(q) == q.received; }
  }

  /** A sweep fails an open entry, perhaps between a refused frame and its eviction. */
  lemma Failing(q: Request, busy: bool)
    requires HistoryOk(q, busy) && ChannelOk(q) && q.outcome.Open? && !q.cleaned
    ensures var q' := Failed(q, |Past(q, busy)|); HistoryOk(q', busy) && ChannelOk(q')
  {
    assert q.routed[..|Past(q, busy)|] == Past(q, busy);
    if Accepts(q) { assert Delivered(TrySend(q, DISCONNECT)) == Delivered(q) + [DISCONNECT]; }
  }

  lemma Popped(q: Request, busy: bool)
    requires HistoryOk(q, busy) && ChannelOk(q) && q.listening && q.buffer != []
    ensures var q' := q.(received := q.received + [q.buffer[0]], buffer := q.buffer[1..]);
      HistoryOk(q', busy) && ChannelOk(q') && Delivered(q') == Delivered(q)
  {
    var q' := q.(received := q.received + [q.buffer[0]], buffer := q.buffer[1..]);
    assert q.buffer == [q.buffer[0]] + q.buffer[1..];
    assert Delivered(q') == Delivered(q);
  }

  lemma Closed(q: Request, busy: bool)
    requires HistoryOk(q, busy) && ChannelOk(q) && q.listening
    ensures var q' := q.(listening := false, buffer := []); HistoryOk(q', busy) && ChannelOk(q')
  {
    assert q.received <= Delivered(q);
    assert q.received + [] == q.received;
  }

  /** Frames the reader has finished with, none of them terminal, are never cut later. */
  lemma PastIsKept(q: Request, busy: bool)
    requires NoTerminal(Past(q, busy))
    ensures Past(q, busy) <= Cut(q.routed)
  {
    var past := Past(q, busy);
    CutPrefix(past);
    if past != q.routed {
      assert q.routed == past + [q.routed[|q.routed| - 1]];
      PrefixOfCut(past, past, q.routed[|q.routed| - 1]);
    }
  }

  lemma CleanedUp(q: Request, busy: bool)
    requires HistoryOk(q, busy) && ChannelOk(q) && !q.listening && !q.cleaned
    ensures HistoryOk(q.(cleaned := true), busy) && ChannelOk(q.(cleaned := true))
  {
    if q.outcome.Open? { PastIsKept(q, busy); }
  }

  /** The reader's next step, kind of frame by kind of frame: a status or a chunk goes into a channel with
      room and leaves the entry open; the other three take the entry out of the table. */
  lemma RouteByKind(s: State, rid: Rid, f: Frame)
    requires Enabled(s, Route(rid, f)) && rid in s.requests && rid in s.table
    ensures var s', q := Next(s, Route(rid, f)), s.requests[rid];
      match f
      case Response(_) => q.listening && |q.buffer| < 256 ==> Passes(s, s', rid, f)
      case Chunk(_) => q.listening && |q.buffer| < 256 ==> Passes(s, s', rid, f)
      case End(_) => rid !in s'.table
      case Error(_, _) => rid !in s'.table
      case ActivateResponse(_) => rid !in s'.table
  {}

  predicate Passes(s: State, s': State, rid: Rid, f: Frame)
    requires rid in s.requests
  {
    s'.table == s.table && rid in s'.requests && s'.requests[rid].buffer == s.requests[rid].buffer + [f]
  }

  // ------------------------------------------------------------------ whole steps

  lemma RouteKeeps(s: State, rid: Rid, f: Frame)
    requires Inv(s) && s.reader.Reading? && rid in s.requests
    ensures var s' := Next(s, Route(rid, f)); RequestOk(s', rid) && TableOk(s', rid) && ReaderOk(s')
  {
    assert RequestOk(s, rid) && TableOk(s, rid);
    var q := s.requests[rid];
    if rid in s.table {
      RoutedOpen(q, f);
      assert Delivered(q.(routed := q.routed + [f])) == Delivered(q);
    } else {
      RoutedInVain(q, f);
    }
  }

  lemma ContinueKeeps(s: State)
    requires Inv(s) && Enabled(s, Continue)
    ensures var s' := Next(s, Continue); RequestOk(s', s.reader.rid) && TableOk(s', s.reader.rid) && ReaderOk(s')
  {
    var q := s.requests[s.reader.rid];
    assert RequestOk(s, s.reader.rid) && TableOk(s, s.reader.rid);
    var past, f := q.routed[..|q.routed| - 1], q.routed[|q.routed| - 1];
    assert q.routed == past + [f];
    if s.reader.Delivering? && Accepts(q) {
      Sent(q, past, f);
    } else if q.outcome.Open? {
      Lost(q, past, f);
    }
  }

  lemma FailKeeps(s: State, k: SweepId, rid: Rid)
    requires Inv(s) && Enabled(s, FailOne(k, rid))
    ensures var s' := Next(s, FailOne(k, rid)); RequestOk(s', rid) && TableOk(s', rid) && ReaderOk(s')
  {
    assert RequestOk(s, rid) && TableOk(s, rid);
    Failing(s.requests[rid], Busy(s, rid));
  }

  lemma PopKeeps(s: State, rid: Rid)
    requires Inv(s) && Enabled(s, Pop(rid))
    ensures var s' := Next(s, Pop(rid)); RequestOk(s', rid) && TableOk(s', rid) && ReaderOk(s')
  {
    assert RequestOk(s, rid) && TableOk(s, rid);
    Popped(s.requests[rid], Busy(s, rid));
  }

  lemma CloseKeeps(s: State, rid: Rid)
    requires Inv(s) && Enabled(s, CloseReceiver(rid))
    ensures var s' := Next(s, CloseReceiver(rid)); RequestOk(s', rid) && TableOk(s', rid) && ReaderOk(s')
  {
    assert RequestOk(s, rid) && TableOk(s, rid);
    Closed(s.requests[rid], Busy(s, rid));
  }

  lemma CleanupKeeps(s: State, rid: Rid)
    requires Inv(s) && Enabled(s, Cleanup(rid))
    ensures var s' := Next(s, Cleanup(rid)); RequestOk(s', rid) && TableOk(s', rid) && ReaderOk(s')
  {
    assert RequestOk(s, rid) && TableOk(s, rid);
    CleanedUp(s.requests[rid], Busy(s, rid));
  }

  /** The request a step is about, if it is about one. */
  function SubjectOf(s: State, e: Event): set<Rid>
    requires Enabled(s, e)
  {
    if e.BeginSweep? || e.EndSweep? then {} else if e.Continue? then {s.reader.rid} else {e.rid}
  }

  /** Steps for one request leave the others alone. */
  lemma OthersKeep(s: State, e: Event, other: Rid)
    requires Inv(s) && Enabled(s, e) && other in s.requests
    requires other !in SubjectOf(s, e)
    ensures var s' := Next(s, e); other in s'.requests && RequestOk(s', other) && TableOk(s', other)
  {
    var s' := Next(s, e);
    assert RequestOk(s, other) && TableOk(s, other);
    assert s'.requests[other] == s.requests[other] && (other in s'.table <==> other in s.table);
    assert Busy(s', other) == Busy(s, other);
  }

  lemma RegisterKeeps(s: State, rid: Rid)
    requires Inv(s) && Enabled(s, Register(rid))
    ensures var s' := Next(s, Register(rid)); RequestOk(s', rid) && TableOk(s', rid) && ReaderOk(s')
  {}

  lemma SweepEventKeeps(s: State, e: Event)
    requires Inv(s) && Enabled(s, e) && (e.BeginSweep? || e.EndSweep?)
    ensures ReaderOk(Next(s, e))
  {}

  /** The reader and the request a step is about are fine afterwards. */
  ghost predicate FineAfter(s': State, subject: set<Rid>) {
    ReaderOk(s') && forall r :: r in subject && r in s'.requests ==> RequestOk(s', r) && TableOk(s', r)
  }

  lemma SubjectKeeps(s: State, e: Event)
    requires Inv(s) && Enabled(s, e)
    ensures FineAfter(Next(s, e), SubjectOf(s, e))
  {
    match e
    case Register(rid) => RegisterKeeps(s, rid);
    case Route(rid, f) => if rid in s.requests { RouteKeeps(s, rid, f); }
    case Continue => ContinueKeeps(s);
    case FailOne(k, rid) => FailKeeps(s, k, rid);
    case Pop(rid) => PopKeeps(s, rid);
    case CloseReceiver(rid) => CloseKeeps(s, rid);
    case Cleanup(rid) => CleanupKeeps(s, rid);
    case _ => SweepEventKeeps(s, e);
  }

  lemma StepKeepsInv(s: State, e: Event)
    requires Inv(s) && Enabled(s, e)
    ensures Inv(Next(s, e))
  {
    var s' := Next(s, e);
    SubjectKeeps(s, e);
    forall r | r in s'.requests ensures RequestOk(s', r) && TableOk(s', r) {
      if r !in SubjectOf(s, e) { OthersKeep(s, e, r); }
    }
  }

  lemma {:induction false} RunKeepsInv(s: State, es: seq<Event>, s': State)
    requires Inv(s) && IsRun(s, es, s')
    ensures Inv(s')
    decreases |es|
  {
    if es != [] {
      StepKeepsInv(s, es[0]);
      RunKeepsInv(Next(s, es[0]), es[1..], s');
    }
  }

  lemma ReachableInv(s: State)
    requires Reachable(s)
    ensures Inv(s)
  {
    var es :| IsRun(INITIAL, es, s);
    RunKeepsInv(INITIAL, es, s);
  }

  // ------------------------------------------------------------------ the promises

  /** What a request has received is a gap-free prefix of the frames routed for it, cut at the first
      terminal one, and at most one disconnect error, after exactly the frames its channel had been given
      when a sweep closed the entry; nothing follows a terminal frame. */
  lemma Faithful(s: State, rid: Rid)
    requires Reachable(s) && rid in s.requests
    ensures var q := s.requests[rid];
      && (q.received <= Cut(q.routed)
          || (q.outcome.Disconnected? && Interrupted(q.received, q.routed, q.outcome.upTo)))
      && (forall i :: 0 <= i < |q.received| - 1 ==> !Terminal(q.received[i]))
  {
    ReachableInv(s);
    assert RequestOk(s, rid);
    FaithfulHistory(s.requests[rid], Busy(s, rid));
  }

  /** The first n of the frames sent, none of them terminal, and the disconnect error. */
  predicate Interrupted(received: seq<Frame>, sent: seq<Frame>, n: nat) {
    n <= |sent| && NoTerminal(sent[..n]) && received == sent[..n] + [DISCONNECT]
  }

  /** Leading frames without a terminal one are never cut. */
  lemma {:induction false} NeverCut(fs: seq<Frame>, n: nat)
    requires n <= |fs| && NoTerminal(fs[..n])
    ensures fs[..n] <= Cut(fs)
  {
    if n > 0 {
      assert fs[0] == fs[..n][0] && fs[1..][..n - 1] == fs[..n][1..];
      NeverCut(fs[1..], n - 1);
    }
  }

  lemma FaithfulHistory(q: Request, busy: bool)
    requires HistoryOk(q, busy) && ChannelOk(q)
    ensures q.received <= Cut(q.routed)
      || (q.outcome.Disconnected? && Interrupted(q.received, q.routed, q.outcome.upTo))
    ensures forall i :: 0 <= i < |q.received| - 1 ==> !Terminal(q.received[i])
  {
    CutPrefix(q.routed);
    assert q.received <= Delivered(q);
    if q.outcome.Open? && !q.cleaned { PastIsKept(q, busy); }
    if q.outcome.Disconnected? { NeverCut(q.routed, q.outcome.upTo); }
    if q.received <= Cut(q.routed) {
      NothingAfterTerminal(q.received, q.routed);
    } else {
      var past := q.routed[..q.outcome.upTo];
      forall i | 0 <= i < |q.received| - 1 ensures !Terminal(q.received[i]) {
        assert q.received[i] == past[i] && past[i] in past;
      }
    }
  }

  lemma NothingAfterTerminal(d: seq<Frame>, fs: seq<Frame>)
    requires d <= Cut(fs)
    ensures forall i :: 0 <= i < |d| - 1 ==> !Terminal(d[i])
  {
    CutPrefix(fs);
    var cut := Cut(fs);
    forall i | 0 <= i < |d| - 1 ensures !Terminal(d[i]) {
      if NoTerminal(fs) { assert d[i] in fs; } else { assert cut[i] in cut[..|cut| - 1]; }
    }
  }

  /** At the end of its stream a receiver has everything up to the terminal frame, unless the channel
      once refused a frame or the node went away. */
  lemma CompleteAtEnd(s: State, rid: Rid)
    requires Reachable(s) && rid in s.requests && s.requests[rid].listening && AtEnd(s, rid)
    ensures var q := s.requests[rid];
      match q.outcome
      case Open => false
      case Ended => q.received == Cut(q.routed) && !NoTerminal(q.routed)
      case Severed => q.received <= Cut(q.routed) && q.received != Cut(q.routed)
      case Disconnected(n) =>
        && n <= |q.routed| && NoTerminal(q.routed[..n])
        && (q.received == q.routed[..n] || Interrupted(q.received, q.routed, n))
  {
    ReachableInv(s);
    assert RequestOk(s, rid) && TableOk(s, rid);
    assert Delivered(s.requests[rid]) == s.requests[rid].received;
  }

  /** A channel is only ever cut off after 256 frames: whoever still listens to a request with at most 256
      frames up to its terminal one is safe from that. */
  lemma FewFramesAreSafe(s: State, rid: Rid)
    requires Reachable(s) && rid in s.requests && s.requests[rid].listening
    requires |Cut(s.requests[rid].routed)| <= CAPACITY
    ensures !s.requests[rid].outcome.Severed?
  {
    ReachableInv(s);
    assert RequestOk(s, rid);
  }

  /** The pending table is exactly the set of live, unclosed requests, so its size is the number in
      flight; once every request has been dropped it is empty. */
  lemma TableAgreement(s: State)
    requires Reachable(s)
    ensures s.table == set rid | rid in s.requests && !s.requests[rid].cleaned && s.requests[rid].outcome.Open?
                                && !(s.reader.Delivering? && s.reader.rid == rid)
    ensures (forall rid :: rid in s.requests ==> s.requests[rid].cleaned) ==> |s.table| == 0
  {
    ReachableInv(s);
    forall rid | rid in s.requests ensures TableOk(s, rid) {}
  }

  // ------------------------------------------------------------------ sweeps

  /** An entry that is gone never comes back. */
  lemma {:induction false} ClosedForGood(s: State, es: seq<Event>, s': State, rid: Rid)
    requires IsRun(s, es, s') && rid in s.requests && rid !in s.table
    ensures rid in s'.requests && rid !in s'.table
    decreases |es|
  {
    if es != [] {
      ClosedForGood(Next(s, es[0]), es[1..], s', rid);
    }
  }

  lemma {:induction false} SweepRemembers(s: State, es: seq<Event>, s': State, k: SweepId)
    requires IsRun(s, es, s') && k in s.sweeps && EndSweep(k) !in es
    ensures k in s'.sweeps && s'.sweeps[k] == s.sweeps[k]
    decreases |es|
  {
    if es != [] {
      assert es[0] in es;
      SweepRemembers(Next(s, es[0]), es[1..], s', k);
    }
  }

  /** A sweep ends, by definition, when no entry it started with is left; whatever happened meanwhile and
      happens later, none of them ever comes back. */
  lemma SweepClears(s: State, during: seq<Event>, s1: State, k: SweepId, later: seq<Event>, s2: State)
    requires Inv(s) && Enabled(s, BeginSweep(k)) && IsRun(Next(s, BeginSweep(k)), during, s1)
    requires EndSweep(k) !in during && Enabled(s1, EndSweep(k)) && IsRun(Next(s1, EndSweep(k)), later, s2)
    ensures s.table !! s2.table
  {
    var begun := Next(s, BeginSweep(k));
    SweepRemembers(begun, during, s1, k);
    forall rid | rid in s.table ensures rid !in s2.table {
      RequestsStay(begun, during, s1);
      ClosedForGood(Next(s1, EndSweep(k)), later, s2, rid);
    }
  }

  lemma {:induction false} RequestsStay(s: State, es: seq<Event>, s': State)
    requires IsRun(s, es, s')
    ensures s.requests.Keys <= s'.requests.Keys
    decreases |es|
  {
    if es != [] {
      RequestsStay(Next(s, es[0]), es[1..], s');
    }
  }
}
