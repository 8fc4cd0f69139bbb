/** Streams end to end: what the node sent for a request against what a streaming client is sent and
    billed, through the multiplexer, the bridge and the meter. */
module StreamAnswers {
  import opened Dispatch
  import opened DispatchProofs
  import opened Metering
  import opened StreamMetering
  import C = Collect
  import Sse

  /** The stream meets these frames, and then `last`. */
  function Turns(fs: seq<Frame>, last: Sse.Turn): seq<Sse.Turn> {
    if fs == [] then [last] else [Sse.Got(fs[0])] + Turns(fs[1..], last)
  }

  /** The node's text as the client gets it. */
  function Passed(fs: seq<Frame>, last: Sse.Turn): string {
    Concat(Sse.Taken(Turns(fs, last)))
  }

  // ------------------------------------------------------------------ a stream of frames

  lemma {:induction false} ConcatCons(a: string, cs: seq<string>)
    ensures Concat([a] + cs) == a + Concat(cs)
  {
    var all := [a] + cs;
    if cs == [] {
      assert all == [a] && [a][..0] == [];
    } else {
      ConcatCons(a, cs[..|cs| - 1]);
      assert all[..|all| - 1] == [a] + cs[..|cs| - 1];
    }
  }

  lemma ChunkTextCons(f: Frame, fs: seq<Frame>)
    ensures C.ChunkText([f] + fs) == (if f.Chunk? then f.data else "") + C.ChunkText(fs)
  {
    C.ChunkTextAppend([f], fs);
    assert [f][..0] == [];
  }

  /** Chunks are passed on verbatim and in order, up to the first frame that stops the stream. */
  lemma {:induction false} PassedIs(fs: seq<Frame>, last: Sse.Turn)
    requires !last.Got?
    ensures Passed(fs, last) == C.ChunkText(C.Head(fs))
    decreases |fs|
  {
    if fs != [] && !C.Stops(fs[0]) {
      var rest := Turns(fs[1..], last);
      PassedIs(fs[1..], last);
      assert Turns(fs, last)[1..] == rest;
      ChunkTextCons(fs[0], C.Head(fs[1..]));
      if fs[0].Chunk? { ConcatCons(fs[0].data, Sse.Taken(rest)); }
    }
  }

  function ErrorLines(f: Frame): seq<string> {
    if f.Error? then [Sse.ErrorLine(f.message)] else []
  }

  /** The error line, if these frames stop at an error. */
  function OwnLines(fs: seq<Frame>): seq<string> {
    if C.Head(fs) == fs then [] else ErrorLines(fs[|C.Head(fs)|])
  }

  /** The stream that ends with its channel says goodbye only to repeat the node's error, and meters. */
  lemma {:induction false} GoodbyeIs(fs: seq<Frame>)
    ensures var turns := Turns(fs, Sse.ChannelClosed);
      Sse.Finishes(turns) && Sse.Farewell(turns) == OwnLines(fs)
    decreases |fs|
  {
    if fs != [] {
      assert Turns(fs, Sse.ChannelClosed)[1..] == Turns(fs[1..], Sse.ChannelClosed);
      if C.Stops(fs[0]) {
        TurnsNext(fs[1..]);
      } else {
        GoodbyeIs(fs[1..]);
        assert fs == [fs[0]] + fs[1..];
      }
    }
  }

  lemma TurnsNext(fs: seq<Frame>)
    ensures Turns(fs, Sse.ChannelClosed) != [] && Turns(fs, Sse.ChannelClosed)[0] != Sse.Dropped
  {}

  // ------------------------------------------------------------------ end to end

  /** What a streaming client is told who got the frames `got` of those the node sent up to its first
      terminal one, by the way its entry was closed: all of the text; the text of a proper beginning, and
      no sign of the loss; or the text of the first n frames, and perhaps an error. */
  predicate Heard(outcome: Outcome, sent: seq<Frame>, got: seq<Frame>, text: string, own: seq<string>) {
    match outcome
    case Open => false
    case Ended => sent != [] && text == C.ChunkText(sent) && own == ErrorLines(sent[|sent| - 1])
    case Severed => got < sent && text == C.ChunkText(got) && own == []
    case Disconnected(n) =>
      && n <= |sent| && text == C.ChunkText(sent[..n])
      && (own == [] || own == ErrorLines(DISCONNECT))
  }

  /** End to end: the stream has met everything its channel was given. */
  lemma StreamEndToEnd(s: State, rid: Rid)
    requires Reachable(s) && rid in s.requests && s.requests[rid].listening && AtEnd(s, rid)
    ensures var q := s.requests[rid];
      Heard(q.outcome, Cut(q.routed), q.received,
            Passed(q.received, Sse.ChannelClosed), Sse.Farewell(Turns(q.received, Sse.ChannelClosed)))
  {
    var q := s.requests[rid];
    CompleteAtEnd(s, rid);
    PassedIs(q.received, Sse.ChannelClosed);
    GoodbyeIs(q.received);
    match q.outcome {
      case Open =>
      case Ended => HeardEnded(q.routed);
      case Severed => C.NoStopInside(q.received, q.routed);
      case Disconnected(n) => HeardInterrupted(q.received, q.routed, n);
    }
  }

  lemma HeardEnded(routed: seq<Frame>)
    requires !NoTerminal(routed)
    ensures var sent := Cut(routed); Heard(Ended, sent, sent, C.ChunkText(C.Head(sent)), OwnLines(sent))
  {
    CutPrefix(routed);
    var sent := Cut(routed);
    var k := |sent| - 1;
    HeardAtEnd(sent, sent[..k], sent[k]);
  }

  lemma HeardAtEnd(sent: seq<Frame>, past: seq<Frame>, f: Frame)
    requires sent == past + [f] && NoTerminal(past) && Terminal(f)
    ensures Heard(Ended, sent, sent, C.ChunkText(C.Head(sent)), OwnLines(sent))
  {
    HeadOfEnded(past, f);
  }

  lemma HeardInterrupted(got: seq<Frame>, routed: seq<Frame>, n: nat)
    requires n <= |routed| && NoTerminal(routed[..n]) && (got == routed[..n] || Interrupted(got, routed, n))
    ensures Heard(Disconnected(n), Cut(routed), got, C.ChunkText(C.Head(got)), OwnLines(got))
  {
    NeverCut(routed, n);
    InterruptedText(routed[..n]);
    assert Cut(routed)[..n] == routed[..n];
  }

  lemma HeadOfEnded(past: seq<Frame>, f: Frame)
    requires NoTerminal(past) && Terminal(f)
    ensures C.Head(past + [f]) == if C.Stops(f) then past else past + [f]
    ensures C.ChunkText(past + [f]) == C.ChunkText(past)
  {
    var all := past + [f];
    assert all[..|past|] == past && all[..|all|] == all;
    assert forall i :: 0 <= i < |past| ==> all[i] in past;
    C.HeadUpTo(all, if C.Stops(f) then |past| else |all|);
    assert C.ChunkText(all) == C.ChunkText(past) + "";
  }

  lemma InterruptedText(got: seq<Frame>)
    requires NoTerminal(got)
    ensures C.Head(got) == got
    ensures var all := got + [DISCONNECT]; C.Head(all) == got && all[|got|] == DISCONNECT
  {
    CutPrefix(got);
    C.NoStopInside(got, got);
    var all := got + [DISCONNECT];
    assert all[..|got|] == got && forall k :: 0 <= k < |got| ==> got[k] in got;
    C.HeadUpTo(all, |got|);
  }

  // ------------------------------------------------------------------ at any moment, and the bill

  lemma {:induction false} HeadGrows(a: seq<Frame>, b: seq<Frame>)
    requires a <= b
    ensures C.Head(a) <= C.Head(b)
    decreases |a|
  {
    if a != [] && !C.Stops(a[0]) {
      HeadGrows(a[1..], b[1..]);
    }
  }

  lemma ChunkTextGrows(a: seq<Frame>, b: seq<Frame>)
    requires a <= b
    ensures C.ChunkText(a) <= C.ChunkText(b)
  {
    assert b == a + b[|a|..];
    C.ChunkTextAppend(a, b[|a|..]);
  }

  /** Whenever and however the stream ends, by a timeout or because the client leaves included, the client
      has been given a beginning of the text the node sent, verbatim. */
  lemma NothingInvented(s: State, rid: Rid, met: seq<Frame>, last: Sse.Turn)
    requires Reachable(s) && rid in s.requests && met <= s.requests[rid].received && !last.Got?
    ensures Passed(met, last) <= C.ChunkText(Cut(s.requests[rid].routed))
  {
    var q := s.requests[rid];
    Faithful(s, rid);
    PassedIs(met, last);
    HeadGrows(met, q.received);
    ChunkTextGrows(C.Head(met), C.Head(q.received));
    if q.received <= Cut(q.routed) {
      ChunkTextGrows(C.Head(q.received), Cut(q.routed));
    } else {
      var n := q.outcome.upTo;
      NeverCut(q.routed, n);
      InterruptedText(q.routed[..n]);
      ChunkTextGrows(q.routed[..n], Cut(q.routed));
    }
  }

  /** The bill: when the node sends a well-formed stream, whatever the chunks and whatever is lost on the
      way, a stream that is met to its end is billed as one scan of the text the client was given, on
      events the node did send; when the entry ended normally and the node sent the whole stream, the bill
      is what the payloads say. */
  lemma StreamBill(lib: Library, s: State, rid: Rid, ps: seq<string>)
    requires Reachable(s) && rid in s.requests && s.requests[rid].listening && AtEnd(s, rid)
    requires JsonLibrary(lib) && Payloads(lib, ps) && C.ChunkText(Cut(s.requests[rid].routed)) <= Render(ps)
    ensures var q := s.requests[rid];
      var text := Passed(q.received, Sse.ChannelClosed);
      var sent := C.ChunkText(Cut(q.routed));
      var bill := Sse.Completion(lib, Turns(q.received, Sse.ChannelClosed)).usage;
      && bill == Extract(lib, text) && Events(lib, text) <= Events(lib, sent)
      && (q.outcome.Ended? ==> bill == Extract(lib, sent))
      && (q.outcome.Ended? && sent == Render(ps) ==> bill == UsageOfEvents(lib, Meaning(lib, ps)))
  {
    var q := s.requests[rid];
    var turns := Turns(q.received, Sse.ChannelClosed);
    NothingInvented(s, rid, q.received, Sse.ChannelClosed);
    GoodbyeIs(q.received);
    ChunkingIndependence(lib, ps, Sse.Taken(turns));
    EventsGrow(lib, ps, Passed(q.received, Sse.ChannelClosed), C.ChunkText(Cut(q.routed)));
    StreamEndToEnd(s, rid);
    EventsOfStream(lib, ps);
  }
}
