/** Folding the frames of one request into a plain HTTP answer, and what that answer says about the
    frames the node sent. */
module Collect {
  import opened Dispatch
  import opened DispatchProofs
  import Tunnel

  datatype Answer =
    | Collected(status: nat, body: string)
    | Failed(status: nat, message: string)

  /** `StatusCode::from_u16(code).unwrap_or(fallback)`. */
  function StatusOr(code: nat, fallback: nat): nat {
    if 100 <= code <= 999 then code else fallback
  }

  predicate Stops(f: Frame) {
    f.End? || f.Error?
  }

  /** The chunks of a list of frames, joined. */
  function ChunkText(fs: seq<Frame>): string {
    if fs == [] then "" else
      ChunkText(fs[..|fs| - 1]) + (if fs[|fs| - 1].Chunk? then fs[|fs| - 1].data else "")
  }

  /** The status of the last response frame, 200 without one. */
  function StatusSeen(fs: seq<Frame>): nat {
    if fs == [] then 200
    else if fs[|fs| - 1].Response? then StatusOr(fs[|fs| - 1].status, 200)
    else StatusSeen(fs[..|fs| - 1])
  }

  function Head(fs: seq<Frame>): (h: seq<Frame>)
    ensures h <= fs
    ensures forall f :: f in h ==> !Stops(f)
    ensures |h| < |fs| ==> Stops(fs[|h|])
  {
    if fs == [] || Stops(fs[0]) then [] else [fs[0]] + Head(fs[1..])
  }

  /** The answer for frames received before the channel closed or, if it did not, before the deadline. */
  function AnswerTo(fs: seq<Frame>, closed: bool): Answer {
    var head := Head(fs);
    if head == fs then
      (if closed then Collected(StatusSeen(fs), ChunkText(fs)) else Failed(504, "upstream timeout"))
    else
      match fs[|head|]
      case Error(code, message) => Failed(StatusOr(code, 502), message)
      case End(code) => Collected(StatusOr(code, StatusSeen(head)), ChunkText(head))
      case _ => Failed(504, "upstream timeout")
  }

  lemma {:induction false} HeadUpTo(fs: seq<Frame>, i: nat)
    requires i <= |fs| && (forall k :: 0 <= k < i ==> !Stops(fs[k])) && (i < |fs| ==> Stops(fs[i]))
    ensures Head(fs) == fs[..i]
    decreases i
  {
    if i > 0 {
      HeadUpTo(fs[1..], i - 1);
    }
  }

  /** What a caller is told, read off the frames themselves: the first end or error decides; without either
      the end of the channel does, or the deadline. */
  predicate AnsweredBy(frames: seq<Frame>, closed: bool, r: Answer) {
    && (!closed && (forall f | f in frames :: !f.End? && !f.Error?) ==> r == Failed(504, "upstream timeout"))
    && (closed && (forall f | f in frames :: !f.End? && !f.Error?) ==> r.Collected?)
    && forall i | 0 <= i < |frames| && (forall k | 0 <= k < i :: !frames[k].End? && !frames[k].Error?) ::
         AnsweredAt(frames[i], r)
  }

  predicate AnsweredAt(f: Frame, r: Answer) {
    match f
    case Error(code, message) => r == Failed(if 100 <= code <= 999 then code else 502, message)
    case End(code) => r.Collected? && (100 <= code <= 999 ==> r.status == code)
    case _ => true
  }

  method CollectHttpResponse(frames: seq<Frame>, closed: bool) returns (r: Answer)
    ensures r == AnswerTo(frames, closed) && AnsweredBy(frames, closed, r)
  {
    r := FoldFrames(frames, closed);
    AnswerIsAnswered(frames, closed);
  }

  /** The loop over the frames, and what the deadline makes of it. */
  method FoldFrames(frames: seq<Frame>, closed: bool) returns (r: Answer)
    ensures r == AnswerTo(frames, closed)
  {
    var status := 200;
    var body := "";
    var i := 0;
    while i < |frames|
      invariant 0 <= i <= |frames|
      invariant forall k :: 0 <= k < i ==> !Stops(frames[k])
      invariant status == StatusSeen(frames[..i]) && body == ChunkText(frames[..i])
    {
      assert frames[..i + 1][..i] == frames[..i];
      match frames[i] {
        case Response(s) => status := StatusOr(s, 200);
        case Chunk(data) => body := body + data;
        case End(s) =>
          HeadUpTo(frames, i);
          return Collected(StatusOr(s, status), body);
        case Error(code, message) =>
          HeadUpTo(frames, i);
          return Failed(StatusOr(code, 502), message);
        case ActivateResponse(_) =>
      }
      i := i + 1;
    }
    HeadUpTo(frames, i);
    assert frames[..i] == frames;
    r := if closed then Collected(status, body) else Failed(504, "upstream timeout");
  }

  lemma AnswerIsAnswered(frames: seq<Frame>, closed: bool)
    ensures AnsweredBy(frames, closed, AnswerTo(frames, closed))
  {
    var head := Head(frames);
    forall i | 0 <= i < |frames| && (forall k | 0 <= k < i :: !frames[k].End? && !frames[k].Error?)
      ensures AnsweredAt(frames[i], AnswerTo(frames, closed))
    {
      if Stops(frames[i]) { HeadUpTo(frames, i); }
    }
    if forall f | f in frames :: !f.End? && !f.Error? {
      HeadUpTo(frames, |frames|);
      assert frames[..|frames|] == frames;
    }
  }

  // ------------------------------------------------------------------ ordinary answers

  function Joined(ds: seq<string>): string {
    if ds == [] then "" else Joined(ds[..|ds| - 1]) + ds[|ds| - 1]
  }

  /** A status, chunks with these data, and the last frame. */
  function Ordinary(status: nat, ds: seq<string>, last: Frame): seq<Frame> {
    [Response(status)] + Chunks(ds) + [last]
  }

  function Chunks(ds: seq<string>): (fs: seq<Frame>)
    ensures |fs| == |ds|
    ensures forall f :: f in fs ==> f.Chunk?
  {
    if ds == [] then [] else Chunks(ds[..|ds| - 1]) + [Chunk(ds[|ds| - 1])]
  }

  lemma {:induction false} ChunksJoin(ds: seq<string>)
    ensures ChunkText(Chunks(ds)) == Joined(ds)
  {
    if ds != [] {
      var k := |ds| - 1;
      ChunksJoin(ds[..k]);
      assert Chunks(ds)[..k] == Chunks(ds[..k]);
    }
  }

  lemma {:induction false} StatusKept(fs: seq<Frame>, more: seq<Frame>)
    requires forall f :: f in more ==> !f.Response?
    ensures StatusSeen(fs + more) == StatusSeen(fs)
    decreases |more|
  {
    if more == [] {
      assert fs + more == fs;
    } else {
      var k := |more| - 1;
      assert (fs + more)[..|fs| + k] == fs + more[..k];
      assert more[k] in more && forall f :: f in more[..k] ==> f in more;
      StatusKept(fs, more[..k]);
    }
  }

  /** The status of the last response frame is kept, one that is no status counting as 200; frames of other
      kinds say nothing about it, and only chunks add text. */
  lemma StatusIsLast(fs: seq<Frame>, j: nat)
    requires j < |fs| && fs[j].Response? && forall k :: j < k < |fs| ==> !fs[k].Response?
    ensures StatusSeen(fs) == if 100 <= fs[j].status <= 999 then fs[j].status else 200
  {
    assert fs == fs[..j + 1] + fs[j + 1..];
    StatusKept(fs[..j + 1], fs[j + 1..]);
  }

  lemma NoStatus(fs: seq<Frame>)
    requires forall f :: f in fs ==> !f.Response?
    ensures StatusSeen(fs) == 200
  {
    assert [] + fs == fs;
    StatusKept([], fs);
  }

  lemma TextGrows(fs: seq<Frame>, f: Frame)
    ensures ChunkText(fs + [f]) == if f.Chunk? then ChunkText(fs) + f.data else ChunkText(fs)
  {
    assert (fs + [f])[..|fs|] == fs;
  }

  /** A whole ordinary answer: its own code if that is a status, otherwise the one of the first frame, else
      200; and the data joined in order. An error at the end is told instead. */
  lemma OrdinaryAnswer(status: nat, ds: seq<string>, last: Frame, closed: bool)
    requires last.End? || last.Error?
    ensures var r := AnswerTo(Ordinary(status, ds, last), closed);
      && (last.Error? ==> r == Failed(if 100 <= last.code <= 999 then last.code else 502, last.message))
      && (last.End? && 100 <= last.status <= 999 ==> r == Collected(last.status, Joined(ds)))
      && (last.End? && !(100 <= last.status <= 999) ==>
            r == Collected(if 100 <= status <= 999 then status else 200, Joined(ds)))
  {
    OrdinaryHead(status, ds, last);
    OrdinaryText(status, ds);
  }

  lemma OrdinaryHead(status: nat, ds: seq<string>, last: Frame)
    requires last.End? || last.Error?
    ensures var fs, head := Ordinary(status, ds, last), [Response(status)] + Chunks(ds);
      Head(fs) == head && |head| < |fs| && fs[|head|] == last
  {
    var fs, head := Ordinary(status, ds, last), [Response(status)] + Chunks(ds);
    assert fs[..|head|] == head && forall k :: 0 < k < |head| ==> head[k] in Chunks(ds);
    HeadUpTo(fs, |head|);
  }

  lemma OrdinaryText(status: nat, ds: seq<string>)
    ensures var head := [Response(status)] + Chunks(ds);
      ChunkText(head) == Joined(ds) && StatusSeen(head) == if 100 <= status <= 999 then status else 200
  {
    var one := [Response(status)];
    StatusKept(one, Chunks(ds));
    ChunkTextAppend(one, Chunks(ds));
    ChunksJoin(ds);
    assert one[..0] == [] && ChunkText(one) == "" && "" + Joined(ds) == Joined(ds);
  }

  /** End to end, in the plainest terms: a listener to whom the node sends at most 256 frames, a status,
      chunks and an end with a status, is told that status and the chunks' data joined, unless the table was
      swept first. */
  lemma OrdinaryEndToEnd(s: State, rid: Rid, status: nat, ds: seq<string>, code: nat)
    requires Reachable(s) && rid in s.requests && s.requests[rid].listening && AtEnd(s, rid)
    requires s.requests[rid].routed == Ordinary(status, ds, End(code)) && |ds| + 2 <= 256 && 100 <= code <= 999
    requires !s.requests[rid].outcome.Disconnected?
    ensures AnswerTo(s.requests[rid].received, true) == Collected(code, Joined(ds))
  {
    OrdinaryIsWhole(status, ds, code);
    FewFramesAreSafe(s, rid);
    CompleteAtEnd(s, rid);
    OrdinaryAnswer(status, ds, End(code), true);
  }

  lemma OrdinaryIsWhole(status: nat, ds: seq<string>, code: nat)
    ensures var fs := Ordinary(status, ds, End(code));
      Cut(fs) == fs && |fs| == |ds| + 2
  {
    var past := [Response(status)] + Chunks(ds);
    assert NoTerminal(past);
    CutGrow(past, End(code));
  }

  lemma {:induction false} ChunkTextAppend(a: seq<Frame>, b: seq<Frame>)
    ensures ChunkText(a + b) == ChunkText(a) + ChunkText(b)
    decreases |b|
  {
    if b == [] {
      assert a + b == a;
    } else {
      ChunkTextAppend(a, b[..|b| - 1]);
      assert (a + b)[..|a + b| - 1] == a + b[..|b| - 1];
    }
  }

  /** A proper prefix of the cut frames holds no terminal frame. */
  lemma NoStopInside(d: seq<Frame>, fs: seq<Frame>)
    requires d <= Cut(fs) && (d != Cut(fs) || NoTerminal(fs))
    ensures NoTerminal(d) && Head(d) == d
  {
    CutPrefix(fs);
    var cut := Cut(fs);
    forall f | f in d ensures !Terminal(f) {
      var i :| 0 <= i < |d| && d[i] == f;
      if NoTerminal(fs) { assert cut[i] in fs; } else { assert cut[i] in cut[..|cut| - 1]; }
    }
    assert forall k :: 0 <= k < |d| ==> d[k] in d;
    HeadUpTo(d, |d|);
    assert d[..|d|] == d;
  }

  /** The answer that the frames up to a terminal one deserve. */
  predicate Truthful(sent: seq<Frame>, r: Answer)
    requires sent != []
  {
    match sent[|sent| - 1]
    case End(code) => r == Collected(StatusOr(code, StatusSeen(sent[..|sent| - 1])), ChunkText(sent))
    case Error(code, message) => r == Failed(StatusOr(code, 502), message)
    case _ => r == Collected(StatusSeen(sent), ChunkText(sent))
  }

  /** The channel refused the frames of `sent` after `got`: the body is complete only by luck. */
  predicate Truncated(got: seq<Frame>, sent: seq<Frame>, r: Answer) {
    && got < sent
    && r == Collected(StatusSeen(got), ChunkText(got))
    && (r.body == ChunkText(sent) <==> ChunkText(sent[|got|..]) == "")
  }

  /** A sweep closed the entry when the channel had been given n frames: an error if there was room for
      one, otherwise an answer made of these frames. */
  predicate CutOff(sent: seq<Frame>, n: nat, r: Answer) {
    && n <= |sent|
    && (r == Failed(502, DISCONNECT.message) || r == Collected(StatusSeen(sent[..n]), ChunkText(sent[..n])))
  }

  /** What the caller is told who got the frames `got` of those the node sent up to its first terminal
      one, by the way its entry was closed. */
  predicate Told(outcome: Outcome, sent: seq<Frame>, got: seq<Frame>) {
    var r := AnswerTo(got, true);
    match outcome
    case Open => false
    case Ended => sent != [] && Truthful(sent, r)
    case Severed => Truncated(got, sent, r)
    case Disconnected(n) => CutOff(sent, n, r)
  }

  /** End to end: what the node sent for a request against what its caller is told once the stream has
      ended. */
  lemma EndToEnd(s: State, rid: Rid)
    requires Reachable(s) && rid in s.requests && s.requests[rid].listening && AtEnd(s, rid)
    ensures var q := s.requests[rid]; Told(q.outcome, Cut(q.routed), q.received)
  {
    CompleteAtEnd(s, rid);
    var q := s.requests[rid];
    var sent := Cut(q.routed);
    CutPrefix(q.routed);
    if q.outcome.Ended? {
      EndedAnswer(q.routed);
    } else if q.outcome.Severed? {
      NoStopInside(q.received, q.routed);
      assert sent == q.received + sent[|q.received|..];
      ChunkTextAppend(q.received, sent[|q.received|..]);
    } else {
      var n := q.outcome.upTo;
      NeverCut(q.routed, n);
      InterruptedAnswer(q.routed[..n]);
      assert sent[..n] == q.routed[..n];
    }
  }

  /** The same before the receiver has drained its channel. */
  lemma {:induction false} ToldInTheEnd(s: State, rid: Rid)
    requires Reachable(s) && rid in s.requests && s.requests[rid].listening
    requires rid !in s.table && !Busy(s, rid)
    ensures var q := s.requests[rid]; Told(q.outcome, Cut(q.routed), Delivered(q))
    decreases if rid in s.requests then |s.requests[rid].buffer| else 0
  {
    var q := s.requests[rid];
    if q.buffer == [] {
      EndToEnd(s, rid);
      assert Delivered(q) == q.received;
    } else {
      Tunnel.ReachNext(s, Pop(rid));
      var s' := Next(s, Pop(rid));
      ToldInTheEnd(s', rid);
      assert Delivered(s'.requests[rid]) == Delivered(q);
    }
  }

  lemma InterruptedAnswer(got: seq<Frame>)
    requires NoTerminal(got)
    ensures AnswerTo(got, true) == Collected(StatusSeen(got), ChunkText(got))
    ensures AnswerTo(got + [DISCONNECT], true) == Failed(502, DISCONNECT.message)
  {
    CutPrefix(got);
    NoStopInside(got, got);
    var all := got + [DISCONNECT];
    assert all[..|got|] == got && forall k :: 0 <= k < |got| ==> got[k] in got;
    HeadUpTo(all, |got|);
  }

  lemma EndedAnswer(routed: seq<Frame>)
    requires !NoTerminal(routed)
    ensures Cut(routed) != [] && Truthful(Cut(routed), AnswerTo(Cut(routed), true))
  {
    CutPrefix(routed);
    var sent := Cut(routed);
    var n := |sent| - 1;
    assert sent == sent[..n] + [sent[n]];
    TerminalAnswer(sent[..n], sent[n]);
  }

  lemma TerminalAnswer(past: seq<Frame>, f: Frame)
    requires NoTerminal(past) && Terminal(f)
    ensures Truthful(past + [f], AnswerTo(past + [f], true))
  {
    var sent := past + [f];
    assert sent[..|past|] == past && sent[..|sent|] == sent;
    assert forall k :: 0 <= k < |past| ==> sent[k] in past;
    HeadUpTo(sent, if Stops(f) then |past| else |sent|);
    assert ChunkText(sent) == ChunkText(past) + "";
  }

  // ------------------------------------------------------------------ a full channel truncates silently

  function Copies(n: nat): (fs: seq<Frame>)
    ensures |fs| == n && forall f :: f in fs ==> f == Chunk("x")
  {
    if n == 0 then [] else Copies(n - 1) + [Chunk("x")]
  }

  lemma {:induction false} CopiesAre(n: nat)
    ensures |ChunkText(Copies(n))| == n && StatusSeen(Copies(n)) == 200
  {
    if n > 0 {
      var less, one := Copies(n - 1), Chunk("x");
      CopiesAre(n - 1);
      TextGrows(less, one);
      StatusKept(less, [one]);
    }
  }

  function Filled(n: nat): State {
    State({0}, map[0 := Request(Copies(n), [], Copies(n), true, false, Open)], Reading, map[])
  }

  lemma {:induction false} ReachFilled(n: nat)
    requires n <= CAPACITY
    ensures Reachable(Filled(n))
    decreases n
  {
    if n == 0 {
      assert IsRun(INITIAL, [], INITIAL);
      Tunnel.ReachNext(INITIAL, Register(0));
      assert Next(INITIAL, Register(0)) == Filled(0);
    } else {
      ReachFilled(n - 1);
      Tunnel.RouteReaches(Filled(n - 1), 0, Chunk("x"));
      assert Filled(n - 1).requests[0 := Request(Copies(n), [], Copies(n), true, false, Open)] == Filled(n).requests;
    }
  }

  /** The channel is full when one more chunk arrives; the receiver has taken k frames since. */
  function Overflown(k: nat): State
    requires k <= CAPACITY
  {
    var full := Copies(CAPACITY);
    State({}, map[0 := Request(full[k..], full[..k], Copies(CAPACITY + 1), true, false, Severed)], Reading, map[])
  }

  lemma {:induction false} ReachOverflown(k: nat)
    requires k <= CAPACITY
    ensures Reachable(Overflown(k))
    decreases k
  {
    var full := Copies(CAPACITY);
    if k == 0 {
      ReachFilled(CAPACITY);
      Tunnel.RouteReaches(Filled(CAPACITY), 0, Chunk("x"));
      assert full[0..] == full && full[..0] == [];
      assert Filled(CAPACITY).requests[0 := Overflown(0).requests[0]] == Overflown(0).requests;
      assert {0} - {0} == {};
    } else {
      ReachOverflown(k - 1);
      OverflownPop(k);
      Tunnel.ReachNext(Overflown(k - 1), Pop(0));
    }
  }

  lemma OverflownPop(k: nat)
    requires 0 < k <= CAPACITY
    ensures Enabled(Overflown(k - 1), Pop(0)) && Next(Overflown(k - 1), Pop(0)) == Overflown(k)
  {
    var full := Copies(CAPACITY);
    assert full[..k - 1] + [full[k - 1..][0]] == full[..k] && full[k - 1..][1..] == full[k..];
    assert Next(Overflown(k - 1), Pop(0)).requests == Overflown(k).requests;
  }

  /** The stream of request 0 has ended; 257 characters were sent, 256 are reported, with status 200. */
  predicate SilentlyTruncated(s: State) {
    && 0 in s.requests && s.requests[0].listening && AtEnd(s, 0)
    && AnswerTo(s.requests[0].received, true) == Collected(200, ChunkText(s.requests[0].received))
    && |ChunkText(s.requests[0].received)| == 256 && |ChunkText(s.requests[0].routed)| == 257
  }

  /** A caller can be told 200 with a body that lacks chunks the node sent. */
  lemma SilentTruncation()
    ensures exists s: State :: Reachable(s) && SilentlyTruncated(s)
  {
    ReachOverflown(CAPACITY);
    OverflownIsTruncated();
  }

  /** No listener is cut off whose request has at most n frames up to the terminal one. */
  ghost predicate NeverCutOff(n: nat) {
    forall s: State, rid: Rid :: Reachable(s) && Listens(s, rid, n) ==> !s.requests[rid].outcome.Severed?
  }

  predicate Listens(s: State, rid: Rid, n: nat) {
    rid in s.requests && s.requests[rid].listening && |Cut(s.requests[rid].routed)| <= n
  }

  /** The exact threshold is the capacity of the channel. */
  lemma TruncationThreshold(n: nat)
    ensures NeverCutOff(n) <==> n <= CAPACITY
  {
    if n <= CAPACITY {
      forall s: State, rid: Rid | Reachable(s) && Listens(s, rid, n) ensures !s.requests[rid].outcome.Severed? {
        FewFramesAreSafe(s, rid);
      }
    } else {
      ReachOverflown(CAPACITY);
      CutPrefix(Copies(CAPACITY + 1));
      assert Listens(Overflown(CAPACITY), 0, n);
    }
  }

  lemma OverflownIsTruncated()
    ensures SilentlyTruncated(Overflown(CAPACITY))
  {
    var full := Copies(CAPACITY);
    assert full[..CAPACITY] == full && full[CAPACITY..] == [];
    CopiesAre(CAPACITY);
    CopiesAre(CAPACITY + 1);
    assert forall k :: 0 <= k < |full| ==> full[k] in full;
    HeadUpTo(full, CAPACITY);
  }
}
