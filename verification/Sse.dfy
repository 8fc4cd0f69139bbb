/** The streaming bridge: chunks are passed on verbatim, usage is metered on the way, and the capacity
    guard and the completion callback are used up exactly once, however the stream ends. */
module Sse {
  import opened Wrappers
  import opened Dispatch
  import opened Metering
  import opened StreamMetering
  import Q = Quoting
  import CM = CapacityMachine
  import CD = CapacityDriver
  import CT = CapacityTracker

  /** What completion does to the outside, in order. */
  datatype Effect =
    | ReleaseGuard
    | Complete(usage: Option<Usage>, length: nat, hasSparkl: bool)

  /** What the generator meets at each of its suspension points: a frame, the end of the channel, the
      deadline, or the response being dropped by the HTTP side. */
  datatype Turn = Got(frame: Frame) | ChannelClosed | TimeUp | Dropped

  const TIMEOUT_LINE := "data: {\"error\":\"timeout\"}\n\n"

  predicate Contains(s: string, needle: string) {
    |needle| <= |s| && (s[..|needle|] == needle || (s != "" && Contains(s[1..], needle)))
  }

  /** The chunks passed on before the stream stops. */
  function Taken(turns: seq<Turn>): seq<string> {
    if turns == [] then []
    else match turns[0]
      case Got(Chunk(data)) => [data] + Taken(turns[1..])
      case Got(Response(_)) => Taken(turns[1..])
      case Got(ActivateResponse(_)) => Taken(turns[1..])
      case _ => []
  }

  /** The generator reaches its completion call itself; otherwise it is dropped at a suspension point. An
      error or timeout line is yielded first, and the stream can be dropped right there. */
  predicate Finishes(turns: seq<Turn>) {
    turns != [] &&
    match turns[0]
    case Got(End(_)) => true
    case ChannelClosed => true
    case Dropped => false
    case Got(Error(_, _)) => |turns| > 1 && turns[1] != Dropped
    case TimeUp => |turns| > 1 && turns[1] != Dropped
    case Got(_) => Finishes(turns[1..])
  }

  /** The one completion a stream reports. */
  function Completion(lib: Library, turns: seq<Turn>): Effect {
    if Finishes(turns) then
      var text := Concat(Taken(turns));
      Complete(Reported(lib, Taken(turns)), |text|, Contains(text, "\"sparkl\""))
    else Complete(None, 0, false)
  }

  /** The running text and the kept answer after the chunks `cs`. */
  ghost predicate Metered(lib: Library, cs: seq<string>, accumulated: string, latest: Option<Usage>) {
    accumulated == Concat(cs) && latest == LastSome(Answers(lib, cs))
  }

  method PushChunk(lib: Library, ghost cs: seq<string>, accumulated: string, latest: Option<Usage>, data: string)
    returns (accumulated': string, latest': Option<Usage>)
    requires Metered(lib, cs, accumulated, latest)
    ensures Metered(lib, cs + [data], accumulated', latest')
  {
    StepAnswers(lib, cs, data);
    accumulated' := accumulated + data;
    latest' := latest;
    var u := Scanned(lib, accumulated');
    if u.Some? { latest' := u; }
  }

  method FinalUsage(lib: Library, ghost cs: seq<string>, accumulated: string, latest: Option<Usage>)
    returns (usage: Option<Usage>)
    requires Metered(lib, cs, accumulated, latest)
    ensures usage == Reported(lib, cs)
  {
    usage := latest;
    if latest.None? { usage := Scanned(lib, accumulated); }
  }

  /** A turn that stops the stream: everything but a chunk or a frame that is ignored. */
  predicate Stopping(turn: Turn) {
    !turn.Got? || turn.frame.End? || turn.frame.Error?
  }

  lemma PassOver(turns: seq<Turn>, i: nat)
    requires i < |turns| && !Stopping(turns[i])
    ensures Taken(turns[i..]) == (if turns[i].frame.Chunk? then [turns[i].frame.data] else []) + Taken(turns[i + 1..])
    ensures Finishes(turns[i..]) == Finishes(turns[i + 1..]) && Farewell(turns[i..]) == Farewell(turns[i + 1..])
  {
    assert turns[i..][1..] == turns[i + 1..];
  }

  /** The stream has passed `sent` on in its first i turns, and what is to come is in the rest. */
  ghost predicate Passed(turns: seq<Turn>, i: nat, sent: seq<string>) {
    && i <= |turns| && Taken(turns) == sent + Taken(turns[i..])
    && Finishes(turns) == Finishes(turns[i..]) && Farewell(turns) == Farewell(turns[i..])
  }

  lemma PassedNext(turns: seq<Turn>, i: nat, sent: seq<string>)
    requires i < |turns| && !Stopping(turns[i]) && Passed(turns, i, sent)
    ensures Passed(turns, i + 1, if turns[i].frame.Chunk? then sent + [turns[i].frame.data] else sent)
  {
    PassOver(turns, i);
    var rest := Taken(turns[i + 1..]);
    if turns[i].frame.Chunk? {
      assert sent + ([turns[i].frame.data] + rest) == sent + [turns[i].frame.data] + rest;
    } else {
      assert [] + rest == rest;
    }
  }

  lemma StopAt(turns: seq<Turn>, i: nat)
    requires i < |turns| && Stopping(turns[i])
    ensures Taken(turns[i..]) == []
    ensures Farewell(turns[i..]) == if Announces(turns[i]) then [LineFor(turns[i])] else []
    ensures Finishes(turns[i..]) <==>
      !turns[i].Dropped? && (Announces(turns[i]) ==> i + 1 < |turns| && !turns[i + 1].Dropped?)
  {}

  /** The stream says goodbye with a line of its own, and can be dropped while that line is out. */
  predicate Announces(turn: Turn) {
    turn.TimeUp? || (turn.Got? && turn.frame.Error?)
  }

  function LineFor(turn: Turn): string
    requires Announces(turn)
  {
    if turn.TimeUp? then TIMEOUT_LINE else ErrorLine(turn.frame.message)
  }

  /** The line of its own with which the stream ends, if it does. */
  function Farewell(turns: seq<Turn>): seq<string> {
    if turns == [] then []
    else if Announces(turns[0]) then [LineFor(turns[0])]
    else if Stopping(turns[0]) then []
    else Farewell(turns[1..])
  }

  // ------------------------------------------------------------------ streams in plain terms

  function ChunkTurns(ds: seq<string>, rest: seq<Turn>): seq<Turn> {
    if ds == [] then rest else [Got(Chunk(ds[0]))] + ChunkTurns(ds[1..], rest)
  }

  /** After the chunks `ds` the stream goes on as `rest` does. */
  ghost predicate GoesOn(turns: seq<Turn>, ds: seq<string>, rest: seq<Turn>) {
    Taken(turns) == ds + Taken(rest) && Finishes(turns) == Finishes(rest) && Farewell(turns) == Farewell(rest)
  }

  lemma OneChunk(d: string, rest: seq<Turn>)
    ensures GoesOn([Got(Chunk(d))] + rest, [d], rest)
  {
    assert ([Got(Chunk(d))] + rest)[1..] == rest;
  }

  lemma {:induction false} ChunksThen(ds: seq<string>, rest: seq<Turn>)
    ensures GoesOn(ChunkTurns(ds, rest), ds, rest)
  {
    if ds == [] {
      assert ds + Taken(rest) == Taken(rest);
    } else {
      ChunksThen(ds[1..], rest);
      OneChunk(ds[0], ChunkTurns(ds[1..], rest));
      assert [ds[0]] + (ds[1..] + Taken(rest)) == ds + Taken(rest);
    }
  }

  /** The frame of a status, or of an activation, leaves no trace in a stream. */
  lemma Ignored(frame: Frame, rest: seq<Turn>)
    requires frame.Response? || frame.ActivateResponse?
    ensures GoesOn([Got(frame)] + rest, [], rest)
  {
    assert ([Got(frame)] + rest)[1..] == rest;
    assert [] + Taken(rest) == Taken(rest);
  }

  /** A turn that is the stream's last but for the moment its own line is out. */
  predicate EndsIt(last: Turn) {
    last.ChannelClosed? || last.Dropped? || last.TimeUp? || (last.Got? && (last.frame.End? || last.frame.Error?))
  }

  function MeteredOn(lib: Library, ds: seq<string>): Effect {
    Complete(Reported(lib, ds), |Concat(ds)|, Contains(Concat(ds), "\"sparkl\""))
  }

  predicate Quietly(last: Turn) {
    last.ChannelClosed? || (last.Got? && last.frame.End?)
  }

  predicate GoneAt(turns: seq<Turn>) {
    turns == [] || turns[0].Dropped?
  }

  /** After its chunks a stream that ends, or whose channel does, is metered on them and adds nothing; one
      that is dropped is metered as nothing; one that runs out of time, or meets an error, says so in one
      line, and is metered if it is polled again. */
  lemma PlainStreams(lib: Library, ds: seq<string>, last: Turn, rest: seq<Turn>)
    requires EndsIt(last)
    ensures var turns := ChunkTurns(ds, [last] + rest);
      && Taken(turns) == ds
      && (last.Dropped? ==> Farewell(turns) == [] && Completion(lib, turns) == Complete(None, 0, false))
      && (Quietly(last) ==> Farewell(turns) == [] && Completion(lib, turns) == MeteredOn(lib, ds))
      && (last.TimeUp? ==> Farewell(turns) == ["data: {\"error\":\"timeout\"}\n\n"])
      && (last.Got? && last.frame.Error? ==>
            Farewell(turns) == ["data: {\"error\":" + Q.Quoted(last.frame.message) + "}\n\n"])
      && (!last.Dropped? && !Quietly(last) ==>
            Completion(lib, turns) == if GoneAt(rest) then Complete(None, 0, false) else MeteredOn(lib, ds))
  {
    ChunksThen(ds, [last] + rest);
    assert ds + [] == ds;
  }

  ghost predicate OccursAt(s: string, needle: string, i: nat) {
    i + |needle| <= |s| && s[i..i + |needle|] == needle
  }

  /** What it means that the text holds the mark of a receipt. */
  lemma ContainsIs(s: string, needle: string)
    ensures Contains(s, needle) <==> exists i: nat :: OccursAt(s, needle, i)
  {
    if Contains(s, needle) {
      var i := PlaceOf(s, needle);
    }
    if i: nat :| OccursAt(s, needle, i) { FoundAt(s, needle, i); }
  }

  lemma {:induction false} PlaceOf(s: string, needle: string) returns (i: nat)
    requires Contains(s, needle)
    ensures OccursAt(s, needle, i)
  {
    if s[..|needle|] == needle { return 0; }
    var k := PlaceOf(s[1..], needle);
    i := k + 1;
    assert s[i..i + |needle|] == s[1..][k..k + |needle|];
  }

  lemma {:induction false} FoundAt(s: string, needle: string, i: nat)
    requires OccursAt(s, needle, i)
    ensures Contains(s, needle)
    decreases i
  {
    if i > 0 {
      assert s[1..][i - 1..i - 1 + |needle|] == s[i..i + |needle|];
      FoundAt(s[1..], needle, i - 1);
    }
  }

  /** The chunks up to the turn that stops the stream. */
  method PassChunks(lib: Library, turns: seq<Turn>)
    returns (i: nat, sent: seq<string>, accumulated: string, latest: Option<Usage>)
    ensures i <= |turns| && (i < |turns| ==> Stopping(turns[i]))
    ensures Passed(turns, i, sent) && Metered(lib, sent, accumulated, latest)
  {
    i, sent, accumulated, latest := 0, [], "", None;
    assert turns[0..] == turns && sent + Taken(turns) == Taken(turns);
    while i < |turns| && !Stopping(turns[i])
      invariant i <= |turns| && Passed(turns, i, sent) && Metered(lib, sent, accumulated, latest)
    {
      PassedNext(turns, i, sent);
      if turns[i].frame.Chunk? {
        var data := turns[i].frame.data;
        accumulated, latest := PushChunk(lib, sent, accumulated, latest, data);
        sent := sent + [data];
      }
      i := i + 1;
    }
  }

  /** The generator of the stream: what is sent on, and what it knows when it stops. */
  method Consume(lib: Library, turns: seq<Turn>)
    returns (sent: seq<string>, finished: bool, usage: Option<Usage>, accumulated: string)
    ensures finished <==> Finishes(turns)
    ensures sent == Taken(turns) + Farewell(turns)
    ensures finished ==> usage == Reported(lib, Taken(turns)) && accumulated == Concat(Taken(turns))
  {
    var i, latest;
    i, sent, accumulated, latest := PassChunks(lib, turns);
    ghost var cs := sent;
    finished, usage := false, None;
    if i == |turns| { return; }
    StopAt(turns, i);
    assert cs == Taken(turns);
    var turn := turns[i];
    if turn.Dropped? { return; }
    if Announces(turn) {
      sent := sent + [LineFor(turn)];
      if i + 1 == |turns| || turns[i + 1].Dropped? { return; }
    }
    finished := true;
    usage := FinalUsage(lib, cs, accumulated, latest);
  }

  /** `extract_usage_from_sse_body` on the text so far. */
  method Scanned(lib: Library, text: string) returns (u: Option<Usage>)
    ensures u == Extract(lib, text)
  {
    u := ExtractFromEvents(lib, Events(lib, text));
  }

  /** The guard of t has been dropped, once and properly. */
  ghost predicate Released(before: CM.State, after: CM.State, t: CM.TaskId, between: seq<CM.Event>) {
    t in before.tasks && after == CD.AfterDrop(before, t, between) && t in after.tasks && after.tasks[t].pc.Finished?
  }

  class StreamCompletion {
    const tracker: CT.KeyTracker
    var guard: Option<CM.TaskId>
    var callback: bool
    var fired: bool
    var effects: seq<Effect>

    /** Guard and callback are both still here, or both are used up. */
    ghost predicate Valid()
      reads this, tracker
    {
      && tracker.Valid()
      && (guard.Some? ==> guard.value in tracker.tasks && tracker.tasks[guard.value].pc.Holding?)
      && (fired ==> guard.None? && !callback)
      && (!fired ==> (guard.Some? <==> callback))
      && (if callback then effects == [] else |effects| == 2 && effects[0] == ReleaseGuard && effects[1].Complete?)
    }

    constructor (tracker: CT.KeyTracker, t: CM.TaskId)
      requires tracker.Valid() && t in tracker.tasks && tracker.tasks[t].pc.Holding?
      ensures Valid() && this.tracker == tracker && guard == Some(t) && callback && !fired && effects == []
    {
      this.tracker := tracker;
      guard, callback, fired, effects := Some(t), true, false, [];
    }

    /** `guard.take()`: dropping the guard releases its place. */
    method TakeGuard(between: seq<CM.Event>)
      requires tracker.Valid()
      requires guard.Some? ==> guard.value in tracker.tasks && tracker.tasks[guard.value].pc.Holding?
      modifies this`guard, this`effects, tracker
      ensures tracker.Valid() && guard.None?
      ensures old(guard).Some? ==> effects == old(effects) + [ReleaseGuard]
      ensures old(guard).Some? ==> Released(old(tracker.View()), tracker.View(), old(guard).value, between)
      ensures old(guard).None? ==> effects == old(effects) && tracker.View() == old(tracker.View())
    {
      if guard.Some? {
        tracker.DropGuard(guard.value, between);
        effects := effects + [ReleaseGuard];
      }
      guard := None;
    }

    method Fire(usage: Option<Usage>, length: nat, hasSparkl: bool, between: seq<CM.Event>)
      requires Valid()
      modifies this, tracker
      ensures Valid() && fired && !callback
      ensures effects == if old(callback) then [ReleaseGuard, Complete(usage, length, hasSparkl)] else old(effects)
      ensures old(guard).Some? ==> Released(old(tracker.View()), tracker.View(), old(guard).value, between)
      ensures old(guard).None? ==> tracker.View() == old(tracker.View())
    {
      if fired { return; }
      fired := true;
      TakeGuard(between);
      if callback {
        callback := false;
        effects := effects + [Complete(usage, length, hasSparkl)];
      }
    }

    /** Dropping the completion state with the stream. */
    method Drop(between: seq<CM.Event>)
      requires Valid()
      modifies this, tracker
      ensures Valid() && !callback && guard.None?
      ensures effects == if old(callback) then [ReleaseGuard, Complete(None, 0, false)] else old(effects)
      ensures old(guard).Some? ==> Released(old(tracker.View()), tracker.View(), old(guard).value, between)
      ensures old(guard).None? ==> tracker.View() == old(tracker.View())
    {
      if fired { return; }
      TakeGuard(between);
      if callback {
        callback := false;
        effects := effects + [Complete(None, 0, false)];
      }
    }

    /** The generator, up to its own completion call or to the point where it is dropped. */
    method Generate(lib: Library, turns: seq<Turn>, between: seq<CM.Event>) returns (sent: seq<string>)
      requires Valid() && callback && guard.Some? && !fired
      modifies this, tracker
      ensures Valid()
      ensures callback <==> !Finishes(turns)
      ensures Finishes(turns) ==> effects == [ReleaseGuard, Completion(lib, turns)]
      ensures Finishes(turns) ==> Released(old(tracker.View()), tracker.View(), old(guard).value, between)
      ensures !Finishes(turns) ==> guard == old(guard) && tracker.View() == old(tracker.View())
      ensures sent == Taken(turns) + Farewell(turns)
    {
      var finished, usage, accumulated;
      sent, finished, usage, accumulated := Consume(lib, turns);
      if finished {
        Fire(usage, |accumulated|, Contains(accumulated, "\"sparkl\""), between);
      }
    }

    /** The whole life of the response stream; in the end it is always dropped. */
    method Run(lib: Library, turns: seq<Turn>, between: seq<CM.Event>) returns (sent: seq<string>)
      requires Valid() && callback && guard.Some? && !fired
      modifies this, tracker
      ensures Valid() && guard.None? && !callback
      ensures effects == [ReleaseGuard, Completion(lib, turns)]
      ensures Released(old(tracker.View()), tracker.View(), old(guard).value, between)
      ensures sent == Taken(turns) + Farewell(turns)
    {
      sent := Generate(lib, turns, between);
      Drop(between);
    }
  }

  /** The event sent for an upstream error. */
  function ErrorLine(message: string): string {
    "data: {\"error\":" + Q.Quoted(message) + "}\n\n"
  }

  /** It is one event, on one line whatever the message, and the message can be read off it unchanged. */
  lemma ErrorLineCarries(message: string)
    ensures var line, start := ErrorLine(message), "data: {\"error\":\"";
      && start <= line && Q.Read(line[|start|..]) == Some((message, "}\n\n"))
      && (forall i :: 0 <= i < |line| - 2 ==> line[i] != '\n' && line[i] != '\r')
      && line[|line| - 2..] == "\n\n"
  {
    var start, quoted := "data: {\"error\":", Q.Quoted(message);
    var line := ErrorLine(message);
    Q.QuotedReadsBack(message, "}\n\n");
    assert line == "data: {\"error\":\"" + (Q.Escapes(message) + "\"" + "}\n\n");
    Q.QuotedIsOneLine(message);
    forall i | 0 <= i < |line| - 2 ensures line[i] != '\n' && line[i] != '\r' {
      if |start| <= i < |start| + |quoted| { assert line[i] == quoted[i - |start|]; }
    }
  }

  lemma StepAnswers(lib: Library, cs: seq<string>, c: string)
    ensures Concat(cs + [c]) == Concat(cs) + c
    ensures Answers(lib, cs + [c]) == Answers(lib, cs) + [Extract(lib, Concat(cs) + c)]
    ensures LastSome(Answers(lib, cs) + [Extract(lib, Concat(cs) + c)])
         == if Extract(lib, Concat(cs) + c).Some? then Extract(lib, Concat(cs) + c) else LastSome(Answers(lib, cs))
  {
    assert (cs + [c])[..|cs|] == cs;
    var a, b := Answers(lib, cs + [c]), Answers(lib, cs) + [Extract(lib, Concat(cs) + c)];
    forall i | 0 <= i < |b| ensures a[i] == b[i] {
      assert (cs + [c])[..i + 1] == if i < |cs| then cs[..i + 1] else cs + [c];
    }
    assert b[..|cs|] == Answers(lib, cs);
  }
}
