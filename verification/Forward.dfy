/** `chat_completions`: the path that acquires a place, forwards a request and gives the place back on
    every way out, including being dropped half-way. */
module Forward {
  import opened Wrappers
  import opened Words
  import CD = CapacityDriver
  import CM = CapacityMachine
  import CT = CapacityTracker
  import D = Dispatch
  import C = Collect
  import opened Metering
  import Sse

  datatype SendOutcome = Sent | ChannelGone | DroppedSending

  /** How the world answers one request. */
  datatype Scene = Scene(
    model: Option<string>,            // the model named in the body
    known: bool,                      // the catalog has it
    online: bool,                     // the provider's tunnel exists
    concurrency: u32,
    maxQueue: u32,
    acquireTurns: seq<CD.Turn>,
    send: SendOutcome,
    stream: bool,
    streamTurns: seq<Sse.Turn>,
    frames: seq<D.Frame>,             // what the node answers, when not streaming
    closed: bool,
    droppedCollecting: bool,
    between: seq<CM.Event>)           // what other tasks do while a guard is being dropped

  datatype Reply =
    | BadModel                        // 400
    | ProviderOffline                 // 503
    | AtCapacity(retryAfter: nat, error: CM.AcquireError)    // 429
    | RouterError(status: nat, message: string)
    | Streamed(sent: seq<string>)     // 200, text/event-stream
    | Plain(status: nat, body: string)
    | Gone                            // the handler was dropped before it answered
    | StillWaiting                    // in the acquire loop when the turns ran out

  function UsageOfBody(lib: Library, body: string): Option<Usage> {
    match lib.parse(body) case Some(v) => UsageOfJson(v) case None => None
  }

  /** The bill of a plain answer is what the usage object of its body states, input as input and output as
      output. */
  ghost predicate BilledFor(lib: Library, body: string, billed: Option<Usage>) {
    forall i, o :: billed == Some(Usage(i, o)) <==> lib.parse(body).Some? && Reads(lib.parse(body).value, i, o)
  }

  lemma BodyIsBilled(lib: Library, body: string)
    ensures BilledFor(lib, body, UsageOfBody(lib, body))
  {
    forall i, o
      ensures UsageOfBody(lib, body) == Some(Usage(i, o)) <==>
        lib.parse(body).Some? && Reads(lib.parse(body).value, i, o)
    {
      if lib.parse(body).Some? { UsageExactly(lib.parse(body).value, i, o); }
    }
  }

  /** Where the acquire of this request gets. */
  function Acquired(s: CM.State, t: CM.TaskId, scene: Scene): CM.State
    requires t !in s.tasks
  {
    CD.Drive(CM.Next(s, CM.Arrive(t, scene.concurrency, scene.maxQueue)), t, scene.acquireTurns)
  }

  /** Left alone, the acquire of a request decides by the counters: without a limit it is let in at once; with
      a place it has it; with neither a place nor room in the queue it is refused, with the counters. */
  lemma AcquiredAlone(s: CM.State, t: CM.TaskId, scene: Scene)
    requires t !in s.tasks && CD.Quiet(scene.acquireTurns) && |scene.acquireTurns| >= 4
    ensures var s', slot, c, q := Acquired(s, t, scene), CD.SlotOrFresh(s), scene.concurrency, scene.maxQueue;
      && (c == 0 ==> t in s'.tasks && s'.tasks[t].pc == CM.Holding(true))
      && (slot.active < c ==> t in s'.tasks && s'.tasks[t].pc == CM.Holding(false))
      && (slot.active >= c > 0 && slot.queued >= q ==>
            t in s'.tasks && s'.tasks[t].pc == CM.Refused(CM.QueueFull(slot.active, c, slot.queued)))
  {
    if scene.concurrency > 0 { CD.AloneDecides(s, t, scene.concurrency, scene.maxQueue, scene.acquireTurns); }
  }

  /** Frames without an end or an error. */
  predicate Unfinished(frames: seq<D.Frame>) {
    forall f | f in frames :: !f.End? && !f.Error?
  }

  /** The request reaches admission control. */
  predicate Asks(scene: Scene) {
    scene.model.Some? && scene.known && scene.online
  }

  /** How a request is answered, by how its acquire went and what came after. */
  predicate Outcome(scene: Scene, pc: CM.Pc, reply: Reply) {
    match pc
    case Refused(e) => reply == AtCapacity(if e.QueueFull? then 15 else 30, e)
    case Finished => reply == Gone
    case Holding(_) => Forwarded(scene, reply)
    case _ => reply == StillWaiting
  }

  predicate Forwarded(scene: Scene, reply: Reply) {
    match scene.send
    case ChannelGone => reply == RouterError(502, "failed to send request frame to node")
    case DroppedSending => reply == Gone
    case Sent =>
      if scene.stream then reply.Streamed?
      else if scene.droppedCollecting then reply == Gone
      else reply.Plain? || reply.RouterError?
  }

  /** The answer and the bill are those of the node's frames; nothing is billed without an answer. */
  ghost predicate Honest(lib: Library, scene: Scene, reply: Reply, billed: Option<Usage>) {
    match reply
    case Plain(status, body) =>
      && C.AnsweredBy(scene.frames, scene.closed, C.Collected(status, body))
      && C.AnswerTo(scene.frames, scene.closed) == C.Collected(status, body) && BilledFor(lib, body, billed)
    case RouterError(status, message) =>
      billed.None? && (scene.send.Sent? ==>
        && C.AnsweredBy(scene.frames, scene.closed, C.Failed(status, message))
        && C.AnswerTo(scene.frames, scene.closed) == C.Failed(status, message))
    case Streamed(sent) =>
      && sent == Sse.Taken(scene.streamTurns) + Sse.Farewell(scene.streamTurns)
      && billed == Sse.Completion(lib, scene.streamTurns).usage
    case _ => billed.None?
  }

  method ChatCompletions(lib: Library, tracker: CT.KeyTracker, t: CM.TaskId, scene: Scene)
    returns (reply: Reply, billed: Option<Usage>)
    requires tracker.Valid() && t !in tracker.tasks
    modifies tracker
    ensures tracker.Valid() && Honest(lib, scene, reply, billed)
    // refused before admission control: it is not even asked
    ensures !Asks(scene) ==> tracker.View() == old(tracker.View())
    ensures !Asks(scene) ==> reply == if scene.model.None? || !scene.known then BadModel else ProviderOffline
    // asked: whatever happens, a guard that was got is dropped, exactly once
    ensures Asks(scene) ==>
      var s := Acquired(old(tracker.View()), t, scene);
      && t in s.tasks && Outcome(scene, s.tasks[t].pc, reply)
      && s.tasks[t].concurrency == scene.concurrency && s.tasks[t].maxQueue == scene.maxQueue
      && (s.tasks[t].pc.Holding? ==> Sse.Released(s, tracker.View(), t, scene.between))
      && (!s.tasks[t].pc.Holding? ==> tracker.View() == s)
    // a client turned away is told when to come again
    ensures reply.AtCapacity? ==> reply.retryAfter == if reply.error.QueueFull? then 15 else 30
    // a plain request whose answer does not end before the deadline is told 504, and is not billed
    ensures Asks(scene) && !scene.stream && !scene.closed && Unfinished(scene.frames) ==>
      !reply.Plain? && billed.None? && (reply.RouterError? && scene.send.Sent? ==> reply.status == 504)
  {
    billed := None;
    if scene.model.None? || !scene.known { return BadModel, None; }
    if !scene.online { return ProviderOffline, None; }

    var progress := tracker.Acquire(t, scene.concurrency, scene.maxQueue, scene.acquireTurns);
    match progress {
      case Unfinished => return StillWaiting, None;
      case Cancelled => return Gone, None;
      case Failed(e) => return AtCapacity(if e.QueueFull? then 15 else 30, e), None;
      case Admitted(_) => reply, billed := ForwardRequest(lib, tracker, t, scene);
    }
  }

  /** What follows admission: the guard moves along and is dropped on every way out. */
  method ForwardRequest(lib: Library, tracker: CT.KeyTracker, t: CM.TaskId, scene: Scene)
    returns (reply: Reply, billed: Option<Usage>)
    requires tracker.Valid() && t in tracker.tasks && tracker.tasks[t].pc.Holding?
    modifies tracker
    ensures tracker.Valid() && Honest(lib, scene, reply, billed)
    ensures Forwarded(scene, reply)
    ensures Sse.Released(old(tracker.View()), tracker.View(), t, scene.between)
  {
    billed := None;
    if !scene.send.Sent? {
      tracker.DropGuard(t, scene.between);
      reply := if scene.send.ChannelGone? then RouterError(502, "failed to send request frame to node") else Gone;
      return;
    }

    if scene.stream {
      var completion := new Sse.StreamCompletion(tracker, t);
      var sent := completion.Run(lib, scene.streamTurns, scene.between);
      return Streamed(sent), completion.effects[1].usage;
    }

    if scene.droppedCollecting {
      tracker.DropGuard(t, scene.between);
      return Gone, None;
    }
    var answer := C.CollectHttpResponse(scene.frames, scene.closed);
    tracker.DropGuard(t, scene.between);
    match answer {
      case Failed(status, message) => reply := RouterError(status, message);
      case Collected(status, body) =>
        reply := Plain(status, body);
        billed := UsageOfBody(lib, body);
        BodyIsBilled(lib, body);
    }
  }
}
