/** The tunnel multiplexer: one reader demultiplexes the frames of a node into a bounded channel per
    request, while requests are registered, read and dropped, and while the table is swept on teardown or,
    by another task, on a reconnect. Steps are the atomic accesses to the pending table and to the channels.

    Each request keeps, beside its channel, the history a statement about it needs: `routed`, every frame
    the reader was given for it, and `received`, every frame its receiver has taken out. */
module Dispatch {
  type Rid = nat

  datatype Frame =
    | Response(status: nat)
    | Chunk(data: string)
    | End(status: nat)
    | Error(code: nat, message: string)
    | ActivateResponse(apiKey: string)

  const CAPACITY := 256
  const DISCONNECT := Error(502, "node disconnected")

  predicate Terminal(f: Frame) {
    f.End? || f.Error? || f.ActivateResponse?
  }

  predicate NoTerminal(fs: seq<Frame>) {
    forall f | f in fs :: !Terminal(f)
  }

  /** The frames up to and including the first terminal one. */
  function Cut(fs: seq<Frame>): seq<Frame> {
    if fs == [] then [] else if Terminal(fs[0]) then [fs[0]] else [fs[0]] + Cut(fs[1..])
  }

  /** How the pending entry was closed, if it was. `Severed`: the channel refused a frame. `Disconnected`:
      a sweep closed it, when the channel had been given the first `upTo` routed frames. */
  datatype Outcome = Open | Ended | Severed | Disconnected(upTo: nat)

  datatype Request = Request(
    buffer: seq<Frame>,
    received: seq<Frame>,
    routed: seq<Frame>,
    listening: bool,      // the receiver exists
    cleaned: bool,        // PendingCleanup has run
    outcome: Outcome)

  const FRESH := Request([], [], [], true, false, Open)

  /** What the reader task is in the middle of. */
  datatype Reader =
    | Reading
    | Delivering(rid: Rid, frame: Frame)   // a terminal frame; the entry has been removed
    | Evicting(rid: Rid)                   // the channel refused a frame; the entry is to be removed

  type SweepId = nat

  /** `sweeps`: the calls of `fail_all_pending` under way, each with the entries it started with. */
  datatype State = State(table: set<Rid>, requests: map<Rid, Request>, reader: Reader, sweeps: map<SweepId, set<Rid>>)

  const INITIAL := State({}, map[], Reading, map[])

  datatype Event =
    | Register(rid: Rid)
    | Route(rid: Rid, frame: Frame)
    | Continue                  // the reader finishes routing
    | BeginSweep(k: SweepId)
    | FailOne(k: SweepId, rid: Rid)
    | EndSweep(k: SweepId)
    | Pop(rid: Rid)
    | CloseReceiver(rid: Rid)
    | Cleanup(rid: Rid)

  predicate Accepts(q: Request) {
    q.listening && |q.buffer| < CAPACITY
  }

  /** `try_send`. */
  function TrySend(q: Request, f: Frame): Request {
    if Accepts(q) then q.(buffer := q.buffer + [f]) else q
  }

  /** The sweep tells the receiver, if its channel has room. */
  function Failed(q: Request, upTo: nat): Request {
    TrySend(q, DISCONNECT).(outcome := Disconnected(upTo))
  }

  /** The reader is in the middle of routing a frame of this request. */
  predicate Busy(s: State, rid: Rid) {
    (s.reader.Delivering? || s.reader.Evicting?) && s.reader.rid == rid
  }

  /** The routed frames the reader has finished with. */
  function Past(q: Request, busy: bool): seq<Frame> {
    if busy && q.routed != [] then q.routed[..|q.routed| - 1] else q.routed
  }

  predicate Enabled(s: State, e: Event) {
    match e
    case Register(rid) => rid !in s.requests
    case Route(_, _) => s.reader.Reading?
    case Continue => (s.reader.Delivering? || s.reader.Evicting?) && s.reader.rid in s.requests
    case BeginSweep(k) => k !in s.sweeps
    case FailOne(k, rid) => k in s.sweeps && rid in s.table && rid in s.requests
    case EndSweep(k) => k in s.sweeps && s.sweeps[k] !! s.table
    case Pop(rid) => rid in s.requests && s.requests[rid].listening && s.requests[rid].buffer != []
    case CloseReceiver(rid) => rid in s.requests && s.requests[rid].listening
    case Cleanup(rid) => rid in s.requests && !s.requests[rid].listening && !s.requests[rid].cleaned
  }

  function Put(s: State, rid: Rid, q: Request): State {
    s.(requests := s.requests[rid := q])
  }

  function Next(s: State, e: Event): State
    requires Enabled(s, e)
  {
    match e
    case Register(rid) => Put(s, rid, FRESH).(table := s.table + {rid})
    case Route(rid, f) =>
      if rid !in s.requests then s else
        var q := s.requests[rid].(routed := s.requests[rid].routed + [f]);
        if rid !in s.table then Put(s, rid, q)
        else if Terminal(f) then Put(s, rid, q).(table := s.table - {rid}, reader := Delivering(rid, f))
        else if Accepts(q) then Put(s, rid, TrySend(q, f))
        else Put(s, rid, q).(reader := Evicting(rid))
    case Continue =>
      var rid := s.reader.rid;
      var q := s.requests[rid];
      if s.reader.Delivering? then
        Put(s, rid, TrySend(q, s.reader.frame).(outcome := if Accepts(q) then Ended else Severed)).(reader := Reading)
      else
        var q' := q.(outcome := if q.outcome.Open? then Severed else q.outcome);
        Put(s, rid, q').(table := s.table - {rid}, reader := Reading)
    case BeginSweep(k) => s.(sweeps := s.sweeps[k := s.table])
    case FailOne(_, rid) =>
      var q := s.requests[rid];
      Put(s, rid, Failed(q, |Past(q, Busy(s, rid))|)).(table := s.table - {rid})
    case EndSweep(k) => s.(sweeps := s.sweeps - {k})
    case Pop(rid) =>
      var q := s.requests[rid];
      Put(s, rid, q.(received := q.received + [q.buffer[0]], buffer := q.buffer[1..]))
    case CloseReceiver(rid) => Put(s, rid, s.requests[rid].(listening := false, buffer := []))
    case Cleanup(rid) => Put(s, rid, s.requests[rid].(cleaned := true)).(table := s.table - {rid})
  }

  ghost predicate IsRun(s: State, es: seq<Event>, s': State)
    decreases |es|
  {
    if es == [] then s == s' else Enabled(s, es[0]) && IsRun(Next(s, es[0]), es[1..], s')
  }

  ghost predicate Reachable(s: State) {
    exists es :: IsRun(INITIAL, es, s)
  }

  /** `recv()` answers None: nothing is buffered and no sender is left. */
  predicate AtEnd(s: State, rid: Rid)
    requires rid in s.requests
  {
    s.requests[rid].buffer == [] && rid !in s.table && !(s.reader.Delivering? && s.reader.rid == rid)
  }

  // ------------------------------------------------------------------ the invariant

  /** Frames given to the channel of a request, as far as its receiver can still see them. */
  function Delivered(q: Request): seq<Frame> {
    q.received + q.buffer
  }

  /** Everything in `want` was given to the channel; a closed receiver has kept a prefix of it. */
  predicate Line(q: Request, want: seq<Frame>) {
    if q.listening then Delivered(q) == want else q.received <= want
  }

  predicate ChannelOk(q: Request) {
    |q.buffer| <= CAPACITY && (!q.listening ==> q.buffer == []) && (q.cleaned ==> !q.listening)
  }

  predicate HistoryOk(q: Request, busy: bool) {
    match q.outcome
    case Open =>
      if q.cleaned then q.received <= Cut(q.routed) else NoTerminal(Past(q, busy)) && Line(q, Past(q, busy))
    case Ended => Line(q, Cut(q.routed)) && !NoTerminal(q.routed)
    case Severed =>
      Delivered(q) <= Cut(q.routed) && (q.listening ==> Delivered(q) != Cut(q.routed) && |Delivered(q)| >= CAPACITY)
    case Disconnected(n) =>
      n <= |q.routed| && NoTerminal(q.routed[..n]) && (Line(q, q.routed[..n]) || Line(q, q.routed[..n] + [DISCONNECT]))
  }

  predicate RequestOk(s: State, rid: Rid)
    requires rid in s.requests
  {
    ChannelOk(s.requests[rid]) && HistoryOk(s.requests[rid], Busy(s, rid))
  }

  /** The table holds exactly the requests that are neither dropped nor closed. */
  predicate TableOk(s: State, rid: Rid)
    requires rid in s.requests
  {
    rid in s.table <==>
      !s.requests[rid].cleaned && s.requests[rid].outcome.Open? && !(s.reader.Delivering? && s.reader.rid == rid)
  }

  predicate ReaderOk(s: State) {
    match s.reader
    case Delivering(rid, f) =>
      && rid in s.requests && s.requests[rid].outcome.Open? && Terminal(f)
      && s.requests[rid].routed != [] && s.requests[rid].routed[|s.requests[rid].routed| - 1] == f
      && NoTerminal(s.requests[rid].routed[..|s.requests[rid].routed| - 1])
    case Evicting(rid) =>
      && rid in s.requests && (s.requests[rid].outcome.Open? || s.requests[rid].outcome.Disconnected?)
      && s.requests[rid].routed != [] && NoTerminal(s.requests[rid].routed)
      && (s.requests[rid].listening ==> |Delivered(s.requests[rid])| >= CAPACITY)
    case Reading => true
  }

  ghost predicate Inv(s: State) {
    && ReaderOk(s)
    && (forall rid :: rid in s.table ==> rid in s.requests)
    && (forall rid :: rid in s.requests ==> RequestOk(s, rid) && TableOk(s, rid))
  }

  // ------------------------------------------------------------------ facts about Cut

  lemma {:induction false} CutPrefix(fs: seq<Frame>)
    ensures Cut(fs) <= fs && (NoTerminal(fs) ==> Cut(fs) == fs)
    ensures !NoTerminal(fs) ==> Cut(fs) != []
    ensures !NoTerminal(fs) ==> Terminal(Cut(fs)[|Cut(fs)| - 1]) && NoTerminal(Cut(fs)[..|Cut(fs)| - 1])
  {
    if fs != [] {
      CutPrefix(fs[1..]);
      if !Terminal(fs[0]) {
        var c := Cut(fs[1..]);
        assert Cut(fs) == [fs[0]] + c;
        if !NoTerminal(fs) {
          assert Cut(fs)[..|Cut(fs)| - 1] == [fs[0]] + c[..|c| - 1];
        }
      }
    }
  }

  /** Once cut, more frames change nothing; until then, the next frame is kept. */
  lemma {:induction false} CutGrow(fs: seq<Frame>, f: Frame)
    ensures Cut(fs + [f]) == if NoTerminal(fs) then fs + [f] else Cut(fs)
  {
    if fs != [] {
      assert (fs + [f])[1..] == fs[1..] + [f];
      CutGrow(fs[1..], f);
      if NoTerminal(fs) {
        assert NoTerminal(fs[1..]);
      } else if !Terminal(fs[0]) {
        assert !NoTerminal(fs[1..]);
      }
    }
  }
}
