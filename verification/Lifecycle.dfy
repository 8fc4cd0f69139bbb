/** The life of one node connection: a single reader takes messages off the socket until the node leaves,
    routes the frames they carry, and then fails whatever is still pending. */
module Lifecycle {
  import opened Wrappers
  import opened Dispatch
  import opened Tunnel
  import C = Collect

  /** What a node can say, as the wire protocol names it. */
  datatype NodeFrame =
    | Auth
    | Pong
    | ResponseTo(rid: Rid, status: nat)
    | ChunkTo(rid: Rid, data: string)
    | EndTo(rid: Rid, status: nat)
    | ErrorTo(rid: Rid, code: nat, message: string)
    | ActivateResponseTo(rid: Rid, apiKey: string)

  datatype Message = Text(parsed: Option<NodeFrame>) | Ping | Close | OtherMessage

  /** What the select of the reader wakes up with. */
  datatype Arrival = Shutdown | Got(message: Message) | ReadError | SocketEnded

  /** What other tasks do to the tunnel: requests come, read and go, and a reconnect sweeps the table. */
  datatype Action = Registers(rid: Rid) | Reads(rid: Rid) | Drops(rid: Rid) | Sweeps

  datatype Turn = Turn(before: seq<Action>, arrival: Arrival)

  predicate EndsReading(a: Arrival) {
    a.Shutdown? || a.ReadError? || a.SocketEnded? || (a.Got? && a.message.Close?)
  }

  /** The frames a message carries for a request: none or one. */
  function FramesIn(a: Arrival, rid: Rid): seq<Frame> {
    if !(a.Got? && a.message.Text? && a.message.parsed.Some?) then [] else
      match a.message.parsed.value
      case ResponseTo(r, status) => if r == rid then [Response(status)] else []
      case ChunkTo(r, data) => if r == rid then [Chunk(data)] else []
      case EndTo(r, status) => if r == rid then [End(status)] else []
      case ErrorTo(r, code, message) => if r == rid then [Error(code, message)] else []
      case ActivateResponseTo(r, apiKey) => if r == rid then [ActivateResponse(apiKey)] else []
      case _ => []
  }

  /** Each wire frame becomes the channel frame of the same meaning, with all it carries, for its own request
      and for no other; heartbeats, late authentication and unreadable messages become nothing. */
  lemma WireFrames(rid: Rid, other: Rid, status: nat, data: string, code: nat, message: string, key: string)
    requires other != rid
    ensures FramesIn(Got(Text(Some(ResponseTo(rid, status)))), rid) == [Response(status)]
    ensures FramesIn(Got(Text(Some(ChunkTo(rid, data)))), rid) == [Chunk(data)]
    ensures FramesIn(Got(Text(Some(EndTo(rid, status)))), rid) == [End(status)]
    ensures FramesIn(Got(Text(Some(ErrorTo(rid, code, message)))), rid) == [Error(code, message)]
    ensures FramesIn(Got(Text(Some(ActivateResponseTo(rid, key)))), rid) == [ActivateResponse(key)]
    ensures FramesIn(Got(Text(Some(Pong))), rid) == FramesIn(Got(Text(Some(Auth))), rid) == []
    ensures FramesIn(Got(Text(None)), rid) == []
    ensures FramesIn(Got(Text(Some(ResponseTo(rid, status)))), other) == []
    ensures FramesIn(Got(Text(Some(ChunkTo(rid, data)))), other) == []
    ensures FramesIn(Got(Text(Some(EndTo(rid, status)))), other) == []
    ensures FramesIn(Got(Text(Some(ErrorTo(rid, code, message)))), other) == []
    ensures FramesIn(Got(Text(Some(ActivateResponseTo(rid, key)))), other) == []
  {}

  /** Only a shutdown, a broken or ended socket and a close message end the reading. */
  lemma WhatEndsReading(parsed: Option<NodeFrame>)
    ensures EndsReading(Shutdown) && EndsReading(ReadError) && EndsReading(SocketEnded) && EndsReading(Got(Close))
    ensures !EndsReading(Got(Text(parsed))) && !EndsReading(Got(Ping)) && !EndsReading(Got(OtherMessage))
  {}

  /** What the node said to a request in these turns. */
  function SentTo(rid: Rid, turns: seq<Turn>): seq<Frame> {
    if turns == [] then [] else SentTo(rid, turns[..|turns| - 1]) + FramesIn(turns[|turns| - 1].arrival, rid)
  }

  /** The first turn in which a task registers the request, if there is one. */
  function RegisteredAt(turns: seq<Turn>, rid: Rid): (k: nat)
    ensures k <= |turns|
    ensures forall i :: 0 <= i < k ==> Registers(rid) !in turns[i].before
    ensures k < |turns| ==> Registers(rid) in turns[k].before
    decreases |turns|
  {
    if turns == [] || Registers(rid) in turns[0].before then 0
    else
      var k := 1 + RegisteredAt(turns[1..], rid);
      assert forall i :: 1 <= i < k ==> turns[1..][i - 1] == turns[i];
      k
  }

  /** The turn from which on a request is given its frames; those in `first` were there before. */
  function StartOf(first: set<Rid>, turns: seq<Turn>, rid: Rid): nat {
    if rid in first then 0 else RegisteredAt(turns, rid)
  }

  /** After n messages, and with the other tasks of the first m turns done, the requests are those
      registered, and each has been given all that was said to it since. */
  ghost predicate Tracks(first: set<Rid>, requests: map<Rid, Request>, turns: seq<Turn>, n: nat, m: nat) {
    && n <= m <= n + 1 && m <= |turns|
    && (forall rid: Rid :: rid in requests <==> rid in first || RegisteredAt(turns, rid) < m)
    && (forall rid :: rid in requests ==> Given(first, requests[rid], turns, rid, n))
  }

  predicate Given(first: set<Rid>, q: Request, turns: seq<Turn>, rid: Rid, n: nat)
    requires n <= |turns|
  {
    var k := StartOf(first, turns, rid);
    k <= n && q.routed == SentTo(rid, turns[k..n])
  }

  lemma OneMoreMessage(rid: Rid, turns: seq<Turn>, k: nat, n: nat)
    requires k <= n < |turns|
    ensures SentTo(rid, turns[k..n + 1]) == SentTo(rid, turns[k..n]) + FramesIn(turns[n].arrival, rid)
  {
    var t := turns[k..n + 1];
    assert t[..|t| - 1] == turns[k..n] && t[|t| - 1] == turns[n];
  }

  /** The caller of a request that still listens after teardown learns the truth about what the node said
      to it since it was registered, in the sense of `Told`. */
  predicate Answered(first: set<Rid>, q: Request, turns: seq<Turn>, rid: Rid, n: nat)
    requires n <= |turns|
  {
    var k := StartOf(first, turns, rid);
    k <= n && C.Told(q.outcome, Cut(SentTo(rid, turns[k..n])), Delivered(q))
  }

  // ------------------------------------------------------------------ the table after some turns

  function View(table: set<Rid>, requests: map<Rid, Request>): State {
    State(table, requests, Reading, map[])
  }

  /** What another task makes of the table. */
  function AfterAction(s: State, a: Action): State {
    match a
    case Registers(rid) => if rid in s.requests then s else View(s.table + {rid}, s.requests[rid := FRESH])
    case Reads(rid) =>
      if rid in s.requests then View(s.table, s.requests[rid := AfterRead(s.requests[rid])]) else s
    case Drops(rid) =>
      if rid in s.requests && s.requests[rid].listening
      then View(s.table - {rid}, s.requests[rid := AfterDropping(s.requests[rid])]) else s
    case Sweeps => Swept(s)
  }

  function AfterRead(q: Request): Request {
    if q.listening && q.buffer != [] then q.(received := q.received + [q.buffer[0]], buffer := q.buffer[1..]) else q
  }

  function AfterDropping(q: Request): Request {
    q.(listening := false, buffer := [], cleaned := true)
  }

  function Swept(s: State): State {
    View({}, map rid | rid in s.requests :: AfterSweep(s.requests[rid], rid in s.table))
  }

  /** What a frame of the node makes of it. */
  function AfterFrame(s: State, rid: Rid, f: Frame): State {
    if rid !in s.requests then s else
      var q := s.requests[rid];
      View(if Terminal(f) || !Accepts(q) then s.table - {rid} else s.table,
           s.requests[rid := AfterRouting(q, rid in s.table, f)])
  }

  function AfterArrival(s: State, a: Arrival): State {
    if !(a.Got? && a.message.Text? && a.message.parsed.Some?) then s else
      match a.message.parsed.value
      case ResponseTo(rid, status) => AfterFrame(s, rid, Response(status))
      case ChunkTo(rid, data) => AfterFrame(s, rid, Chunk(data))
      case EndTo(rid, status) => AfterFrame(s, rid, End(status))
      case ErrorTo(rid, code, message) => AfterFrame(s, rid, Error(code, message))
      case ActivateResponseTo(rid, apiKey) => AfterFrame(s, rid, ActivateResponse(apiKey))
      case _ => s
  }

  function AfterActions(s: State, actions: seq<Action>): State {
    if actions == [] then s else AfterAction(AfterActions(s, actions[..|actions| - 1]), actions[|actions| - 1])
  }

  function AfterTurns(s: State, turns: seq<Turn>): State {
    if turns == [] then s else
      var last := turns[|turns| - 1];
      AfterArrival(AfterActions(AfterTurns(s, turns[..|turns| - 1]), last.before), last.arrival)
  }

  /** A tunnel's life of n messages, and then, perhaps, its end: the others move once more and the table is
      swept. */
  function AfterLife(s: State, turns: seq<Turn>, n: nat, left: bool): State
    requires n <= |turns| && (left ==> n < |turns|)
  {
    var s' := AfterTurns(s, turns[..n]);
    if left then Swept(AfterActions(s', turns[n].before)) else s'
  }

  /** An arrival does to the table what its one frame does, and nothing without a frame. */
  lemma ArrivalIsItsFrame(s: State, a: Arrival, rid: Rid, f: Frame)
    ensures FramesIn(a, rid) == [f] ==> AfterArrival(s, a) == AfterFrame(s, rid, f)
    ensures (forall r :: FramesIn(a, r) == []) ==> AfterArrival(s, a) == s
  {
    if a.Got? && a.message.Text? && a.message.parsed.Some? {
      var p := a.message.parsed.value;
      if !p.Auth? && !p.Pong? { assert FramesIn(a, p.rid) != []; }
    }
  }

  /** A frame for a pending request is handled kind by kind, and touches nobody else. */
  lemma FrameTakesEffect(s: State, rid: Rid, f: Frame, other: Rid)
    requires rid in s.requests && rid in s.table && other != rid
    ensures var s' := AfterFrame(s, rid, f);
      && rid in s'.requests && Handled(s.requests[rid], f, s'.requests[rid], rid in s'.table)
      && s'.requests[rid].routed == s.requests[rid].routed + [f]
      && (other in s.requests ==> other in s'.requests && s'.requests[other] == s.requests[other])
      && (other in s'.table <==> other in s.table)
  {}

  predicate NoSweep(actions: seq<Action>) {
    forall a | a in actions :: !a.Sweeps?
  }

  /** Nobody has been disconnected who was not before. */
  predicate NobodyCutOff(before: State, after: State) {
    forall rid | rid in after.requests && after.requests[rid].outcome.Disconnected? ::
      rid in before.requests && before.requests[rid].outcome.Disconnected?
  }

  /** Only a sweep disconnects: neither a message nor anything else another task does, in however many turns. */
  lemma {:induction false} OnlySweepsDisconnect(s: State, turns: seq<Turn>)
    requires forall i :: 0 <= i < |turns| ==> NoSweep(turns[i].before)
    ensures NobodyCutOff(s, AfterTurns(s, turns))
    decreases |turns|
  {
    if turns != [] {
      var k := |turns| - 1;
      OnlySweepsDisconnect(s, turns[..k]);
      var s1 := AfterTurns(s, turns[..k]);
      ActionsCutNobodyOff(s1, turns[k].before);
      ArrivalCutsNobodyOff(AfterActions(s1, turns[k].before), turns[k].arrival);
    }
  }

  lemma {:induction false} ActionsCutNobodyOff(s: State, actions: seq<Action>)
    requires NoSweep(actions)
    ensures NobodyCutOff(s, AfterActions(s, actions))
    decreases |actions|
  {
    if actions != [] {
      var k := |actions| - 1;
      assert actions[k] in actions && forall a :: a in actions[..k] ==> a in actions;
      ActionsCutNobodyOff(s, actions[..k]);
    }
  }

  lemma ArrivalCutsNobodyOff(s: State, a: Arrival)
    ensures NobodyCutOff(s, AfterArrival(s, a))
  {}

  /** A new request is pending; a read takes the oldest frame; a dropped request is off the table; a sweep
      tells whoever is pending that the node is gone. */
  lemma ActionsTakeEffect(s: State, rid: Rid)
    ensures rid !in s.requests ==> var s' := AfterAction(s, Registers(rid));
      rid in s'.table && rid in s'.requests && s'.requests[rid] == Request([], [], [], true, false, Open)
    ensures rid in s.requests && s.requests[rid].listening && s.requests[rid].buffer != [] ==>
      var q, q' := s.requests[rid], AfterAction(s, Reads(rid)).requests[rid];
      q'.received == q.received + [q.buffer[0]] && q.buffer == [q.buffer[0]] + q'.buffer
    ensures rid in s.requests && s.requests[rid].listening ==>
      var s' := AfterAction(s, Drops(rid));
      rid !in s'.table && !s'.requests[rid].listening && s'.requests[rid].buffer == []
    ensures rid in s.requests && rid in s.table ==> var s' := AfterAction(s, Sweeps);
      rid in s'.requests && s'.table == {} && ToldGone(s.requests[rid], s'.requests[rid])
    ensures rid in s.requests && rid !in s.table ==> AfterAction(s, Sweeps).requests[rid] == s.requests[rid]
  {}

  // ------------------------------------------------------------------ steps of others and of the reader

  /** Tasks other than the reader route nothing; these ones have registered `newcomers`. */
  predicate NothingRouted(before: map<Rid, Request>, after: map<Rid, Request>, newcomers: set<Rid>) {
    && after.Keys == before.Keys + newcomers
    && forall rid | rid in after :: after[rid].routed == if rid in before then before[rid].routed else []
  }

  function Registered(actions: seq<Action>): set<Rid> {
    set a | a in actions && a.Registers? :: a.rid
  }

  predicate RoutedFrom(a: Arrival, before: map<Rid, Request>, after: map<Rid, Request>) {
    && before.Keys == after.Keys
    && forall rid | rid in after :: after[rid].routed == before[rid].routed + FramesIn(a, rid)
  }

  lemma OthersTrack(first: set<Rid>, before: map<Rid, Request>, after: map<Rid, Request>, turns: seq<Turn>, n: nat)
    requires n < |turns| && Tracks(first, before, turns, n, n)
    requires NothingRouted(before, after, Registered(turns[n].before))
    ensures Tracks(first, after, turns, n, n + 1)
  {
    forall rid: Rid
      ensures rid in after <==> rid in first || RegisteredAt(turns, rid) < n + 1
      ensures rid in after ==> Given(first, after[rid], turns, rid, n)
    {
      var k := RegisteredAt(turns, rid);
      assert rid in after <==> rid in before || Registers(rid) in turns[n].before;
      if rid in before {
        assert Given(first, before[rid], turns, rid, n);
      } else if Registers(rid) in turns[n].before {
        assert k == n && turns[n..n] == [];
      }
    }
  }

  lemma RoutingTracks(first: set<Rid>, before: map<Rid, Request>, after: map<Rid, Request>, turns: seq<Turn>, n: nat)
    requires n < |turns| && Tracks(first, before, turns, n, n + 1) && RoutedFrom(turns[n].arrival, before, after)
    ensures Tracks(first, after, turns, n + 1, n + 1)
  {
    forall rid | rid in after ensures Given(first, after[rid], turns, rid, n + 1) {
      assert Given(first, before[rid], turns, rid, n);
      OneMoreMessage(rid, turns, StartOf(first, turns, rid), n);
    }
  }

  lemma SweepTracks(first: set<Rid>, before: map<Rid, Request>, after: map<Rid, Request>,
                    turns: seq<Turn>, n: nat, m: nat)
    requires Tracks(first, before, turns, n, m) && NothingRouted(before, after, {})
    ensures Tracks(first, after, turns, n, m)
  {
    assert after.Keys == before.Keys;
    forall rid | rid in after ensures Given(first, after[rid], turns, rid, n) {
      assert rid in before && Given(first, before[rid], turns, rid, n);
    }
  }

  method Act(tunnel: NodeTunnel, a: Action)
    requires tunnel.Valid()
    modifies tunnel
    ensures tunnel.Valid() && NothingRouted(old(tunnel.requests), tunnel.requests, if a.Registers? then {a.rid} else {})
    ensures tunnel.View() == AfterAction(old(tunnel.View()), a)
  {
    match a {
      case Registers(rid) => if rid !in tunnel.requests { tunnel.RegisterPending(rid); }
      case Reads(rid) => if rid in tunnel.requests && tunnel.requests[rid].listening { var _ := tunnel.TryRecv(rid); }
      case Drops(rid) => if rid in tunnel.requests && tunnel.requests[rid].listening { tunnel.DropPending(rid); }
      case Sweeps => tunnel.FailAllPending();
    }
  }

  method LetOthers(tunnel: NodeTunnel, actions: seq<Action>)
    requires tunnel.Valid()
    modifies tunnel
    ensures tunnel.Valid() && NothingRouted(old(tunnel.requests), tunnel.requests, Registered(actions))
    ensures tunnel.View() == AfterActions(old(tunnel.View()), actions)
  {
    for i := 0 to |actions|
      invariant tunnel.Valid() && NothingRouted(old(tunnel.requests), tunnel.requests, Registered(actions[..i]))
      invariant tunnel.View() == AfterActions(old(tunnel.View()), actions[..i])
    {
      assert actions[..i + 1][..i] == actions[..i];
      ghost var before := tunnel.requests;
      Act(tunnel, actions[i]);
      MoreActions(old(tunnel.requests), before, tunnel.requests, actions, i);
    }
    assert actions[..|actions|] == actions;
  }

  lemma MoreActions(a: map<Rid, Request>, b: map<Rid, Request>, c: map<Rid, Request>, actions: seq<Action>, i: nat)
    requires i < |actions| && NothingRouted(a, b, Registered(actions[..i]))
    requires NothingRouted(b, c, if actions[i].Registers? then {actions[i].rid} else {})
    ensures NothingRouted(a, c, Registered(actions[..i + 1]))
  {
    assert actions[..i + 1] == actions[..i] + [actions[i]];
    forall rid
      ensures rid in Registered(actions[..i + 1]) <==> rid in Registered(actions[..i]) || actions[i] == Registers(rid)
    {
      if rid in Registered(actions[..i]) { assert Registers(rid) in actions[..i + 1]; }
    }
  }

  /** The arrival carries this frame for this request. */
  ghost predicate Carries(a: Arrival, rid: Rid, f: Frame) {
    FramesIn(a, rid) == [f] && forall r: Rid :: r != rid ==> FramesIn(a, r) == []
  }

  method Deliver(tunnel: NodeTunnel, ghost a: Arrival, rid: Rid, frame: Frame)
    requires tunnel.Valid() && Carries(a, rid, frame)
    modifies tunnel
    ensures tunnel.Valid() && RoutedFrom(a, old(tunnel.requests), tunnel.requests)
    ensures tunnel.View() == AfterArrival(old(tunnel.View()), a)
  {
    ArrivalIsItsFrame(tunnel.View(), a, rid, frame);
    tunnel.RouteInbound(rid, frame);
  }

  /** A message gives its own frame to its own request and nothing to any other. */
  method HandleInbound(tunnel: NodeTunnel, a: Arrival)
    requires tunnel.Valid() && !EndsReading(a)
    modifies tunnel
    ensures tunnel.Valid() && RoutedFrom(a, old(tunnel.requests), tunnel.requests)
    ensures tunnel.View() == AfterArrival(old(tunnel.View()), a)
  {
    if !a.message.Text? || a.message.parsed.None? { return; }
    match a.message.parsed.value {
      case Auth =>
      case Pong =>
      case ResponseTo(rid, status) => Deliver(tunnel, a, rid, Response(status));
      case ChunkTo(rid, data) => Deliver(tunnel, a, rid, Chunk(data));
      case EndTo(rid, status) => Deliver(tunnel, a, rid, End(status));
      case ErrorTo(rid, code, message) => Deliver(tunnel, a, rid, Error(code, message));
      case ActivateResponseTo(rid, apiKey) => Deliver(tunnel, a, rid, ActivateResponse(apiKey));
    }
  }

  /** Reads until the node leaves, then tears down; `handled` is the number of messages read. The turns
      are what happens to this connection; they may run out while it lives. */
  method RunTunnelLifecycle(tunnel: NodeTunnel, turns: seq<Turn>) returns (handled: nat, left: bool)
    requires tunnel.Valid() && forall rid :: rid in tunnel.requests ==> tunnel.requests[rid].routed == []
    modifies tunnel
    ensures tunnel.Valid() && handled <= |turns| && (left <==> handled < |turns|)
    ensures forall i :: 0 <= i < handled ==> !EndsReading(turns[i].arrival)
    ensures left ==> EndsReading(turns[handled].arrival)
    // every request ever registered is there, and has been given what was said to it from then on
    ensures Tracks(old(tunnel.requests.Keys), tunnel.requests, turns, handled, if left then handled + 1 else handled)
    // and nothing else has happened to any of them
    ensures tunnel.View() == AfterLife(old(tunnel.View()), turns, handled, left)
    // nobody is left waiting, and whoever still listens is told the truth
    ensures left ==> tunnel.table == {} && AllAnswered(old(tunnel.requests.Keys), tunnel.requests, turns, handled)
  {
    ghost var start := tunnel.View();
    StartsAlive(start, turns);
    handled, left := 0, false;
    while handled < |turns|
      invariant tunnel.Valid() && handled <= |turns| && Alive(start, tunnel.View(), turns, handled)
      invariant !left && forall i :: 0 <= i < handled ==> !EndsReading(turns[i].arrival)
    {
      left := TakeTurn(tunnel, start, turns, handled);
      if left {
        TearDown(tunnel, start, turns, handled);
        return;
      }
      handled := handled + 1;
    }
  }

  /** After n turns: every request is tracked, and the table is what the turns make of it. */
  ghost predicate Alive(start: State, s: State, turns: seq<Turn>, n: nat) {
    && n <= |turns| && Tracks(start.requests.Keys, s.requests, turns, n, n)
    && s == AfterLife(start, turns, n, false)
  }

  /** The reader has woken up to leave. */
  ghost predicate Leaves(start: State, s: State, turns: seq<Turn>, n: nat) {
    && n < |turns| && Tracks(start.requests.Keys, s.requests, turns, n, n + 1)
    && s == AfterActions(AfterTurns(start, turns[..n]), turns[n].before)
  }

  ghost predicate AllAnswered(first: set<Rid>, requests: map<Rid, Request>, turns: seq<Turn>, n: nat) {
    && n <= |turns|
    && forall rid :: rid in requests && requests[rid].listening ==> Answered(first, requests[rid], turns, rid, n)
  }

  lemma StartsAlive(start: State, turns: seq<Turn>)
    requires forall rid :: rid in start.requests ==> start.requests[rid].routed == []
    ensures Alive(start, start, turns, 0)
  {
    assert turns[0..0] == [] && turns[..0] == [];
  }

  /** The others move, then the reader wakes up. */
  method TakeTurn(tunnel: NodeTunnel, ghost start: State, turns: seq<Turn>, n: nat) returns (left: bool)
    requires tunnel.Valid() && n < |turns| && Alive(start, tunnel.View(), turns, n)
    modifies tunnel
    ensures tunnel.Valid() && left == EndsReading(turns[n].arrival)
    ensures if left then Leaves(start, tunnel.View(), turns, n) else Alive(start, tunnel.View(), turns, n + 1)
  {
    ghost var first := start.requests.Keys;
    ghost var before := tunnel.requests;
    LetOthers(tunnel, turns[n].before);
    OthersTrack(first, before, tunnel.requests, turns, n);
    left := EndsReading(turns[n].arrival);
    if !left {
      before := tunnel.requests;
      HandleInbound(tunnel, turns[n].arrival);
      RoutingTracks(first, before, tunnel.requests, turns, n);
      assert turns[..n + 1][..n] == turns[..n];
    }
  }

  method TearDown(tunnel: NodeTunnel, ghost start: State, ghost turns: seq<Turn>, ghost n: nat)
    requires tunnel.Valid() && Leaves(start, tunnel.View(), turns, n)
    modifies tunnel
    ensures tunnel.Valid() && tunnel.table == {} && Tracks(start.requests.Keys, tunnel.requests, turns, n, n + 1)
    ensures tunnel.View() == AfterLife(start, turns, n, true)
    ensures AllAnswered(start.requests.Keys, tunnel.requests, turns, n)
  {
    ghost var before := tunnel.requests;
    tunnel.FailAllPending();
    SweepTracks(start.requests.Keys, before, tunnel.requests, turns, n, n + 1);
    ToldAtTheEnd(start.requests.Keys, tunnel.View(), turns, n);
  }

  lemma ToldAtTheEnd(first: set<Rid>, s: State, turns: seq<Turn>, n: nat)
    requires Reachable(s) && s.table == {} && s.reader.Reading? && Tracks(first, s.requests, turns, n, n + 1)
    ensures AllAnswered(first, s.requests, turns, n)
  {
    forall rid | rid in s.requests && s.requests[rid].listening
      ensures Answered(first, s.requests[rid], turns, rid, n)
    {
      C.ToldInTheEnd(s, rid);
      assert Given(first, s.requests[rid], turns, rid, n);
    }
  }
}
