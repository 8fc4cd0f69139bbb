/** One acquire among all the others: what a whole call makes of the state when, before each of its atomic
    operations, the other tasks do what they please. */
module CapacityDriver {
  import opened Wrappers
  import opened Words
  import opened CapacityMachine
  import opened CapacityTheorems

  /** What happens around one atomic operation of the acquiring task. */
  datatype Turn = Turn(others: seq<Event>, spurious: bool, deadline: bool, dropped: bool)

  /** The acquire call has returned, or has been dropped. */
  predicate Over(pc: Pc) {
    pc.Holding? || pc.Refused? || pc.Finished?
  }

  function Subject(e: Event): Option<TaskId> {
    if e.Clear? then None else Some(e.t)
  }

  function TryNext(s: State, e: Event): State {
    if Enabled(s, e) then Next(s, e) else s
  }

  /** The other tasks run; events that cannot happen, or that are those of t, are skipped. */
  function RunOthers(s: State, others: seq<Event>, t: TaskId): State
    decreases |others|
  {
    if others == [] then s
    else RunOthers(if Subject(others[0]) == Some(t) then s else TryNext(s, others[0]), others[1..], t)
  }

  /** The event by which t moves on, none while it waits for a notification that has not come. */
  function OwnEvent(pc: Pc, turn: Turn, t: TaskId): Option<Event> {
    if pc == Parked(false) then
      if turn.dropped then Some(Cancel(t)) else if turn.deadline then Some(Expire(t)) else None
    else if pc == Woken(false) && turn.dropped then Some(Cancel(t))
    else if (pc.CasActive? || pc.CasQueued?) && turn.spurious then Some(SpuriousFailure(t))
    else Some(Advance(t))
  }

  function OneTurn(s: State, t: TaskId, turn: Turn): State {
    var s1 := RunOthers(s, turn.others, t);
    if t !in s1.tasks then s1
    else match OwnEvent(s1.tasks[t].pc, turn, t) case Some(e) => TryNext(s1, e) case None => s1
  }

  /** Where t gets in these turns; it stops at the result of its call. */
  function Drive(s: State, t: TaskId, turns: seq<Turn>): State
    decreases |turns|
  {
    if turns == [] || t !in s.tasks || Over(s.tasks[t].pc) then s
    else Drive(OneTurn(s, t, turns[0]), t, turns[1..])
  }

  /** Dropping a guard: the decrement, then whatever the others do, then the notification. */
  function AfterDrop(s: State, t: TaskId, between: seq<Event>): State
    requires t in s.tasks
  {
    var s1 := TryNext(s, Advance(t));
    if s.tasks[t].pc == Holding(true) then s1 else TryNext(RunOthers(s1, between, t), Advance(t))
  }

  // ------------------------------------------------------------------ a driven call is a run

  ghost predicate Reaches(s: State, s': State) {
    exists es :: IsRun(s, es, s')
  }

  lemma ReachesSelf(s: State)
    ensures Reaches(s, s)
  {
    assert IsRun(s, [], s);
  }

  lemma ReachesThen(a: State, b: State, e: Event)
    requires Reaches(a, b) && Enabled(b, e)
    ensures Reaches(a, Next(b, e))
  {
    var es :| IsRun(a, es, b);
    assert IsRun(b, [e], Next(b, e)) by { assert [e][1..] == []; }
    RunAppend(a, es, b, [e], Next(b, e));
  }

  lemma ReachesTry(a: State, b: State, e: Event)
    requires Reachable(b) && Reaches(a, b)
    ensures Reachable(TryNext(b, e)) && Reaches(a, TryNext(b, e))
  {
    if Enabled(b, e) {
      ReachNext(b, e);
      ReachesThen(a, b, e);
    }
  }

  /** Other tasks can do one thing to a task: notify it while it is parked. */
  predicate Undisturbed(before: Task, after: Task) {
    after == before || (before.pc.Parked? && after == before.(pc := Woken(before.pc.expired)))
  }

  lemma OthersLeaveMe(s: State, e: Event, t: TaskId)
    requires Enabled(s, e) && t in s.tasks && Subject(e) != Some(t)
    requires Uses(s.tasks[t].pc) ==> s.slot.Some?
    ensures var s' := Next(s, e);
      t in s'.tasks && Undisturbed(s.tasks[t], s'.tasks[t]) && (Uses(s.tasks[t].pc) ==> s'.slot.Some?)
  {
    if e.Cancel? {
      assert e.t != t;
    }
  }

  lemma {:induction false} RunOthersKeeps(a: State, s: State, others: seq<Event>, t: TaskId)
    requires Reachable(s) && Reaches(a, s) && t in s.tasks && (Uses(s.tasks[t].pc) ==> s.slot.Some?)
    ensures var s' := RunOthers(s, others, t);
      && Reachable(s') && Reaches(a, s') && t in s'.tasks && Undisturbed(s.tasks[t], s'.tasks[t])
      && (Uses(s'.tasks[t].pc) ==> s'.slot.Some?)
    decreases |others|
  {
    if others != [] {
      var e := others[0];
      if Subject(e) == Some(t) || !Enabled(s, e) {
        RunOthersKeeps(a, s, others[1..], t);
      } else {
        OthersLeaveMe(s, e, t);
        ReachesTry(a, s, e);
        RunOthersKeeps(a, Next(s, e), others[1..], t);
      }
    }
  }

  lemma UserHasSlot(s: State, t: TaskId)
    requires Reachable(s) && t in s.tasks
    ensures Uses(s.tasks[t].pc) ==> s.slot.Some?
  {
    ReachableInv(s);
  }

  lemma OneTurnKeeps(a: State, s: State, t: TaskId, turn: Turn)
    requires Reachable(s) && Reaches(a, s) && t in s.tasks
    ensures var s' := OneTurn(s, t, turn);
      Reachable(s') && Reaches(a, s') && t in s'.tasks && SameLimits(s.tasks[t], s'.tasks[t])
  {
    UserHasSlot(s, t);
    RunOthersKeeps(a, s, turn.others, t);
    var s1 := RunOthers(s, turn.others, t);
    var e := OwnEvent(s1.tasks[t].pc, turn, t);
    if e.Some? {
      ReachesTry(a, s1, e.value);
      if Enabled(s1, e.value) { StepKeepsTasks(s1, e.value); }
    }
  }

  /** Whatever the turns, a driven call is a run of the machine, and its task keeps its limits. */
  lemma {:induction false} DriveIsARun(a: State, s: State, t: TaskId, turns: seq<Turn>)
    requires Reachable(s) && Reaches(a, s) && t in s.tasks
    ensures var s' := Drive(s, t, turns);
      Reachable(s') && Reaches(a, s') && t in s'.tasks && SameLimits(s.tasks[t], s'.tasks[t])
    decreases |turns|
  {
    if turns != [] && !Over(s.tasks[t].pc) {
      OneTurnKeeps(a, s, t, turns[0]);
      DriveIsARun(a, OneTurn(s, t, turns[0]), t, turns[1..]);
    }
  }

  lemma DropIsARun(s: State, t: TaskId, between: seq<Event>)
    requires Reachable(s) && t in s.tasks && s.tasks[t].pc.Holding?
    ensures var s' := AfterDrop(s, t, between);
      Reachable(s') && Reaches(s, s') && t in s'.tasks && s'.tasks[t].pc.Finished?
  {
    UserHasSlot(s, t);
    ReachesSelf(s);
    ReachesTry(s, s, Advance(t));
    var s1 := TryNext(s, Advance(t));
    if s.tasks[t].pc == Holding(false) {
      RunOthersKeeps(s, s1, between, t);
      ReachesTry(s, RunOthers(s1, between, t), Advance(t));
      NotifyFinishes(RunOthers(s1, between, t), t);
    }
  }

  lemma NotifyFinishes(s: State, t: TaskId)
    requires t in s.tasks && s.tasks[t].pc.Notifying? && s.slot.Some?
    ensures var s' := TryNext(s, Advance(t)); t in s'.tasks && s'.tasks[t].pc.Finished?
  {}

  // ------------------------------------------------------------------ and every run is a driven call

  /** Whenever t moves in this run, its call has not returned. */
  ghost predicate StillCalling(s: State, es: seq<Event>, t: TaskId)
    decreases |es|
  {
    es == [] || (Enabled(s, es[0]) && StillCalling(Next(s, es[0]), es[1..], t)
                 && (Subject(es[0]) == Some(t) ==> t in s.tasks && !Over(s.tasks[t].pc)))
  }

  /** The other way round: whatever can happen around a call, in any run, some turns drive it that way, but
      for what the others do after its last step. */
  lemma {:induction false} EveryRunIsDriven(s: State, es: seq<Event>, s': State, t: TaskId)
    returns (turns: seq<Turn>, after: seq<Event>)
    requires Reachable(s) && t in s.tasks && IsRun(s, es, s') && StillCalling(s, es, t)
    ensures s' == RunOthers(Drive(s, t, turns), after, t)
    decreases |es|
  {
    turns, after := [], [];
    if es != [] {
      var e := es[0];
      var s1 := Next(s, e);
      ReachNext(s, e);
      if Subject(e) == Some(t) {
        turns, after := EveryRunIsDriven(s1, es[1..], s', t);
        turns := [Turn([], e.SpuriousFailure?, e.Expire?, e.Cancel?)] + turns;
      } else {
        UserHasSlot(s, t);
        OthersLeaveMe(s, e, t);
        turns, after := EveryRunIsDriven(s1, es[1..], s', t);
        turns, after := PutBefore(s, e, t, turns, after);
      }
    }
  }

  /** An event of another task goes before the next step of t, or comes after its last. */
  lemma PutBefore(s: State, e: Event, t: TaskId, turns: seq<Turn>, after: seq<Event>)
    returns (turns': seq<Turn>, after': seq<Event>)
    requires t in s.tasks && Enabled(s, e) && Subject(e) != Some(t)
    requires t in Next(s, e).tasks && Undisturbed(s.tasks[t], Next(s, e).tasks[t])
    ensures RunOthers(Drive(s, t, turns'), after', t) == RunOthers(Drive(Next(s, e), t, turns), after, t)
  {
    var s1 := Next(s, e);
    if turns == [] || Over(s1.tasks[t].pc) {
      turns', after' := [], [e] + after;
    } else {
      var first := turns[0].(others := [e] + turns[0].others);
      turns', after' := [first] + turns[1..], after;
      assert RunOthers(s, first.others, t) == RunOthers(s1, turns[0].others, t);
      assert OneTurn(s, t, first) == OneTurn(s1, t, turns[0]);
    }
  }

  lemma {:induction false} OthersRun(s: State, es: seq<Event>, s': State, t: TaskId)
    requires IsRun(s, es, s') && forall e :: e in es ==> Subject(e) != Some(t)
    ensures RunOthers(s, es, t) == s'
    decreases |es|
  {
    if es != [] {
      assert es[0] in es && forall e :: e in es[1..] ==> e in es;
      OthersRun(Next(s, es[0]), es[1..], s', t);
    }
  }

  /** Dropping a guard is two steps of its task, its decrement and its notification, with any run of the
      others between; an unlimited guard is one step and changes no counter. */
  lemma EveryDropIsOne(s: State, t: TaskId, between: seq<Event>, s1: State)
    requires Enabled(s, Advance(t)) && s.tasks[t].pc == Holding(false)
    requires IsRun(Next(s, Advance(t)), between, s1) && forall e :: e in between ==> Subject(e) != Some(t)
    requires Enabled(s1, Advance(t))
    ensures AfterDrop(s, t, between) == Next(s1, Advance(t))
  {
    OthersRun(Next(s, Advance(t)), between, s1, t);
  }

  lemma UnlimitedDrop(s: State, t: TaskId, between: seq<Event>)
    requires t in s.tasks && s.tasks[t].pc == Holding(true)
    ensures AfterDrop(s, t, between).slot == s.slot && AfterDrop(s, t, between).tasks[t].pc == Finished
  {}

  /** A slot nobody uses can be forgotten, with the places lost in its queue. */
  lemma ClearForgets(s: State)
    requires s.slot.Some? && NoUser(s.tasks)
    ensures Enabled(s, Clear) && Next(s, Clear) == State(None, s.tasks, 0)
  {}

  // ------------------------------------------------------------------ one turn of a driven call

  lemma TurnDone(s: State, s1: State, s2: State, t: TaskId, turns: seq<Turn>, k: nat, e: Event)
    requires k < |turns| && t in s.tasks && !Over(s.tasks[t].pc)
    requires s1 == RunOthers(s, turns[k].others, t) && t in s1.tasks
    requires OwnEvent(s1.tasks[t].pc, turns[k], t) == Some(e) && Enabled(s1, e) && s2 == Next(s1, e)
    ensures Drive(s2, t, turns[k + 1..]) == Drive(s, t, turns[k..])
  {
    assert turns[k..][0] == turns[k] && turns[k..][1..] == turns[k + 1..];
  }

  lemma TurnIdle(s: State, s1: State, t: TaskId, turns: seq<Turn>, k: nat)
    requires k < |turns| && t in s.tasks && !Over(s.tasks[t].pc)
    requires s1 == RunOthers(s, turns[k].others, t) && t in s1.tasks
    requires OwnEvent(s1.tasks[t].pc, turns[k], t) == None
    ensures Drive(s1, t, turns[k + 1..]) == Drive(s, t, turns[k..])
  {
    assert turns[k..][0] == turns[k] && turns[k..][1..] == turns[k + 1..];
  }

  // ------------------------------------------------------------------ what a call comes to

  /** Nobody else moves and no exchange fails spuriously. */
  predicate Quiet(turns: seq<Turn>) {
    forall k :: 0 <= k < |turns| ==> turns[k].others == [] && !turns[k].spurious
  }

  lemma QuietTurn(s: State, t: TaskId, turns: seq<Turn>, k: nat)
    requires Quiet(turns) && k < |turns| && t in s.tasks && !Over(s.tasks[t].pc)
    requires !s.tasks[t].pc.Parked? && !s.tasks[t].pc.Woken? && (Uses(s.tasks[t].pc) ==> s.slot.Some?)
    ensures Drive(s, t, turns[k..]) == Drive(Next(s, Advance(t)), t, turns[k + 1..])
  {
    TurnDone(s, s, Next(s, Advance(t)), t, turns, k, Advance(t));
  }

  /** The slot as a newcomer finds it, perhaps after making it. */
  function SlotOrFresh(s: State): Slot {
    if s.slot.Some? then s.slot.value else FRESH_SLOT
  }

  /** With a place below the limit the call has it; with neither a place nor room it is refused. */
  predicate Decided(slot: Slot, c: u32, q: u32, s: State, t: TaskId) {
    && (slot.active < c ==> t in s.tasks && s.tasks[t].pc == Holding(false))
    && (slot.active >= c && (q == 0 || slot.queued >= q) ==>
          t in s.tasks && s.tasks[t].pc == Refused(QueueFull(slot.active, c, slot.queued)))
  }

  /** Left alone, a call takes a free place, and is refused when neither a place nor room in the queue is
      left: at most four operations decide. */
  lemma AloneDecides(s: State, t: TaskId, c: u32, q: u32, turns: seq<Turn>)
    requires t !in s.tasks && c > 0 && Quiet(turns) && |turns| >= 4
    ensures Decided(SlotOrFresh(s), c, q, Drive(Next(s, Arrive(t, c, q)), t, turns), t)
  {
    var s0 := Next(s, Arrive(t, c, q));
    assert turns[0..] == turns;
    QuietTurn(s0, t, turns, 0);
    var s1 := Next(s0, Advance(t));
    if s.slot.Some? {
      LookDecides(s1, t, turns, 1);
    } else {
      QuietTurn(s1, t, turns, 1);
      LookDecides(Next(s1, Advance(t)), t, turns, 2);
    }
  }

  lemma LookDecides(s: State, t: TaskId, turns: seq<Turn>, k: nat)
    requires Quiet(turns) && k + 2 <= |turns| && t in s.tasks && s.tasks[t].pc.LoadActive? && s.slot.Some?
    ensures Decided(s.slot.value, s.tasks[t].concurrency, s.tasks[t].maxQueue, Drive(s, t, turns[k..]), t)
  {
    QuietTurn(s, t, turns, k);
    var s1 := Next(s, Advance(t));
    QuietTurn(s1, t, turns, k + 1);
    TwoSteps(s, t);
    var s2 := Next(s1, Advance(t));
    if Over(s2.tasks[t].pc) {
      assert Drive(s2, t, turns[k + 2..]) == s2;
    }
  }

  lemma TwoSteps(s: State, t: TaskId)
    requires t in s.tasks && s.tasks[t].pc.LoadActive? && s.slot.Some?
    ensures var s1 := Next(s, Advance(t));
      && Enabled(s1, Advance(t)) && s1.slot == s.slot
      && var s2, me, slot := Next(s1, Advance(t)), s.tasks[t], s.slot.value;
      && Decided(slot, me.concurrency, me.maxQueue, s2, t)
      && (Over(s2.tasks[t].pc) <==> slot.active < me.concurrency || me.maxQueue == 0 || slot.queued >= me.maxQueue)
  {}

  /** A call ends without a result only if it was dropped while it waited. */
  lemma {:induction false} OnlyDroppedCallsVanish(s: State, t: TaskId, turns: seq<Turn>)
    requires Reachable(s) && t in s.tasks && !Over(s.tasks[t].pc) && !s.tasks[t].pc.Notifying?
    ensures var s' := Drive(s, t, turns);
      t in s'.tasks && !s'.tasks[t].pc.Notifying?
      && (s'.tasks[t].pc.Finished? ==> exists k :: 0 <= k < |turns| && turns[k].dropped)
    decreases |turns|
  {
    if turns != [] {
      ReachesSelf(s);
      OneTurnKeeps(s, s, t, turns[0]);
      OneTurnGoesOn(s, t, turns[0]);
      var s1 := OneTurn(s, t, turns[0]);
      if !Over(s1.tasks[t].pc) {
        OnlyDroppedCallsVanish(s1, t, turns[1..]);
        if Drive(s1, t, turns[1..]).tasks[t].pc.Finished? {
          var k :| 0 <= k < |turns[1..]| && turns[1..][k].dropped;
          assert turns[k + 1].dropped;
        }
      }
    }
  }

  lemma OneTurnGoesOn(s: State, t: TaskId, turn: Turn)
    requires Reachable(s) && t in s.tasks && !Over(s.tasks[t].pc) && !s.tasks[t].pc.Notifying?
    ensures var s' := OneTurn(s, t, turn);
      t in s'.tasks && !s'.tasks[t].pc.Notifying? && (s'.tasks[t].pc.Finished? ==> turn.dropped)
  {
    UserHasSlot(s, t);
    ReachesSelf(s);
    RunOthersKeeps(s, s, turn.others, t);
    var s1 := RunOthers(s, turn.others, t);
    var e := OwnEvent(s1.tasks[t].pc, turn, t);
    if e.Some? && Enabled(s1, e.value) {
      OwnStepGoesOn(s1, t, e.value);
    }
  }

  lemma OwnStepGoesOn(s: State, t: TaskId, e: Event)
    requires Reachable(s) && Enabled(s, e) && Subject(e) == Some(t) && t in s.tasks
    requires !Over(s.tasks[t].pc) && !s.tasks[t].pc.Notifying?
    ensures var s' := Next(s, e);
      t in s'.tasks && !s'.tasks[t].pc.Notifying? && (s'.tasks[t].pc.Finished? ==> e.Cancel?)
  {
    ReachableInv(s);
    if e.Advance? && s.tasks[t].pc == Woken(true) {
      assert s.slot.value.waiters != [] ==> s.slot.value.waiters[0] in s.slot.value.waiters;
    }
  }
}
