/** What holds in every run of the admission machine, whatever the schedule. */
module CapacityProofs {
  import opened Wrappers
  import opened CapacityMachine

  // ------------------------------------------------------------------ the invariant is kept

  /** Operations that only look at the slot: they change no count, and no task stops driving unless
      it has just seen a place taken. */
  lemma ReadKeeps(slot: Slot, tasks: map<TaskId, Task>, leaked: nat, t: TaskId, pc: Pc)
    requires CountsOk(slot, tasks, leaked) && WakeOk(slot, tasks) && TasksOk(tasks)
    requires t in tasks && TaskOk(tasks[t].(pc := pc))
    requires Is(Holder, tasks[t].pc) == Is(Holder, pc)
    requires Is(Queuer, tasks[t].pc) == Is(Queuer, pc)
    requires tasks[t].pc.Parked? == pc.Parked?
    requires Is(Driver, tasks[t].pc) ==> Is(Driver, pc) || slot.active > 0
    requires Is(Stale, pc) ==> Is(Stale, tasks[t].pc) || slot.active > 0
    ensures var tasks' := SetPc(tasks, t, pc);
      CountsOk(slot, tasks', leaked) && WakeOk(slot, tasks') && TasksOk(tasks')
  {
    Move(tasks, t, tasks[t].(pc := pc));
  }

  /** A successful compare-exchange on `active` admits its task within the task's own limit. */
  lemma AdmitKeeps(slot: Slot, tasks: map<TaskId, Task>, leaked: nat, t: TaskId)
    requires CountsOk(slot, tasks, leaked) && WakeOk(slot, tasks) && TasksOk(tasks)
    requires t in tasks && tasks[t].pc == CasActive(slot.active)
    ensures var (slot', tasks') := AdvanceUser(slot, tasks, t);
      && CountsOk(slot', tasks', leaked) && WakeOk(slot', tasks') && TasksOk(tasks')
      && slot'.active == slot.active + 1 <= tasks[t].concurrency
  {
    Move(tasks, t, tasks[t].(pc := Holding(false)));
  }

  /** `fetch_sub` on `active` never wraps: the releaser itself is counted. */
  lemma ReleaseKeeps(slot: Slot, tasks: map<TaskId, Task>, leaked: nat, t: TaskId)
    requires CountsOk(slot, tasks, leaked) && WakeOk(slot, tasks) && TasksOk(tasks)
    requires t in tasks && tasks[t].pc == Holding(false)
    ensures var (slot', tasks') := AdvanceUser(slot, tasks, t);
      && CountsOk(slot', tasks', leaked) && WakeOk(slot', tasks') && TasksOk(tasks')
      && slot'.active == slot.active - 1
  {
    Move(tasks, t, tasks[t].(pc := Notifying));
  }

  /** Taking a queue place and giving it back. */
  lemma QueueKeeps(slot: Slot, tasks: map<TaskId, Task>, leaked: nat, t: TaskId)
    requires CountsOk(slot, tasks, leaked) && WakeOk(slot, tasks) && TasksOk(tasks)
    requires t in tasks && (tasks[t].pc == CasQueued(slot.queued) || tasks[t].pc.Leaving?)
    ensures var (slot', tasks') := AdvanceUser(slot, tasks, t);
      && CountsOk(slot', tasks', leaked) && WakeOk(slot', tasks') && TasksOk(tasks')
      && slot'.queued == slot.queued + (if tasks[t].pc.Leaving? then -1 else 1)
      && (tasks[t].pc.CasQueued? ==> slot'.queued <= tasks[t].maxQueue)
  {
    var (slot', tasks') := AdvanceUser(slot, tasks, t);
    Move(tasks, t, tasks'[t]);
  }

  /** The first poll of `notified()`: consume the permit or join the list. */
  lemma ParkKeeps(slot: Slot, tasks: map<TaskId, Task>, leaked: nat, t: TaskId)
    requires CountsOk(slot, tasks, leaked) && WakeOk(slot, tasks) && TasksOk(tasks)
    requires t in tasks && tasks[t].pc.Entering?
    ensures var (slot', tasks') := AdvanceUser(slot, tasks, t);
      CountsOk(slot', tasks', leaked) && WakeOk(slot', tasks') && TasksOk(tasks')
  {
    var (slot', tasks') := AdvanceUser(slot, tasks, t);
    Move(tasks, t, tasks'[t]);
  }

  /** A waiter whose deadline has passed leaves the list. */
  lemma UnparkKeeps(slot: Slot, tasks: map<TaskId, Task>, leaked: nat, leaked': nat, t: TaskId, pc: Pc)
    requires CountsOk(slot, tasks, leaked) && WakeOk(slot, tasks) && TasksOk(tasks)
    requires t in tasks && tasks[t].pc.Parked?
    requires (pc == Leaving(false) && leaked' == leaked) || (pc == Finished && leaked' == leaked + 1)
    ensures var slot', tasks' := slot.(waiters := Without(slot.waiters, t)), SetPc(tasks, t, pc);
      CountsOk(slot', tasks', leaked') && WakeOk(slot', tasks') && TasksOk(tasks')
  {
    Move(tasks, t, tasks[t].(pc := pc));
    WithoutIs(slot.waiters, t);
    assert Without(slot.waiters, t) != [] ==> Without(slot.waiters, t)[0] in slot.waiters;
  }

  /** A notification is passed on by a task that leaves: a releaser, or a waiter that gives up. */
  lemma PassOnKeeps(slot: Slot, tasks: map<TaskId, Task>, leaked: nat, t: TaskId, pc: Pc, leaked': nat)
    requires CountsOk(slot, tasks, leaked) && TasksOk(tasks)
    requires t in tasks
    requires (tasks[t].pc.Notifying? && pc.Finished? && leaked' == leaked)
          || (tasks[t].pc == Woken(true) && pc == Leaving(false) && leaked' == leaked)
          || (tasks[t].pc == Woken(false) && pc.Finished? && leaked' == leaked + 1)
    ensures var (slot', tasks') := NotifyOne(slot, SetPc(tasks, t, pc));
      CountsOk(slot', tasks', leaked') && WakeOk(slot', tasks') && TasksOk(tasks')
  {
    Move(tasks, t, tasks[t].(pc := pc));
    NotifyKeeps(slot, SetPc(tasks, t, pc), leaked');
  }

  lemma AdvanceUserKeeps(slot: Slot, tasks: map<TaskId, Task>, leaked: nat, t: TaskId)
    requires CountsOk(slot, tasks, leaked) && WakeOk(slot, tasks) && TasksOk(tasks)
    requires t in tasks && Uses(tasks[t].pc) && tasks[t].pc != Parked(false)
    ensures var (slot', tasks') := AdvanceUser(slot, tasks, t);
      CountsOk(slot', tasks', leaked) && WakeOk(slot', tasks') && TasksOk(tasks')
  {
    var pc := tasks[t].pc;
    if pc.Notifying? {
      PassOnKeeps(slot, tasks, leaked, t, Finished, leaked);
    } else if pc == Woken(true) {
      PassOnKeeps(slot, tasks, leaked, t, Leaving(false), leaked);
    } else if pc.Holding? {
      ReleaseKeeps(slot, tasks, leaked, t);
    } else if pc == CasActive(slot.active) {
      AdmitKeeps(slot, tasks, leaked, t);
    } else if pc.Entering? {
      ParkKeeps(slot, tasks, leaked, t);
    } else if pc.Parked? {
      UnparkKeeps(slot, tasks, leaked, leaked, t, Leaving(false));
    } else if pc == CasQueued(slot.queued) || pc.Leaving? {
      QueueKeeps(slot, tasks, leaked, t);
    } else {
      var (_, tasks') := AdvanceUser(slot, tasks, t);
      ReadKeeps(slot, tasks, leaked, t, tasks'[t].pc);
    }
  }

  lemma CancelKeeps(s: State, t: TaskId)
    requires Inv(s) && Enabled(s, Cancel(t))
    ensures Inv(Next(s, Cancel(t)))
  {
    var slot, tasks := s.slot.value, s.tasks;
    if tasks[t].pc.Woken? {
      PassOnKeeps(slot, tasks, s.leaked, t, Finished, s.leaked + 1);
    } else {
      UnparkKeeps(slot, tasks, s.leaked, s.leaked + 1, t, Finished);
    }
  }

  lemma ExpireKeeps(s: State, t: TaskId)
    requires Inv(s) && Enabled(s, Expire(t))
    ensures Inv(Next(s, Expire(t)))
  {
    assert Uses(s.tasks[t].pc);
    Move(s.tasks, t, s.tasks[t].(pc := Parked(true)));
  }

  /** A task that has no business with the slot arrives, or moves without touching it. */
  lemma OutsiderKeeps(s: State, t: TaskId, x: Task)
    requires Inv(s) && TaskOk(x)
    requires t in s.tasks ==> !Uses(s.tasks[t].pc)
    requires x.pc.LoadActive? ==> s.slot.Some?
    requires x.pc.LoadActive? || !Uses(x.pc)
    ensures Inv(s.(tasks := s.tasks[t := x]))
  {
    Move(s.tasks, t, x);
  }

  lemma FreshSlotKeeps(s: State)
    requires Inv(s) && s.slot.None?
    ensures Inv(s.(slot := Some(FRESH_SLOT)))
  {
    assert forall k :: At(s.tasks, k) == {};
  }

  lemma StepKeepsInv(s: State, e: Event)
    requires Inv(s) && Enabled(s, e)
    ensures Inv(Next(s, e))
  {
    match e
    case Arrive(t, c, q) => OutsiderKeeps(s, t, Task(c, q, if c == 0 then Holding(true) else SlotLookup));
    case Advance(t) =>
      var pc := s.tasks[t].pc;
      if Uses(pc) {
        AdvanceUserKeeps(s.slot.value, s.tasks, s.leaked, t);
      } else if pc.SlotInsert? && s.slot.None? {
        FreshSlotKeeps(s);
        OutsiderKeeps(s.(slot := Some(FRESH_SLOT)), t, s.tasks[t].(pc := LoadActive));
      } else {
        OutsiderKeeps(s, t, Next(s, e).tasks[t]);
      }
    case SpuriousFailure(t) =>
      assert Uses(s.tasks[t].pc);
      ReadKeeps(s.slot.value, s.tasks, s.leaked, t, LoadActive);
    case Expire(t) => ExpireKeeps(s, t);
    case Cancel(t) => CancelKeeps(s, t);
    case Clear =>
  }

  lemma {:induction false} RunKeepsInv(s: State, es: seq<Event>, s': State)
    requires Inv(s) && IsRun(s, es, s')
    ensures Inv(s')
    decreases |es|
  {
    if es != [] {
      StepKeepsInv(s, es[0]);
      RunKeepsInv(Next(s, es[0]), es[1..], s');
    }
  }

  lemma InitialInv()
    ensures Inv(INITIAL)
  {}
}
