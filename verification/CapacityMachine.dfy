/** Admission control for one (node, model) key, as a state machine whose steps are the single atomic
    operations of `acquire` and of dropping a guard. A schedule is any sequence of events; nothing is
    assumed about which task runs next.

    `Notify` is explicit: `permit` is its single stored permit, `waiters` its first-in first-out list. */
module CapacityMachine {
  import opened Wrappers
  import opened Words

  type TaskId = nat

  datatype AcquireError =
    | QueueFull(active: u32, concurrency: u32, queued: u32)
    | WaitTimeout(active: u32, concurrency: u32, queued: u32)

  datatype Slot = Slot(active: u32, queued: u32, permit: bool, waiters: seq<TaskId>)

  const FRESH_SLOT := Slot(0, 0, false, [])

  /** Where a task stands: the atomic operation it performs next. */
  datatype Pc =
    | SlotLookup                      // read the slot table
    | SlotInsert                      // saw no slot: insert one unless somebody else has by now
    | LoadActive                      // top of the acquire loop
    | CasActive(seen: u32)            // saw a free place
    | LoadQueued(activeSeen: u32)     // saw no free place
    | CasQueued(seen: u32)            // saw room in the queue
    | Entering                        // counted in the queue, first poll of `notified()` to come
    | Parked(expired: bool)           // in the waiter list; `expired` once the deadline has been noticed
    | Woken(expired: bool)            // taken off the list by a notification it has not yet acted on
    | Leaving(notified: bool)         // the wait is over, queue place still counted
    | ReportQueued                    // timed out: read the counters for the error
    | ReportActive(queuedNow: u32)
    | Holding(unlimited: bool)        // owns a guard
    | Notifying                       // guard dropped and decremented, `notify_one` to come
    | Refused(error: AcquireError)
    | Finished

  datatype Task = Task(concurrency: u32, maxQueue: u32, pc: Pc)

  /** `leaked` counts the acquires cancelled in the queue since the slot was made: nobody gives their
      place in `queued` back. */
  datatype State = State(slot: Option<Slot>, tasks: map<TaskId, Task>, leaked: nat)

  const INITIAL := State(None, map[], 0)

  datatype Event =
    | Arrive(t: TaskId, concurrency: u32, maxQueue: u32)
    | Advance(t: TaskId)              // t performs its next atomic operation
    | SpuriousFailure(t: TaskId)      // t's weak compare-exchange fails although the value matched
    | Expire(t: TaskId)               // t is polled, finds no notification and a passed deadline
    | Cancel(t: TaskId)               // t's acquire future is dropped while suspended
    | Clear                           // the slot is removed from the table, nobody using it

  /** The program points a statement about the slot can count. */
  datatype Kind = Holder | Queuer | Stale | Driver

  /** Holds a reference to the slot, or a guard counted in it. */
  predicate Uses(pc: Pc) {
    !(pc.SlotLookup? || pc.SlotInsert? || pc == Holding(true) || pc.Refused? || pc.Finished?)
  }

  predicate Is(k: Kind, pc: Pc) {
    match k
    case Holder => pc == Holding(false)
    // between the queue compare-exchange and the matching decrement
    case Queuer => pc.Entering? || pc.Parked? || pc.Woken? || pc.Leaving?
    // acts on an `active` value that may have changed since
    case Stale => pc.LoadQueued? || pc.CasQueued? || pc.Entering?
    // will look at `active` again, or will pass a notification on
    case Driver => pc.LoadActive? || pc.CasActive? || pc.Woken? || pc == Leaving(true) || pc.Notifying?
  }

  function At(tasks: map<TaskId, Task>, k: Kind): set<TaskId> {
    set t | t in tasks && Is(k, tasks[t].pc)
  }

  function Count(tasks: map<TaskId, Task>, k: Kind): nat {
    |At(tasks, k)|
  }

  predicate NoUser(tasks: map<TaskId, Task>) {
    forall t | t in tasks :: !Uses(tasks[t].pc)
  }

  predicate Enabled(s: State, e: Event) {
    match e
    case Arrive(t, _, _) => t !in s.tasks
    case Advance(t) =>
      && t in s.tasks
      && var pc := s.tasks[t].pc;
      && pc != Parked(false) && !pc.Refused? && !pc.Finished?
      && (Uses(pc) ==> s.slot.Some?)
    case SpuriousFailure(t) => t in s.tasks && (s.tasks[t].pc.CasActive? || s.tasks[t].pc.CasQueued?)
    case Expire(t) => t in s.tasks && s.tasks[t].pc == Parked(false)
    case Cancel(t) => t in s.tasks && s.slot.Some? && (s.tasks[t].pc == Parked(false) || s.tasks[t].pc == Woken(false))
    case Clear => s.slot.Some? && NoUser(s.tasks)
  }

  function SetPc(tasks: map<TaskId, Task>, t: TaskId, pc: Pc): map<TaskId, Task>
    requires t in tasks
  {
    tasks[t := tasks[t].(pc := pc)]
  }

  function Without(ts: seq<TaskId>, t: TaskId): seq<TaskId> {
    if ts == [] then [] else if ts[0] == t then Without(ts[1..], t) else [ts[0]] + Without(ts[1..], t)
  }

  /** `notify_one`: wake the oldest waiter, or else store the permit. */
  function NotifyOne(slot: Slot, tasks: map<TaskId, Task>): (Slot, map<TaskId, Task>) {
    if slot.waiters == [] then (slot.(permit := true), tasks)
    else
      var w := slot.waiters[0];
      (slot.(waiters := slot.waiters[1..]),
       if w in tasks && tasks[w].pc.Parked? then SetPc(tasks, w, Woken(tasks[w].pc.expired)) else tasks)
  }

  function AdvanceUser(slot: Slot, tasks: map<TaskId, Task>, t: TaskId): (Slot, map<TaskId, Task>)
    requires t in tasks && Uses(tasks[t].pc)
  {
    var me := tasks[t];
    match me.pc
    case LoadActive =>
      (slot, SetPc(tasks, t, if slot.active < me.concurrency then CasActive(slot.active) else LoadQueued(slot.active)))
    case CasActive(seen) =>
      if slot.active == seen then (slot.(active := WrappingInc(seen)), SetPc(tasks, t, Holding(false)))
      else (slot, SetPc(tasks, t, LoadActive))
    case LoadQueued(a) =>
      (slot, SetPc(tasks, t,
        if me.maxQueue == 0 || slot.queued >= me.maxQueue then Refused(QueueFull(a, me.concurrency, slot.queued))
        else CasQueued(slot.queued)))
    case CasQueued(seen) =>
      if slot.queued == seen then (slot.(queued := WrappingInc(seen)), SetPc(tasks, t, Entering))
      else (slot, SetPc(tasks, t, LoadActive))
    case Entering =>
      if slot.permit then (slot.(permit := false), SetPc(tasks, t, Leaving(true)))
      else (slot.(waiters := slot.waiters + [t]), SetPc(tasks, t, Parked(false)))
    case Parked(_) =>
      (slot.(waiters := Without(slot.waiters, t)), SetPc(tasks, t, Leaving(false)))
    case Woken(expired) =>
      // a notified future that is dropped instead of resolved passes the notification on
      if expired then NotifyOne(slot, SetPc(tasks, t, Leaving(false)))
      else (slot, SetPc(tasks, t, Leaving(true)))
    case Leaving(notified) =>
      (slot.(queued := WrappingDec(slot.queued)), SetPc(tasks, t, if notified then LoadActive else ReportQueued))
    case ReportQueued => (slot, SetPc(tasks, t, ReportActive(slot.queued)))
    case ReportActive(q) => (slot, SetPc(tasks, t, Refused(WaitTimeout(slot.active, me.concurrency, q))))
    case Holding(_) => (slot.(active := WrappingDec(slot.active)), SetPc(tasks, t, Notifying))
    case Notifying => NotifyOne(slot, SetPc(tasks, t, Finished))
  }

  function Next(s: State, e: Event): State
    requires Enabled(s, e)
  {
    match e
    case Arrive(t, c, q) =>
      s.(tasks := s.tasks[t := Task(c, q, if c == 0 then Holding(true) else SlotLookup)])
    case Advance(t) =>
      var pc := s.tasks[t].pc;
      if Uses(pc) then
        var (slot, tasks) := AdvanceUser(s.slot.value, s.tasks, t);
        s.(slot := Some(slot), tasks := tasks)
      else if pc == Holding(true) then s.(tasks := SetPc(s.tasks, t, Finished))
      else if pc.SlotInsert? then
        s.(slot := if s.slot.Some? then s.slot else Some(FRESH_SLOT), tasks := SetPc(s.tasks, t, LoadActive))
      else s.(tasks := SetPc(s.tasks, t, if s.slot.Some? then LoadActive else SlotInsert))
    case SpuriousFailure(t) => s.(tasks := SetPc(s.tasks, t, LoadActive))
    case Expire(t) => s.(tasks := SetPc(s.tasks, t, Parked(true)))
    case Cancel(t) =>
      var gone := SetPc(s.tasks, t, Finished);
      var (slot, tasks) :=
        if s.tasks[t].pc.Parked? then (s.slot.value.(waiters := Without(s.slot.value.waiters, t)), gone)
        else NotifyOne(s.slot.value, gone);
      State(Some(slot), tasks, s.leaked + 1)
    case Clear => State(None, s.tasks, 0)
  }

  /** `es` is a schedule that takes the machine from `s` to `s'`. */
  ghost predicate IsRun(s: State, es: seq<Event>, s': State)
    decreases |es|
  {
    if es == [] then s == s' else Enabled(s, es[0]) && IsRun(Next(s, es[0]), es[1..], s')
  }

  lemma {:induction false} RunAppend(a: State, xs: seq<Event>, b: State, ys: seq<Event>, c: State)
    requires IsRun(a, xs, b) && IsRun(b, ys, c)
    ensures IsRun(a, xs + ys, c)
    decreases |xs|
  {
    if xs == [] {
      assert xs + ys == ys;
    } else {
      RunAppend(Next(a, xs[0]), xs[1..], b, ys, c);
      assert (xs + ys)[1..] == xs[1..] + ys;
    }
  }

  // ------------------------------------------------------------------ the invariant

  /** A refusal reports what the acquire saw: no place below its limit, and no room in the queue. */
  predicate Justified(e: AcquireError, task: Task) {
    && e.concurrency == task.concurrency
    && (e.QueueFull? ==> e.active >= task.concurrency && (task.maxQueue == 0 || e.queued >= task.maxQueue))
  }

  ghost predicate TaskOk(t: Task) {
    && (t.pc.CasActive? ==> t.pc.seen < t.concurrency)
    && (t.pc.LoadQueued? ==> t.pc.activeSeen >= t.concurrency)
    && (t.pc.Refused? ==> Justified(t.pc.error, t))
    && (t.pc.CasQueued? ==> t.pc.seen < t.maxQueue)
    && (t.pc.SlotLookup? || t.pc.SlotInsert? || Uses(t.pc) ==> 0 < t.concurrency)
  }

  ghost predicate NoRepeats(ts: seq<TaskId>) {
    forall i, j :: 0 <= i < j < |ts| ==> ts[i] != ts[j]
  }

  /** The counters count, and `Notify` is consistent: the list holds the parked tasks and there is
      never a permit beside a waiter. */
  ghost predicate CountsOk(slot: Slot, tasks: map<TaskId, Task>, leaked: nat) {
    && slot.active == Count(tasks, Holder)
    && slot.queued == Count(tasks, Queuer) + leaked
    && NoRepeats(slot.waiters)
    && (forall t :: t in slot.waiters <==> t in tasks && tasks[t].pc.Parked?)
    && (slot.permit ==> slot.waiters == [])
  }

  /** With no guard out, whoever waits, or is about to wait on an outdated reading, will be reached by
      a stored permit or by a task still on the move. */
  ghost predicate WakeOk(slot: Slot, tasks: map<TaskId, Task>) {
    slot.active == 0 && (slot.waiters != [] || Count(tasks, Stale) > 0) ==> slot.permit || Count(tasks, Driver) > 0
  }

  ghost predicate Inv(s: State) {
    && TasksOk(s.tasks)
    && (s.slot.None? ==> NoUser(s.tasks) && s.leaked == 0)
    && (s.slot.Some? ==> CountsOk(s.slot.value, s.tasks, s.leaked) && WakeOk(s.slot.value, s.tasks))
  }

  ghost predicate TasksOk(tasks: map<TaskId, Task>) {
    forall t :: t in tasks ==> TaskOk(tasks[t])
  }

  function One(b: bool): nat {
    if b then 1 else 0
  }

  lemma ApartFrom(a: set<TaskId>, b: set<TaskId>, t: TaskId)
    requires a - {t} == b - {t}
    ensures |a| + One(t in b) == |b| + One(t in a)
    ensures t in b ==> |b| > 0
  {
    WithAndWithout(a, t);
    WithAndWithout(b, t);
  }

  lemma WithAndWithout(a: set<TaskId>, t: TaskId)
    ensures |a| == |a - {t}| + One(t in a)
  {
    if t !in a { assert a - {t} == a; }
  }

  /** Moving one task changes each count by at most that task. */
  lemma MoveOne(tasks: map<TaskId, Task>, t: TaskId, x: Task, k: Kind)
    ensures Count(tasks[t := x], k) + One(t in tasks && Is(k, tasks[t].pc)) == Count(tasks, k) + One(Is(k, x.pc))
    ensures t in tasks && Is(k, tasks[t].pc) ==> Count(tasks, k) > 0
  {
    var a, b := At(tasks[t := x], k), At(tasks, k);
    assert a - {t} == b - {t};
    ApartFrom(a, b, t);
  }

  ghost predicate Recounted(tasks: map<TaskId, Task>, t: TaskId, x: Task, k: Kind) {
    && Count(tasks[t := x], k) + One(t in tasks && Is(k, tasks[t].pc)) == Count(tasks, k) + One(Is(k, x.pc))
    && (t in tasks && Is(k, tasks[t].pc) ==> Count(tasks, k) > 0)
  }

  lemma Move(tasks: map<TaskId, Task>, t: TaskId, x: Task)
    ensures Recounted(tasks, t, x, Holder) && Recounted(tasks, t, x, Queuer)
    ensures Recounted(tasks, t, x, Stale) && Recounted(tasks, t, x, Driver)
  {
    MoveOne(tasks, t, x, Holder);
    MoveOne(tasks, t, x, Queuer);
    MoveOne(tasks, t, x, Stale);
    MoveOne(tasks, t, x, Driver);
  }

  lemma {:induction false} WithoutIs(ts: seq<TaskId>, t: TaskId)
    ensures forall u :: u in Without(ts, t) <==> u in ts && u != t
    ensures NoRepeats(ts) ==> NoRepeats(Without(ts, t))
  {
    if ts != [] {
      WithoutIs(ts[1..], t);
      assert ts == [ts[0]] + ts[1..];
      if NoRepeats(ts) {
        assert forall i :: 0 <= i < |Without(ts[1..], t)| ==> Without(ts[1..], t)[i] in ts[1..];
      }
    }
  }

  /** `notify_one` keeps the counts and leaves a notification on its way. */
  lemma NotifyKeeps(slot: Slot, tasks: map<TaskId, Task>, leaked: nat)
    requires CountsOk(slot, tasks, leaked) && TasksOk(tasks)
    ensures var (slot', tasks') := NotifyOne(slot, tasks);
      CountsOk(slot', tasks', leaked) && TasksOk(tasks') && WakeOk(slot', tasks')
  {
    if slot.waiters != [] {
      var w := slot.waiters[0];
      assert w in slot.waiters;
      Move(tasks, w, tasks[w].(pc := Woken(tasks[w].pc.expired)));
      assert slot.waiters == [w] + slot.waiters[1..];
    }
  }
}
