/** The promises of admission control, for every schedule from an empty tracker. */
module CapacityTheorems {
  import opened Wrappers
  import opened Words
  import opened CapacityMachine
  import opened CapacityProofs

  ghost predicate Reachable(s: State) {
    exists es :: IsRun(INITIAL, es, s)
  }

  lemma ReachableInv(s: State)
    requires Reachable(s)
    ensures Inv(s)
  {
    var es :| IsRun(INITIAL, es, s);
    InitialInv();
    RunKeepsInv(INITIAL, es, s);
  }

  // ------------------------------------------------------------------ admission safety

  /** Neither counter is ever above the largest limit some acquire came with. */
  ghost predicate WithinLimits(s: State) {
    s.slot.Some? ==>
      && (s.slot.value.active > 0 ==> exists t :: t in s.tasks && s.slot.value.active <= s.tasks[t].concurrency)
      && (s.slot.value.queued > 0 ==> exists t :: t in s.tasks && s.slot.value.queued <= s.tasks[t].maxQueue)
  }

  /** Tasks are never forgotten and keep the limits they came with. */
  ghost predicate KeepsTasks(before: map<TaskId, Task>, after: map<TaskId, Task>) {
    forall t :: t in before ==> t in after && SameLimits(before[t], after[t])
  }

  predicate SameLimits(before: Task, after: Task) {
    after.concurrency == before.concurrency && after.maxQueue == before.maxQueue
  }

  lemma NotifyKeepsTasks(slot: Slot, tasks: map<TaskId, Task>)
    ensures KeepsTasks(tasks, NotifyOne(slot, tasks).1)
  {}

  lemma UserKeepsTasks(slot: Slot, tasks: map<TaskId, Task>, t: TaskId)
    requires t in tasks && Uses(tasks[t].pc)
    ensures KeepsTasks(tasks, AdvanceUser(slot, tasks, t).1)
  {
    match tasks[t].pc {
      case Woken(_) => NotifyKeepsTasks(slot, SetPc(tasks, t, Leaving(false)));
      case Notifying => NotifyKeepsTasks(slot, SetPc(tasks, t, Finished));
      case _ =>
    }
  }

  lemma StepKeepsTasks(s: State, e: Event)
    requires Enabled(s, e)
    ensures KeepsTasks(s.tasks, Next(s, e).tasks)
  {
    match e {
      case Advance(t) => if Uses(s.tasks[t].pc) { UserKeepsTasks(s.slot.value, s.tasks, t); }
      case Cancel(t) => NotifyKeepsTasks(s.slot.value, SetPc(s.tasks, t, Finished));
      case _ =>
    }
  }

  /** A counter grows only by a compare-exchange that respects the limit of the acquire performing it. */
  lemma UserGrowth(slot: Slot, tasks: map<TaskId, Task>, leaked: nat, t: TaskId)
    requires CountsOk(slot, tasks, leaked) && WakeOk(slot, tasks) && TasksOk(tasks)
    requires t in tasks && Uses(tasks[t].pc)
    ensures var slot' := AdvanceUser(slot, tasks, t).0;
      && (slot'.active > slot.active ==> slot'.active <= tasks[t].concurrency)
      && (slot'.queued > slot.queued ==> slot'.queued <= tasks[t].maxQueue)
  {
    if tasks[t].pc.Holding? {
      ReleaseKeeps(slot, tasks, leaked, t);
    } else if tasks[t].pc.Leaving? {
      QueueKeeps(slot, tasks, leaked, t);
    }
  }

  lemma StepGrowth(s: State, e: Event)
    requires Inv(s) && Enabled(s, e)
    ensures var s' := Next(s, e);
      if s.slot.Some? && s'.slot.Some? then
        var was, now := s.slot.value, s'.slot.value;
        && (now.active > was.active ==> e.Advance? && now.active <= s.tasks[e.t].concurrency)
        && (now.queued > was.queued ==> e.Advance? && now.queued <= s.tasks[e.t].maxQueue)
      else s'.slot.Some? ==> s'.slot.value == FRESH_SLOT
  {
    if e.Advance? && Uses(s.tasks[e.t].pc) {
      UserGrowth(s.slot.value, s.tasks, s.leaked, e.t);
    }
  }

  lemma StepWithinLimits(s: State, e: Event)
    requires Inv(s) && Enabled(s, e) && WithinLimits(s)
    ensures WithinLimits(Next(s, e))
  {
    StepGrowth(s, e);
    StepKeepsTasks(s, e);
    var s' := Next(s, e);
    if s'.slot.Some? && s.slot.Some? {
      if s'.slot.value.active > s.slot.value.active {
        assert e.t in s'.tasks && s'.slot.value.active <= s'.tasks[e.t].concurrency;
      } else if s.slot.value.active > 0 {
        var t :| t in s.tasks && s.slot.value.active <= s.tasks[t].concurrency;
        assert t in s'.tasks && s'.slot.value.active <= s'.tasks[t].concurrency;
      }
      if s'.slot.value.queued > s.slot.value.queued {
        assert e.t in s'.tasks && s'.slot.value.queued <= s'.tasks[e.t].maxQueue;
      } else if s.slot.value.queued > 0 {
        var t :| t in s.tasks && s.slot.value.queued <= s.tasks[t].maxQueue;
        assert t in s'.tasks && s'.slot.value.queued <= s'.tasks[t].maxQueue;
      }
    }
  }

  lemma {:induction false} RunWithinLimits(s: State, es: seq<Event>, s': State)
    requires Inv(s) && WithinLimits(s) && IsRun(s, es, s')
    ensures WithinLimits(s')
    decreases |es|
  {
    if es != [] {
      StepKeepsInv(s, es[0]);
      StepWithinLimits(s, es[0]);
      RunWithinLimits(Next(s, es[0]), es[1..], s');
    }
  }

  /** `active` is the number of guards out, and stays within the largest limit ever used. */
  lemma AdmissionSafety(s: State)
    requires Reachable(s) && s.slot.Some?
    ensures s.slot.value.active == |set t | t in s.tasks && s.tasks[t].pc == Holding(false)|
    ensures s.slot.value.active > 0 ==> exists t :: t in s.tasks && s.slot.value.active <= s.tasks[t].concurrency
  {
    ReachableInv(s);
    assert At(s.tasks, Holder) == set t | t in s.tasks && s.tasks[t].pc == Holding(false);
    var es :| IsRun(INITIAL, es, s);
    InitialInv();
    RunWithinLimits(INITIAL, es, s);
  }

  /** When every acquire uses the limit c, never more than c guards are out at once. */
  lemma FixedLimit(s: State, c: u32)
    requires Reachable(s)
    requires forall t :: t in s.tasks ==> s.tasks[t].concurrency == c
    ensures |set t | t in s.tasks && s.tasks[t].pc == Holding(false)| <= c
  {
    ReachableInv(s);
    var holders := set t | t in s.tasks && s.tasks[t].pc == Holding(false);
    if s.slot.Some? {
      AdmissionSafety(s);
    } else {
      assert holders == {};
    }
  }

  /** No atomic add or subtract ever wraps around. */
  lemma NoCounterWraps(s: State, t: TaskId)
    requires Reachable(s) && Enabled(s, Advance(t)) && s.slot.Some?
    ensures s.tasks[t].pc == Holding(false) ==> s.slot.value.active >= 1
    ensures s.tasks[t].pc.Leaving? ==> s.slot.value.queued >= 1
    ensures s.tasks[t].pc == CasActive(s.slot.value.active) ==> s.slot.value.active < U32_MAX
    ensures s.tasks[t].pc == CasQueued(s.slot.value.queued) ==> s.slot.value.queued < U32_MAX
  {
    ReachableInv(s);
    MoveOne(s.tasks, t, s.tasks[t], Holder);
    MoveOne(s.tasks, t, s.tasks[t], Queuer);
  }

  // ------------------------------------------------------------------ wake-ups

  /** With no guard out, a parked acquire always has a wake-up on its way; and a permit is never
      stored beside a parked acquire. */
  lemma NoStrandedWaiter(s: State, w: TaskId)
    requires Reachable(s) && s.slot.Some?
    requires w in s.tasks && s.tasks[w].pc.Parked?
    ensures !s.slot.value.permit
    ensures s.slot.value.active == 0 ==>
      exists t :: t in s.tasks && var pc := s.tasks[t].pc;
        pc.Notifying? || pc.Woken? || pc == Leaving(true) || pc.LoadActive? || pc.CasActive?
  {
    ReachableInv(s);
    assert w in s.slot.value.waiters;
    if s.slot.value.active == 0 {
      assert At(s.tasks, Driver) != {};
      var t :| t in At(s.tasks, Driver);
    }
  }

  /** Nothing can happen without a guard being dropped, a deadline, a cancellation or an arrival. */
  ghost predicate AtRest(s: State) {
    forall t :: t in s.tasks ==> var pc := s.tasks[t].pc;
      pc == Parked(false) || pc.Holding? || pc.Refused? || pc.Finished?
  }

  /** At rest, waiting means that some guard is still out, and dropping it will notify. */
  lemma WaitingAtRestHasAGuard(s: State, w: TaskId)
    requires Reachable(s) && AtRest(s)
    requires w in s.tasks && s.tasks[w].pc.Parked?
    ensures exists g :: g in s.tasks && s.tasks[g].pc == Holding(false)
  {
    ReachableInv(s);
    assert Uses(s.tasks[w].pc);
    NoStrandedWaiter(s, w);
    assert At(s.tasks, Holder) != {};
    var g :| g in At(s.tasks, Holder);
  }

  // ------------------------------------------------------------------ the queue

  /** `queued` counts the acquires that wait, plus one for every acquire ever cancelled in the queue:
      the two agree exactly when there was no such cancellation. */
  lemma QueueCount(s: State)
    requires Reachable(s) && s.slot.Some?
    ensures var waiting := set t | t in s.tasks && Is(Queuer, s.tasks[t].pc);
      && s.slot.value.queued == |waiting| + s.leaked
      && (s.slot.value.queued == |waiting| <==> s.leaked == 0)
      && (|waiting| > 0 ==> exists t :: t in s.tasks && |waiting| <= s.tasks[t].maxQueue)
    ensures s.slot.value.queued > 0 ==> exists t :: t in s.tasks && s.slot.value.queued <= s.tasks[t].maxQueue
  {
    ReachableInv(s);
    assert At(s.tasks, Queuer) == set t | t in s.tasks && Is(Queuer, s.tasks[t].pc);
    var es :| IsRun(INITIAL, es, s);
    InitialInv();
    RunWithinLimits(INITIAL, es, s);
  }

  /** A refusal is never given on a whim: the acquire has seen no place and, unless it timed out, no room. */
  lemma RefusalsAreJustified(s: State, t: TaskId)
    requires Reachable(s) && t in s.tasks && s.tasks[t].pc.Refused?
    ensures Justified(s.tasks[t].pc.error, s.tasks[t])
  {
    ReachableInv(s);
  }

  /** The acquires cancelled in the queue since the slot was last removed, `n` before these events. */
  function CancelledSince(n: nat, es: seq<Event>): nat
    decreases |es|
  {
    if es == [] then n
    else CancelledSince(match es[0] case Cancel(_) => n + 1 case Clear => 0 case _ => n, es[1..])
  }

  /** The queue counter is exact in a run exactly when no acquire was cancelled in the queue since the
      slot was made. */
  lemma {:induction false} LeakIsCancellations(s: State, es: seq<Event>, s': State)
    requires IsRun(s, es, s')
    ensures s'.leaked == CancelledSince(s.leaked, es)
    decreases |es|
  {
    if es != [] {
      LeakIsCancellations(Next(s, es[0]), es[1..], s');
    }
  }

  lemma QueueCountExactly(es: seq<Event>, s: State)
    requires IsRun(INITIAL, es, s) && s.slot.Some?
    ensures s.slot.value.queued == |set t | t in s.tasks && Is(Queuer, s.tasks[t].pc)| <==> CancelledSince(0, es) == 0
  {
    QueueCount(s);
    LeakIsCancellations(INITIAL, es, s);
  }

  lemma {:induction false} RunKeepsTasks(s: State, es: seq<Event>, s': State)
    requires IsRun(s, es, s')
    ensures KeepsTasks(s.tasks, s'.tasks)
    decreases |es|
  {
    if es != [] {
      StepKeepsTasks(s, es[0]);
      RunKeepsTasks(Next(s, es[0]), es[1..], s');
    }
  }

  /** Outside the queue, and with a limit no larger than what has leaked. */
  predicate ShutOut(s: State, t: TaskId) {
    s.slot.Some? && (t in s.tasks ==> !Is(Queuer, s.tasks[t].pc) && s.tasks[t].maxQueue <= s.leaked)
  }

  /** The only way into the queue is a compare-exchange on a value below one's own limit. */
  lemma StepKeepsOut(s: State, e: Event, t: TaskId)
    requires Inv(s) && Enabled(s, e) && !e.Clear? && ShutOut(s, t)
    requires e.Arrive? && e.t == t ==> e.maxQueue <= s.leaked
    ensures ShutOut(Next(s, e), t) && s.leaked <= Next(s, e).leaked
  {
    StepKeepsTasks(s, e);
    if t in s.tasks {
      assert TaskOk(s.tasks[t]);
      if e.Advance? && Uses(s.tasks[e.t].pc) { UserKeepsOut(s.slot.value, s.tasks, s.leaked, e.t, t); }
      if e.Cancel? { NotifyKeepsOut(s.slot.value, SetPc(s.tasks, e.t, Finished), t); }
    }
  }

  lemma NotifyKeepsOut(slot: Slot, tasks: map<TaskId, Task>, t: TaskId)
    requires t in tasks && !Is(Queuer, tasks[t].pc)
    ensures var tasks' := NotifyOne(slot, tasks).1; t in tasks' && !Is(Queuer, tasks'[t].pc)
  {}

  lemma UserKeepsOut(slot: Slot, tasks: map<TaskId, Task>, leaked: nat, u: TaskId, t: TaskId)
    requires CountsOk(slot, tasks, leaked) && TasksOk(tasks) && u in tasks && Uses(tasks[u].pc)
    requires t in tasks && !Is(Queuer, tasks[t].pc) && tasks[t].maxQueue <= leaked
    ensures var tasks' := AdvanceUser(slot, tasks, u).1; t in tasks' && !Is(Queuer, tasks'[t].pc)
  {
    match tasks[u].pc {
      case Woken(_) => if u != t { NotifyKeepsOut(slot, SetPc(tasks, u, Leaving(false)), t); }
      case Notifying => NotifyKeepsOut(slot, SetPc(tasks, u, Finished), t);
      case _ =>
    }
  }

  /** Places lost to cancelled acquires are lost for good: once q of them are gone, an acquire with a
      queue limit of q or less never again gets into the queue while the slot lives, whatever limits the
      others come with. */
  lemma LeakedQueueStaysShut(s: State, es: seq<Event>, s': State, q: u32, t: TaskId)
    requires Reachable(s) && s.slot.Some? && s.leaked >= q && (t in s.tasks ==> !Is(Queuer, s.tasks[t].pc))
    requires IsRun(s, es, s') && Clear !in es && t in s'.tasks && s'.tasks[t].maxQueue <= q
    ensures !Is(Queuer, s'.tasks[t].pc)
  {
    ReachableInv(s);
    RunKeepsTasks(s, es, s');
    StaysOut(s, es, s', t);
  }

  lemma {:induction false} StaysOut(s: State, es: seq<Event>, s': State, t: TaskId)
    requires Inv(s) && IsRun(s, es, s') && Clear !in es && ShutOut(s, t)
    requires t in s'.tasks && s'.tasks[t].maxQueue <= s.leaked
    ensures !Is(Queuer, s'.tasks[t].pc)
    decreases |es|
  {
    if es != [] {
      var s1 := Next(s, es[0]);
      assert es[0] in es && forall e :: e in es[1..] ==> e in es;
      RunKeepsTasks(s1, es[1..], s');
      StepKeepsInv(s, es[0]);
      StepKeepsOut(s, es[0], t);
      StaysOut(s1, es[1..], s', t);
    }
  }

  // ------------------------------------------------------------------ work conservation

  /** A free place is never left idle while somebody waits for it. */
  ghost predicate NoIdlePlace(s: State, c: u32) {
    s.slot.Some? && (exists t :: t in s.tasks && s.tasks[t].pc.Parked?) ==> s.slot.value.active >= c
  }

  ghost predicate ConservesWork(c: u32) {
    forall s :: Reachable(s) && AtRest(s) && (forall t :: t in s.tasks ==> s.tasks[t].concurrency == c) ==>
      NoIdlePlace(s, c)
  }

  lemma ReachNext(s: State, e: Event)
    requires Reachable(s) && Enabled(s, e)
    ensures Reachable(Next(s, e))
  {
    var es :| IsRun(INITIAL, es, s);
    assert IsRun(s, [e], Next(s, e)) by { assert [e][1..] == []; }
    RunAppend(INITIAL, es, s, [e], Next(s, e));
  }

  lemma ReachPc(s: State, t: TaskId, slot: Slot, pc: Pc)
    requires Reachable(s) && Enabled(s, Advance(t)) && s.slot.Some?
    requires Uses(s.tasks[t].pc) ==> AdvanceUser(s.slot.value, s.tasks, t) == (slot, SetPc(s.tasks, t, pc))
    requires s.tasks[t].pc.SlotLookup? ==> slot == s.slot.value && pc == LoadActive
    requires Uses(s.tasks[t].pc) || s.tasks[t].pc.SlotLookup?
    ensures Reachable(State(Some(slot), SetPc(s.tasks, t, pc), s.leaked))
  {
    ReachNext(s, Advance(t));
  }

  /** Tasks 0 to n-1 each own a guard of limit c. */
  function Guards(c: u32, n: nat): (tasks: map<TaskId, Task>)
    ensures forall t: TaskId :: t in tasks <==> t < n
    ensures forall t :: t in tasks ==> tasks[t] == Task(c, 2, Holding(false))
  {
    if n == 0 then map[] else Guards(c, n - 1)[n - 1 := Task(c, 2, Holding(false))]
  }

  function Full(c: u32, n: nat): State
    requires n <= c
  {
    State(Some(Slot(n, 0, false, [])), Guards(c, n), 0)
  }

  /** A newcomer finds a place and takes it. */
  lemma TakePlace(s: State, t: TaskId, c: u32)
    requires Reachable(s) && t !in s.tasks && s.slot.Some? && s.slot.value.active < c
    ensures Reachable(State(Some(s.slot.value.(active := s.slot.value.active + 1)),
                            s.tasks[t := Task(c, 2, Holding(false))], s.leaked))
  {
    ReachNext(s, Arrive(t, c, 2));
    var slot, tasks := s.slot.value, s.tasks;
    var s1 := State(s.slot, tasks[t := Task(c, 2, SlotLookup)], s.leaked);
    ReachPc(s1, t, slot, LoadActive);
    TakePlaceFrom(State(s.slot, SetPc(s1.tasks, t, LoadActive), s.leaked), t);
    assert SetPc(SetPc(s1.tasks, t, LoadActive), t, Holding(false)) == tasks[t := Task(c, 2, Holding(false))];
  }

  lemma TakePlaceFrom(s: State, t: TaskId)
    requires Reachable(s) && t in s.tasks && s.tasks[t].pc == LoadActive
    requires s.slot.Some? && s.slot.value.active < s.tasks[t].concurrency
    ensures Reachable(State(Some(s.slot.value.(active := s.slot.value.active + 1)),
                            SetPc(s.tasks, t, Holding(false)), s.leaked))
  {
    var slot := s.slot.value;
    ReachPc(s, t, slot, CasActive(slot.active));
    var s1 := State(s.slot, SetPc(s.tasks, t, CasActive(slot.active)), s.leaked);
    ReachPc(s1, t, slot.(active := slot.active + 1), Holding(false));
    assert SetPc(s1.tasks, t, Holding(false)) == SetPc(s.tasks, t, Holding(false));
  }

  lemma ReachFirst(c: u32)
    requires 1 <= c
    ensures Reachable(Full(c, 1))
  {
    assert Reachable(INITIAL) by { assert IsRun(INITIAL, [], INITIAL); }
    ReachNext(INITIAL, Arrive(0, c, 2));
    var s1 := State(None, map[0 := Task(c, 2, SlotLookup)], 0);
    ReachNext(s1, Advance(0));
    var s2 := State(None, s1.tasks[0 := Task(c, 2, SlotInsert)], 0);
    ReachNext(s2, Advance(0));
    var s3 := State(Some(FRESH_SLOT), s2.tasks[0 := Task(c, 2, LoadActive)], 0);
    TakePlaceFrom(s3, 0);
    assert SetPc(s3.tasks, 0, Holding(false)) == Guards(c, 1);
  }

  lemma {:induction false} ReachFull(c: u32, n: nat)
    requires 1 <= n <= c
    ensures Reachable(Full(c, n))
    decreases n
  {
    if n == 1 {
      ReachFirst(c);
    } else {
      ReachFull(c, n - 1);
      TakePlace(Full(c, n - 1), n - 1, c);
    }
  }

  lemma FindFull(s: State, t: TaskId, c: u32, q: u32)
    requires Reachable(s) && t !in s.tasks && 1 <= c
    requires s.slot.Some? && s.slot.value.active == c
    ensures Reachable(State(s.slot, s.tasks[t := Task(c, q, LoadQueued(c))], s.leaked))
  {
    ReachNext(s, Arrive(t, c, q));
    var s1 := State(s.slot, s.tasks[t := Task(c, q, SlotLookup)], s.leaked);
    ReachPc(s1, t, s.slot.value, LoadActive);
    var s2 := State(s.slot, SetPc(s1.tasks, t, LoadActive), s.leaked);
    ReachPc(s2, t, s.slot.value, LoadQueued(c));
    assert SetPc(s2.tasks, t, LoadQueued(c)) == s.tasks[t := Task(c, q, LoadQueued(c))];
  }

  function Queued(s: State, t: TaskId, c: u32, q: u32): State
    requires s.slot.Some? && s.slot.value.queued < q
  {
    State(Some(s.slot.value.(queued := s.slot.value.queued + 1)), s.tasks[t := Task(c, q, Entering)], s.leaked)
  }

  /** Bring a newcomer to the point where it is counted in the queue but not yet parked. */
  lemma JoinQueue(s: State, t: TaskId, c: u32, q: u32)
    requires Reachable(s) && t !in s.tasks && 1 <= c
    requires s.slot.Some? && s.slot.value.active == c && s.slot.value.queued < q
    ensures Reachable(Queued(s, t, c, q))
  {
    var slot, n := s.slot.value, s.slot.value.queued;
    FindFull(s, t, c, q);
    var s3 := State(s.slot, s.tasks[t := Task(c, q, LoadQueued(c))], s.leaked);
    ReachPc(s3, t, slot, CasQueued(n));
    var s4 := State(s.slot, SetPc(s3.tasks, t, CasQueued(n)), s.leaked);
    ReachPc(s4, t, slot.(queued := n + 1), Entering);
    assert SetPc(s4.tasks, t, Entering) == s.tasks[t := Task(c, q, Entering)];
  }

  // ------------------------------------------------------------------ leaked places are reachable

  /** c guards are out, and k acquires have come, waited and been cancelled. */
  function Leaked(c: u32, q: u32, k: nat): State
    requires 1 <= c && k <= q
  {
    State(Some(Slot(c, k, false, [])), WithGone(c, q, k), k)
  }

  function WithGone(c: u32, q: u32, k: nat): (tasks: map<TaskId, Task>)
    ensures forall t: TaskId :: t in tasks <==> t < c + k
    ensures forall t :: t in tasks ==> tasks[t].pc == if t < c then Holding(false) else Finished
  {
    if k == 0 then Guards(c, c) else WithGone(c, q, k - 1)[c + k - 1 := Task(c, q, Finished)]
  }

  lemma ParkAndCancel(s: State, t: TaskId, task: Task)
    requires Reachable(s) && s.slot.Some? && t in s.tasks && s.tasks[t] == task && task.pc == Entering
    requires !s.slot.value.permit && s.slot.value.waiters == []
    ensures Reachable(State(s.slot, s.tasks[t := task.(pc := Finished)], s.leaked + 1))
  {
    var slot := s.slot.value;
    assert [] + [t] == [t];
    ReachPc(s, t, slot.(waiters := [t]), Parked(false));
    var s1 := State(Some(slot.(waiters := [t])), SetPc(s.tasks, t, Parked(false)), s.leaked);
    assert Without([t], t) == [] by { assert [t][1..] == []; }
    ReachNext(s1, Cancel(t));
    assert SetPc(s1.tasks, t, Finished) == s.tasks[t := task.(pc := Finished)];
  }

  lemma {:induction false} ReachLeaked(c: u32, q: u32, k: nat)
    requires 1 <= c && k <= q
    ensures Reachable(Leaked(c, q, k))
    decreases k
  {
    if k == 0 {
      ReachFull(c, c);
    } else {
      ReachLeaked(c, q, k - 1);
      LeakOneMore(c, q, k - 1);
    }
  }

  lemma LeakOneMore(c: u32, q: u32, k: nat)
    requires 1 <= c && k < q && Reachable(Leaked(c, q, k))
    ensures Reachable(Leaked(c, q, k + 1))
  {
    var s, t := Leaked(c, q, k), c + k;
    JoinQueue(s, t, c, q);
    var s1 := Queued(s, t, c, q);
    ParkAndCancel(s1, t, Task(c, q, Entering));
    assert s1.tasks[t := Task(c, q, Finished)] == s.tasks[t := Task(c, q, Finished)] == Leaked(c, q, k + 1).tasks;
  }

  /** Every queue can be shut this way: q cancelled acquires fill a queue of q places with nobody in it. */
  lemma QueuesLeak(c: u32, q: u32)
    requires 1 <= c
    ensures exists s: State :: Reachable(s) && FullOfNobody(s, q)
  {
    ReachLeaked(c, q, q);
    assert FullOfNobody(Leaked(c, q, q), q);
  }

  predicate FullOfNobody(s: State, q: u32) {
    s.slot.Some? && s.slot.value.queued == s.leaked == q && forall t | t in s.tasks :: !Is(Queuer, s.tasks[t].pc)
  }

  // ------------------------------------------------------------------ two notifications, one permit

  /** Drop a guard while nobody is parked: the notification becomes the one stored permit. */
  lemma DropGuard(s: State, t: TaskId)
    requires Reachable(s) && t in s.tasks && s.tasks[t].pc == Holding(false)
    requires s.slot.Some? && s.slot.value.active >= 1 && s.slot.value.waiters == []
    ensures Reachable(State(Some(s.slot.value.(active := s.slot.value.active - 1, permit := true)),
                            SetPc(s.tasks, t, Finished), s.leaked))
  {
    var slot := s.slot.value;
    var slot1 := slot.(active := slot.active - 1);
    ReachPc(s, t, slot1, Notifying);
    var s1 := State(Some(slot1), SetPc(s.tasks, t, Notifying), s.leaked);
    ReachPc(s1, t, slot1.(permit := true), Finished);
    assert SetPc(s1.tasks, t, Finished) == SetPc(s.tasks, t, Finished);
  }

  /** Consume the permit, give the queue place back and come round to look again. */
  lemma UsePermit(s: State, t: TaskId)
    requires Reachable(s) && t in s.tasks && s.tasks[t].pc == Entering
    requires s.slot.Some? && s.slot.value.permit && s.slot.value.queued >= 1
    ensures Reachable(State(Some(s.slot.value.(queued := s.slot.value.queued - 1, permit := false)),
                            SetPc(s.tasks, t, LoadActive), s.leaked))
  {
    var slot := s.slot.value;
    var slot1 := slot.(permit := false);
    ReachPc(s, t, slot1, Leaving(true));
    var s1 := State(Some(slot1), SetPc(s.tasks, t, Leaving(true)), s.leaked);
    ReachPc(s1, t, slot1.(queued := slot.queued - 1), LoadActive);
    assert SetPc(s1.tasks, t, LoadActive) == SetPc(s.tasks, t, LoadActive);
  }

  /** Two newcomers find all c places taken and are about to park. */
  function Crowded(c: u32): State
    requires c >= 1
  {
    State(Some(Slot(c, 2, false, [])), Guards(c, c)[c := Task(c, 2, Entering)][c + 1 := Task(c, 2, Entering)], 0)
  }

  lemma ReachCrowded(c: u32)
    requires c >= 1
    ensures Reachable(Crowded(c))
  {
    ReachFull(c, c);
    JoinQueue(Full(c, c), c, c, 2);
    JoinQueue(Queued(Full(c, c), c, c, 2), c + 1, c, 2);
  }

  /** The tasks 0 to n-1 have finished. */
  function FinishFirst(tasks: map<TaskId, Task>, n: nat): map<TaskId, Task> {
    map t | t in tasks :: if t < n then tasks[t].(pc := Finished) else tasks[t]
  }

  /** Guards dropped before either newcomer parks: however many, they leave one permit. */
  lemma {:induction false} DropFirst(c: u32, n: nat)
    requires 1 <= n <= c
    ensures Reachable(Thinned(c, n))
    decreases n
  {
    if n == 1 {
      ReachCrowded(c);
      assert FinishFirst(Crowded(c).tasks, 0) == Crowded(c).tasks;
      DropNext(c, 0, Crowded(c));
    } else {
      DropFirst(c, n - 1);
      DropNext(c, n - 1, Thinned(c, n - 1));
    }
  }

  /** n of the guards have been dropped, and one permit is stored. */
  function Thinned(c: u32, n: nat): State
    requires 1 <= n <= c
  {
    State(Some(Slot(c - n, 2, true, [])), FinishFirst(Crowded(c).tasks, n), 0)
  }

  lemma DropNext(c: u32, n: nat, s: State)
    requires n < c && Reachable(s) && s.tasks == FinishFirst(Crowded(c).tasks, n) && s.leaked == 0
    requires s.slot == Some(Slot(c - n, 2, n > 0, []))
    ensures Reachable(Thinned(c, n + 1))
  {
    StillHolding(c, n);
    DropGuard(s, n);
    FinishNext(Crowded(c).tasks, n);
  }

  lemma StillHolding(c: u32, n: nat)
    requires n < c
    ensures var tasks := FinishFirst(Crowded(c).tasks, n); n in tasks && tasks[n].pc == Holding(false)
  {
    assert n in Guards(c, c);
  }

  lemma FinishNext(tasks: map<TaskId, Task>, n: nat)
    requires n in tasks
    ensures var first := FinishFirst(tasks, n); n in first && SetPc(first, n, Finished) == FinishFirst(tasks, n + 1)
  {}

  lemma Park(s: State, t: TaskId)
    requires Reachable(s) && t in s.tasks && s.tasks[t].pc == Entering
    requires s.slot.Some? && !s.slot.value.permit && s.slot.value.waiters == []
    ensures Reachable(State(Some(s.slot.value.(waiters := [t])), SetPc(s.tasks, t, Parked(false)), s.leaked))
  {
    assert [] + [t] == [t];
    ReachPc(s, t, s.slot.value.(waiters := [t]), Parked(false));
  }

  /** Of c guards only k are left, one acquire waits, and nothing is on its way to wake it. */
  function Idle(c: u32, k: nat): State
    requires 1 <= k < c
  {
    State(Some(Slot(k, 1, false, [c + 1])),
          FinishFirst(Crowded(c).tasks, c - k + 1)
            [c := Task(c, 2, Holding(false))][c + 1 := Task(c, 2, Parked(false))], 0)
  }

  /** c - k + 1 guards are dropped before either newcomer parks; the first newcomer uses the one permit and
      takes a place; the second parks beside the other free ones. */
  lemma PermitsMerge(c: u32, k: nat)
    requires 1 <= k < c
    ensures Reachable(Idle(c, k))
  {
    FirstGetsIn(c, k);
    var s := WithFirst(c, k);
    Park(s, c + 1);
    assert SetPc(s.tasks, c + 1, Parked(false)) == Idle(c, k).tasks;
  }

  function WithFirst(c: u32, k: nat): State
    requires 1 <= k < c
  {
    State(Some(Slot(k, 1, false, [])), FinishFirst(Crowded(c).tasks, c - k + 1)[c := Task(c, 2, Holding(false))], 0)
  }

  lemma FirstGetsIn(c: u32, k: nat)
    requires 1 <= k < c
    ensures Reachable(WithFirst(c, k))
  {
    DropFirst(c, c - k + 1);
    UseAndTake(Thinned(c, c - k + 1), c, c, k - 1);
  }

  lemma UseAndTake(s: State, a: TaskId, c: u32, n: u32)
    requires Reachable(s) && a in s.tasks && s.tasks[a] == Task(c, 2, Entering)
    requires s.slot == Some(Slot(n, 2, true, [])) && n < c
    ensures Reachable(State(Some(Slot(n + 1, 1, false, [])), s.tasks[a := Task(c, 2, Holding(false))], s.leaked))
  {
    UsePermit(s, a);
    var s1 := State(Some(Slot(n, 1, false, [])), SetPc(s.tasks, a, LoadActive), s.leaked);
    TakePlaceFrom(s1, a);
    assert SetPc(s1.tasks, a, Holding(false)) == s.tasks[a := Task(c, 2, Holding(false))];
  }

  /** All c places are taken and one acquire waits. */
  function Busy(c: u32): State
    requires c >= 1
  {
    State(Some(Slot(c, 1, false, [c])), Guards(c, c)[c := Task(c, 2, Parked(false))], 0)
  }

  lemma ReachBusy(c: u32)
    requires c >= 1
    ensures Reachable(Busy(c))
  {
    ReachFull(c, c);
    JoinQueue(Full(c, c), c, c, 2);
    var s := Queued(Full(c, c), c, c, 2);
    Park(s, c);
    assert SetPc(s.tasks, c, Parked(false)) == Busy(c).tasks;
  }

  ghost predicate CommonLimit(s: State, c: u32) {
    forall t :: t in s.tasks ==> s.tasks[t].concurrency == c
  }

  /** At rest with a waiter and exactly k guards out. */
  ghost predicate WaitsBeside(s: State, k: nat) {
    && AtRest(s) && (exists t :: t in s.tasks && s.tasks[t].pc.Parked?)
    && |set t | t in s.tasks && s.tasks[t].pc == Holding(false)| == k
  }

  lemma IdleIsIdle(c: u32, k: nat)
    requires 1 <= k < c
    ensures Reachable(Idle(c, k)) && CommonLimit(Idle(c, k), c) && WaitsBeside(Idle(c, k), k)
  {
    PermitsMerge(c, k);
    AdmissionSafety(Idle(c, k));
    assert Idle(c, k).tasks[c + 1].pc.Parked?;
  }

  lemma BusyIsBusy(c: u32)
    requires c >= 1
    ensures Reachable(Busy(c)) && CommonLimit(Busy(c), c) && WaitsBeside(Busy(c), c)
  {
    ReachBusy(c);
    AdmissionSafety(Busy(c));
    assert Busy(c).tasks[c].pc.Parked?;
  }

  /** With a common limit c, an acquire can be left waiting at rest beside exactly k guards if and only if
      k is 1 to c: never beside none, and beside any other number, free places or not. */
  lemma WaitersBesideGuards(c: u32, k: nat)
    requires c >= 1
    ensures (exists s :: Reachable(s) && CommonLimit(s, c) && WaitsBeside(s, k)) <==> 1 <= k <= c
  {
    if 1 <= k < c {
      IdleIsIdle(c, k);
    } else if k == c {
      BusyIsBusy(c);
    }
    if s :| Reachable(s) && CommonLimit(s, c) && WaitsBeside(s, k) {
      NeitherNoneNorMore(s, c, k);
    }
  }

  lemma NeitherNoneNorMore(s: State, c: u32, k: nat)
    requires Reachable(s) && CommonLimit(s, c) && WaitsBeside(s, k)
    ensures 1 <= k <= c
  {
    var w :| w in s.tasks && s.tasks[w].pc.Parked?;
    WaitingAtRestHasAGuard(s, w);
    var g :| g in s.tasks && s.tasks[g].pc == Holding(false);
    var guards := set t | t in s.tasks && s.tasks[t].pc == Holding(false);
    assert g in guards;
    FixedLimit(s, c);
  }

  /** The exact condition: a freed place is always handed on only where there is a single place. */
  lemma WorkConservation(c: u32)
    requires c >= 1
    ensures ConservesWork(c) <==> c == 1
  {
    if c == 1 {
      forall s | Reachable(s) && AtRest(s) && (forall t :: t in s.tasks ==> s.tasks[t].concurrency == c)
        ensures NoIdlePlace(s, c)
      {
        ReachableInv(s);
        if s.slot.Some? && exists t :: t in s.tasks && s.tasks[t].pc.Parked? {
          var t :| t in s.tasks && s.tasks[t].pc.Parked?;
          NoStrandedWaiter(s, t);
        }
      }
    } else {
      IdleIsIdle(c, 1);
    }
  }
}
