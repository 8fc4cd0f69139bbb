/** What a refused acquire reports: every number in its error was read from the slot, at the point of the
    call where the program reads it. Stated over traces, the states of a run one by one. */
module CapacityReports {
  import opened Wrappers
  import opened Words
  import opened CapacityMachine
  import opened CapacityTheorems
  import opened CapacityDriver

  ghost predicate IsTrace(states: seq<State>, es: seq<Event>) {
    && |states| == |es| + 1
    && forall i :: 0 <= i < |es| ==> Enabled(states[i], es[i]) && states[i + 1] == Next(states[i], es[i])
  }

  /** Every run has a trace. */
  lemma {:induction false} TraceOf(s: State, es: seq<Event>, s': State) returns (states: seq<State>)
    requires IsRun(s, es, s')
    ensures IsTrace(states, es) && states[0] == s && states[|es|] == s'
    decreases |es|
  {
    if es == [] {
      states := [s];
    } else {
      var rest := TraceOf(Next(s, es[0]), es[1..], s');
      states := [s] + rest;
      assert forall i :: 1 <= i < |es| ==> es[i] == es[1..][i - 1] && states[i] == rest[i - 1];
    }
  }

  /** In its i-th step the trace lets t advance from this program point. */
  ghost predicate Performs(states: seq<State>, es: seq<Event>, i: nat, t: TaskId, pc: Pc) {
    && i < |es| && i < |states| && es[i] == Advance(t) && t in states[i].tasks && states[i].tasks[t].pc == pc
    && states[i].slot.Some?
  }

  /** t read n places taken, at the top of its loop, in step i. */
  ghost predicate SawActive(states: seq<State>, es: seq<Event>, i: nat, t: TaskId, n: u32) {
    Performs(states, es, i, t, LoadActive) && states[i].slot.value.active == n
  }

  /** And n queued, having found no place. */
  ghost predicate SawQueued(states: seq<State>, es: seq<Event>, i: nat, t: TaskId, activeSeen: u32, n: u32) {
    Performs(states, es, i, t, LoadQueued(activeSeen)) && states[i].slot.value.queued == n
  }

  /** t gave its queue place back in step i, its wait having timed out. */
  ghost predicate GaveUp(states: seq<State>, es: seq<Event>, i: nat, t: TaskId) {
    Performs(states, es, i, t, Leaving(false))
  }

  ghost predicate ReadQueuedLater(states: seq<State>, es: seq<Event>, i: nat, t: TaskId, n: u32) {
    Performs(states, es, i, t, ReportQueued) && states[i].slot.value.queued == n
  }

  ghost predicate ReadActiveLater(states: seq<State>, es: seq<Event>, i: nat, t: TaskId, q: u32, n: u32) {
    Performs(states, es, i, t, ReportActive(q)) && states[i].slot.value.active == n
  }

  /** Before step n, and in this order: t found n places taken and went for the queue. */
  ghost predicate WentForQueue(states: seq<State>, es: seq<Event>, n: nat, t: TaskId, a: u32) {
    exists i: nat :: i < n && SawActive(states, es, i, t, a)
  }

  ghost predicate FoundFull(states: seq<State>, es: seq<Event>, n: nat, t: TaskId, a: u32, q: u32) {
    exists j: nat :: j < n && WentForQueue(states, es, j, t, a) && SawQueued(states, es, j, t, a, q)
  }

  ghost predicate StoppedWaiting(states: seq<State>, es: seq<Event>, n: nat, t: TaskId) {
    exists i: nat :: i < n && GaveUp(states, es, i, t)
  }

  ghost predicate CountedQueue(states: seq<State>, es: seq<Event>, n: nat, t: TaskId, q: u32) {
    exists j: nat :: j < n && StoppedWaiting(states, es, j, t) && ReadQueuedLater(states, es, j, t, q)
  }

  ghost predicate CountedActive(states: seq<State>, es: seq<Event>, n: nat, t: TaskId, q: u32, a: u32) {
    exists k: nat :: k < n && CountedQueue(states, es, k, t, q) && ReadActiveLater(states, es, k, t, q, a)
  }

  /** How t came to stand where it does after n steps, as far as its report is concerned. */
  ghost predicate Story(states: seq<State>, es: seq<Event>, n: nat, t: TaskId, pc: Pc) {
    match pc
    case LoadQueued(a) => WentForQueue(states, es, n, t, a)
    case ReportQueued => StoppedWaiting(states, es, n, t)
    case ReportActive(q) => CountedQueue(states, es, n, t, q)
    case Refused(e) => (
      match e
      case QueueFull(a, _, q) => FoundFull(states, es, n, t, a, q)
      case WaitTimeout(a, _, q) => CountedActive(states, es, n, t, q, a))
    case _ => true
  }

  predicate HasStory(pc: Pc) {
    pc.LoadQueued? || pc.ReportQueued? || pc.ReportActive? || pc.Refused?
  }

  /** The step by which a task can come to stand there, and what it read. */
  predicate ReadsFor(slot: Slot, before: Task, after: Task) {
    match after.pc
    case LoadQueued(a) => before.pc == LoadActive && slot.active == a
    case ReportQueued => before.pc == Leaving(false)
    case ReportActive(q) => before.pc == ReportQueued && slot.queued == q
    case Refused(e) => e.concurrency == after.concurrency && (
      match e
      case QueueFull(a, _, q) => before.pc == LoadQueued(a) && slot.queued == q
      case WaitTimeout(a, _, q) => before.pc == ReportActive(q) && slot.active == a)
    case _ => false
  }

  predicate CameTo(s: State, e: Event, t: TaskId, after: Task) {
    && t in s.tasks
    && (s.tasks[t] == after || (e == Advance(t) && s.slot.Some? && ReadsFor(s.slot.value, s.tasks[t], after)))
  }

  lemma NotifyTellsNoStory(slot: Slot, tasks: map<TaskId, Task>, t: TaskId)
    requires t in tasks
    ensures var tasks' := NotifyOne(slot, tasks).1; t in tasks' && (HasStory(tasks'[t].pc) ==> tasks'[t] == tasks[t])
  {}

  lemma AdvanceTellsStory(slot: Slot, tasks: map<TaskId, Task>, u: TaskId, t: TaskId)
    requires u in tasks && t in tasks && Uses(tasks[u].pc)
    ensures var tasks' := AdvanceUser(slot, tasks, u).1;
      && t in tasks'
      && (HasStory(tasks'[t].pc) ==> tasks'[t] == tasks[t] || (u == t && ReadsFor(slot, tasks[t], tasks'[t])))
  {
    match tasks[u].pc {
      case Woken(_) => NotifyTellsNoStory(slot, SetPc(tasks, u, Leaving(false)), t);
      case Notifying => NotifyTellsNoStory(slot, SetPc(tasks, u, Finished), t);
      case _ =>
    }
  }

  lemma StepTellsStory(s: State, e: Event, t: TaskId)
    requires Enabled(s, e) && t in Next(s, e).tasks && HasStory(Next(s, e).tasks[t].pc)
    ensures CameTo(s, e, t, Next(s, e).tasks[t])
  {
    match e {
      case Advance(u) => if Uses(s.tasks[u].pc) { AdvanceTellsStory(s.slot.value, s.tasks, u, t); }
      case Cancel(u) => NotifyTellsNoStory(s.slot.value, SetPc(s.tasks, u, Finished), t);
      case _ =>
    }
  }

  lemma StoryGrows(states: seq<State>, es: seq<Event>, n: nat, t: TaskId, pc: Pc)
    requires Story(states, es, n, t, pc)
    ensures Story(states, es, n + 1, t, pc)
  {}

  /** The n-th step is the read that this program point tells of. */
  lemma StoryBegins(states: seq<State>, es: seq<Event>, n: nat, t: TaskId, after: Task)
    requires IsTrace(states, es) && n < |es| && es[n] == Advance(t) && t in states[n].tasks && states[n].slot.Some?
    requires ReadsFor(states[n].slot.value, states[n].tasks[t], after) && Story(states, es, n, t, states[n].tasks[t].pc)
    ensures Story(states, es, n + 1, t, after.pc)
  {
    match after.pc {
      case LoadQueued(a) => assert SawActive(states, es, n, t, a);
      case ReportQueued => assert GaveUp(states, es, n, t);
      case ReportActive(q) => assert ReadQueuedLater(states, es, n, t, q);
      case Refused(e) =>
        if e.QueueFull? {
          assert SawQueued(states, es, n, t, e.active, e.queued);
        } else {
          assert ReadActiveLater(states, es, n, t, e.queued, e.active);
        }
      case _ =>
    }
  }

  lemma StoryStep(states: seq<State>, es: seq<Event>, n: nat, t: TaskId)
    requires IsTrace(states, es) && n < |es| && t in states[n + 1].tasks
    requires t in states[n].tasks ==> Story(states, es, n, t, states[n].tasks[t].pc)
    ensures Story(states, es, n + 1, t, states[n + 1].tasks[t].pc)
  {
    var after := states[n + 1].tasks[t];
    if HasStory(after.pc) {
      StepTellsStory(states[n], es[n], t);
      if states[n].tasks[t] == after {
        StoryGrows(states, es, n, t, after.pc);
      } else {
        StoryBegins(states, es, n, t, after);
      }
    }
  }

  lemma {:induction false} StoryHolds(states: seq<State>, es: seq<Event>, n: nat, t: TaskId)
    requires IsTrace(states, es) && n <= |es| && states[0] == INITIAL && t in states[n].tasks
    ensures Story(states, es, n, t, states[n].tasks[t].pc)
    decreases n
  {
    if n > 0 {
      if t in states[n - 1].tasks { StoryHolds(states, es, n - 1, t); }
      StoryStep(states, es, n - 1, t);
    }
  }

  /** For every run: a full queue is reported with the places taken and then the queue length as the call
      itself read them; a timeout with the queue length and then the places taken as read after the call had
      given its queue place back. */
  lemma ReportsAreReadings(states: seq<State>, es: seq<Event>, n: nat, t: TaskId)
    requires IsTrace(states, es) && n <= |es| && states[0] == INITIAL
    requires t in states[n].tasks && states[n].tasks[t].pc.Refused?
    ensures var e := states[n].tasks[t].pc.error;
      && e.concurrency == states[n].tasks[t].concurrency
      && (e.QueueFull? ==> FoundFull(states, es, n, t, e.active, e.queued))
      && (e.WaitTimeout? ==> CountedActive(states, es, n, t, e.queued, e.active))
  {
    StoryHolds(states, es, n, t);
    assert IsRun(states[0], es[..n], states[n]) by { TraceIsRun(states, es, 0, n); assert es[0..n] == es[..n]; }
    RefusalsAreJustified(states[n], t);
  }

  lemma {:induction false} TraceIsRun(states: seq<State>, es: seq<Event>, i: nat, n: nat)
    requires IsTrace(states, es) && i <= n <= |es|
    ensures IsRun(states[i], es[i..n], states[n])
    decreases n - i
  {
    if i < n {
      TraceIsRun(states, es, i + 1, n);
      assert es[i..n][1..] == es[i + 1..n];
    }
  }

  /** The call has been told these counters; the slot is as it was but for its queue length, and t is on no
      list. */
  ghost predicate ToldCounters(s: State, t: TaskId, slot: Slot, active: u32, concurrency: u32, queued: u32) {
    && t in s.tasks && s.tasks[t].pc == Refused(WaitTimeout(active, concurrency, queued))
    && s.slot == Some(slot.(queued := queued))
  }

  /** Left alone while it waits, a call whose deadline passes leaves the queue and reports the counters without
      itself. */
  lemma DeadlineAlone(s: State, t: TaskId, turns: seq<Turn>)
    requires Reachable(s) && t in s.tasks && s.tasks[t].pc == Parked(false) && s.slot.Some?
    requires Quiet(turns) && |turns| >= 5 && turns[0].deadline && !turns[0].dropped
    ensures var slot := s.slot.value;
      && slot.queued > 0 && t !in Without(slot.waiters, t)
      && ToldCounters(Drive(s, t, turns), t, slot.(waiters := Without(slot.waiters, t)),
                      slot.active, s.tasks[t].concurrency, slot.queued - 1)
  {
    GivesUpAlone(s, t, turns);
    TellsAlone(GaveUpAlone(s, t), t, turns, 2);
  }

  lemma TellsAlone(s: State, t: TaskId, turns: seq<Turn>, k: nat)
    requires t in s.tasks && s.tasks[t].pc == Leaving(false) && s.slot.Some? && s.slot.value.queued > 0
    requires Quiet(turns) && k + 3 <= |turns|
    ensures ToldCounters(Drive(s, t, turns[k..]), t, s.slot.value,
                         s.slot.value.active, s.tasks[t].concurrency, s.slot.value.queued - 1)
  {
    LeavesAlone(s, t, turns, k);
    TimedOutFrom(LeftAlone(s, t), t, turns, k + 1);
  }

  /** The list without t, and t about to give its queue place back. */
  function GaveUpAlone(s: State, t: TaskId): State
    requires s.slot.Some? && t in s.tasks
  {
    var slot := s.slot.value;
    s.(slot := Some(slot.(waiters := Without(slot.waiters, t))), tasks := SetPc(s.tasks, t, Leaving(false)))
  }

  function LeftAlone(s: State, t: TaskId): State
    requires s.slot.Some? && s.slot.value.queued > 0 && t in s.tasks
  {
    s.(slot := Some(s.slot.value.(queued := s.slot.value.queued - 1)), tasks := SetPc(s.tasks, t, ReportQueued))
  }

  lemma GivesUpAlone(s: State, t: TaskId, turns: seq<Turn>)
    requires Reachable(s) && t in s.tasks && s.tasks[t].pc == Parked(false) && s.slot.Some?
    requires Quiet(turns) && |turns| >= 2 && turns[0].deadline && !turns[0].dropped
    ensures Drive(s, t, turns) == Drive(GaveUpAlone(s, t), t, turns[2..])
    ensures t !in GaveUpAlone(s, t).slot.value.waiters && s.slot.value.queued > 0
  {
    assert turns[0..] == turns;
    var s1, s2 := Next(s, Expire(t)), GaveUpAlone(s, t);
    TurnDone(s, s, s1, t, turns, 0, Expire(t));
    assert Next(s1, Advance(t)).tasks == s2.tasks;
    TurnDone(s1, s1, s2, t, turns, 1, Advance(t));
    WithoutIs(s.slot.value.waiters, t);
    ReachableInv(s);
    assert t in At(s.tasks, Queuer);
  }

  lemma LeavesAlone(s: State, t: TaskId, turns: seq<Turn>, k: nat)
    requires t in s.tasks && s.tasks[t].pc == Leaving(false) && s.slot.Some? && s.slot.value.queued > 0
    requires Quiet(turns) && k < |turns|
    ensures Drive(s, t, turns[k..]) == Drive(LeftAlone(s, t), t, turns[k + 1..])
  {
    QuietTurn(s, t, turns, k);
  }

  lemma TimedOutFrom(s: State, t: TaskId, turns: seq<Turn>, k: nat)
    requires t in s.tasks && s.tasks[t].pc.ReportQueued? && s.slot.Some? && Quiet(turns) && k + 2 <= |turns|
    ensures var slot, s' := s.slot.value, Drive(s, t, turns[k..]);
      && s'.slot == s.slot && t in s'.tasks
      && s'.tasks[t].pc == Refused(WaitTimeout(slot.active, s.tasks[t].concurrency, slot.queued))
  {
    QuietTurn(s, t, turns, k);
    var s1 := Next(s, Advance(t));
    QuietTurn(s1, t, turns, k + 1);
    var s2 := Next(s1, Advance(t));
    assert Drive(s2, t, turns[k + 2..]) == s2;
  }

  /** Left alone after its wait timed out, a call reports the two counters as they stand, each under its own
      name. */
  lemma TimedOutAlone(s: State, t: TaskId, turns: seq<Turn>)
    requires t in s.tasks && s.tasks[t].pc.ReportQueued? && s.slot.Some? && Quiet(turns) && |turns| >= 2
    ensures var slot, s' := s.slot.value, Drive(s, t, turns);
      t in s'.tasks && s'.tasks[t].pc == Refused(WaitTimeout(slot.active, s.tasks[t].concurrency, slot.queued))
  {
    assert turns[0..] == turns;
    TimedOutFrom(s, t, turns, 0);
  }
}
