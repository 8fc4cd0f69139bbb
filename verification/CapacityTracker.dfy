/** The slot of one (node, model) key as the program updates it: counters and the waiter list change in
    place, one atomic operation at a time. `Acquire` is the acquire loop; before each of its atomic
    operations the other tasks run, as the `turns` argument dictates. It is proved to leave exactly the
    state the machine reaches when it is driven by these turns. */
module CapacityTracker {
  import opened Wrappers
  import opened Words
  import opened CapacityMachine
  import opened CapacityTheorems
  import opened CapacityDriver

  datatype Progress =
    | Admitted(unlimited: bool)
    | Failed(error: AcquireError)
    | Cancelled
    | Unfinished                // the turns ran out
    | Retry                     // go round the loop again; never the result of a whole call

  datatype Wait = Notified | TimedOut | Dropped | OutOfTurns

  /** What the program point of a task says about its call. */
  function ProgressOf(pc: Pc): Progress {
    match pc
    case Holding(unlimited) => Admitted(unlimited)
    case Refused(e) => Failed(e)
    case Finished => Cancelled
    case _ => Unfinished
  }

  /** `r` is what the loop has to say after k of n turns. */
  predicate Stands(r: Progress, pc: Pc, k: nat, n: nat) {
    if r.Retry? then pc.LoadActive? else r == ProgressOf(pc) && (r.Unfinished? ==> k == n)
  }

  /** Where one poll of the suspended future leaves its task. */
  function AfterPoll(w: Wait): Pc {
    match w
    case Notified => Leaving(true)
    case TimedOut => Parked(true)
    case Dropped => Finished
    case OutOfTurns => Parked(false)
  }

  class KeyTracker {
    var present: bool
    var active: u32
    var queued: u32
    var permit: bool
    var waiters: seq<TaskId>
    var tasks: map<TaskId, Task>
    var leaked: nat

    function View(): State
      reads this
    {
      State(if present then Some(Slot(active, queued, permit, waiters)) else None, tasks, leaked)
    }

    ghost predicate Valid()
      reads this
    {
      Reachable(View())
    }

    /** Where t gets from here in the turns from the k-th on. */
    ghost function Ahead(t: TaskId, turns: seq<Turn>, k: nat): State
      requires k <= |turns|
      reads this
    {
      Drive(View(), t, turns[k..])
    }

    constructor ()
      ensures Valid() && View() == INITIAL
    {
      present, active, queued, permit, waiters, tasks, leaked := false, 0, 0, false, [], map[], 0;
      new;
      assert View() == INITIAL;
      assert IsRun(INITIAL, [], INITIAL);
    }

    /** An event of some other task. */
    method Perform(e: Event)
      requires Valid() && Enabled(View(), e)
      modifies this
      ensures Valid() && View() == Next(old(View()), e)
    {
      ReachNext(View(), e);
      var s := Next(View(), e);
      present, tasks, leaked := s.slot.Some?, s.tasks, s.leaked;
      if s.slot.Some? {
        var slot := s.slot.value;
        active, queued, permit, waiters := slot.active, slot.queued, slot.permit, slot.waiters;
      }
    }

    /** The other tasks run; events that cannot happen are skipped. */
    method Interfere(others: seq<Event>, t: TaskId)
      requires Valid() && t in tasks
      modifies this
      ensures Valid() && View() == RunOthers(old(View()), others, t)
      ensures t in tasks && Undisturbed(old(tasks[t]), tasks[t])
      ensures Uses(tasks[t].pc) ==> present
    {
      UserHasSlot(View(), t);
      ReachesSelf(View());
      RunOthersKeeps(View(), View(), others, t);
      var i := 0;
      assert others[0..] == others;
      while i < |others|
        invariant Valid() && 0 <= i <= |others|
        invariant RunOthers(View(), others[i..], t) == RunOthers(old(View()), others, t)
      {
        var e := others[i];
        assert others[i..][0] == e && others[i..][1..] == others[i + 1..];
        if Subject(e) != Some(t) && Enabled(View(), e) {
          Perform(e);
        }
        i := i + 1;
      }
    }

    // ---------------------------------------------------------------- single atomic operations

    method Begin(t: TaskId, concurrency: u32, maxQueue: u32)
      requires Valid() && t !in tasks
      modifies this`tasks
      ensures Valid() && View() == Next(old(View()), Arrive(t, concurrency, maxQueue))
    {
      ReachNext(View(), Arrive(t, concurrency, maxQueue));
      tasks := tasks[t := Task(concurrency, maxQueue, if concurrency == 0 then Holding(true) else SlotLookup)];
    }

    method GetSlot(t: TaskId) returns (found: bool)
      requires Valid() && t in tasks && tasks[t].pc.SlotLookup?
      modifies this`tasks
      ensures Valid() && View() == Next(old(View()), Advance(t))
      ensures found == present && t in tasks && tasks[t].pc == if found then LoadActive else SlotInsert
    {
      ReachNext(View(), Advance(t));
      found := present;
      tasks := SetPc(tasks, t, if found then LoadActive else SlotInsert);
    }

    method OrInsertSlot(t: TaskId)
      requires Valid() && t in tasks && tasks[t].pc.SlotInsert?
      modifies this
      ensures Valid() && View() == Next(old(View()), Advance(t))
      ensures present && t in tasks && tasks[t].pc.LoadActive?
      ensures !old(present) ==> active == 0 && queued == 0 && !permit && waiters == []
      ensures old(present) ==> active == old(active) && queued == old(queued) && waiters == old(waiters)
    {
      ReachNext(View(), Advance(t));
      if !present {
        present, active, queued, permit, waiters := true, 0, 0, false, [];
      }
      tasks := SetPc(tasks, t, LoadActive);
    }

    method ReadActive(t: TaskId) returns (v: u32)
      requires Valid() && present && t in tasks && (tasks[t].pc.LoadActive? || tasks[t].pc.ReportActive?)
      modifies this`tasks
      ensures Valid() && View() == Next(old(View()), Advance(t))
      ensures v == active
    {
      ReachNext(View(), Advance(t));
      v := active;
      var me := tasks[t];
      tasks := SetPc(tasks, t,
        if me.pc.ReportActive? then Refused(WaitTimeout(v, me.concurrency, me.pc.queuedNow))
        else if v < me.concurrency then CasActive(v) else LoadQueued(v));
    }

    method ReadQueued(t: TaskId) returns (v: u32)
      requires Valid() && present && t in tasks && (tasks[t].pc.LoadQueued? || tasks[t].pc.ReportQueued?)
      modifies this`tasks
      ensures Valid() && View() == Next(old(View()), Advance(t))
      ensures v == queued
    {
      ReachNext(View(), Advance(t));
      v := queued;
      var me := tasks[t];
      tasks := SetPc(tasks, t,
        if me.pc.ReportQueued? then ReportActive(v)
        else if me.maxQueue == 0 || v >= me.maxQueue then Refused(QueueFull(me.pc.activeSeen, me.concurrency, v))
        else CasQueued(v));
    }

    /** `active.compare_exchange_weak(seen, seen + 1)`. */
    method TryAdmit(t: TaskId, seen: u32, spurious: bool) returns (won: bool)
      requires Valid() && present && t in tasks && tasks[t].pc == CasActive(seen)
      modifies this`tasks, this`active
      ensures Valid() && View() == Next(old(View()), if spurious then SpuriousFailure(t) else Advance(t))
      ensures won <==> !spurious && old(active) == seen
      ensures active == if won then old(active) + 1 else old(active)
      ensures t in tasks && tasks[t].pc == if won then Holding(false) else LoadActive
    {
      ghost var e := if spurious then SpuriousFailure(t) else Advance(t);
      NoCounterWraps(View(), t);
      ReachNext(View(), e);
      won := !spurious && active == seen;
      if won { active := seen + 1; }
      tasks := SetPc(tasks, t, if won then Holding(false) else LoadActive);
    }

    /** `queued.compare_exchange_weak(seen, seen + 1)`. */
    method TryQueue(t: TaskId, seen: u32, spurious: bool) returns (won: bool)
      requires Valid() && present && t in tasks && tasks[t].pc == CasQueued(seen)
      modifies this`tasks, this`queued
      ensures Valid() && View() == Next(old(View()), if spurious then SpuriousFailure(t) else Advance(t))
      ensures won <==> !spurious && old(queued) == seen
      ensures queued == if won then old(queued) + 1 else old(queued)
      ensures t in tasks && tasks[t].pc == if won then Entering else LoadActive
    {
      ghost var e := if spurious then SpuriousFailure(t) else Advance(t);
      NoCounterWraps(View(), t);
      ReachNext(View(), e);
      won := !spurious && queued == seen;
      if won { queued := seen + 1; }
      tasks := SetPc(tasks, t, if won then Entering else LoadActive);
    }

    /** First poll of `notified()`. */
    method PollFirst(t: TaskId) returns (ready: bool)
      requires Valid() && present && t in tasks && tasks[t].pc == Entering
      modifies this`tasks, this`permit, this`waiters
      ensures Valid() && View() == Next(old(View()), Advance(t))
      ensures ready == old(permit) && !permit && waiters == if ready then old(waiters) else old(waiters) + [t]
      ensures t in tasks && tasks[t].pc == if ready then Leaving(true) else Parked(false)
    {
      ReachNext(View(), Advance(t));
      ready := permit;
      if ready { permit := false; } else { waiters := waiters + [t]; }
      tasks := SetPc(tasks, t, if ready then Leaving(true) else Parked(false));
    }

    /** `notify_one`, as performed by a task that then stands at `pc`. */
    method NotifyFrom(t: TaskId)
      requires Valid() && present && t in tasks && (tasks[t].pc.Notifying? || tasks[t].pc == Woken(true))
      modifies this`tasks, this`permit, this`waiters
      ensures Valid() && View() == Next(old(View()), Advance(t))
      ensures t in tasks && tasks[t].pc == if old(tasks[t].pc.Notifying?) then Finished else Leaving(false)
      ensures if old(waiters) == [] then permit && waiters == [] else
        && permit == old(permit) && waiters == old(waiters)[1..]
        && old(waiters)[0] in tasks && tasks[old(waiters)[0]].pc.Woken?
    {
      ReachNext(View(), Advance(t));
      FirstWaiterIsParked(View());
      tasks := SetPc(tasks, t, if tasks[t].pc.Notifying? then Finished else Leaving(false));
      if waiters == [] {
        permit := true;
      } else {
        var w := waiters[0];
        waiters := waiters[1..];
        tasks := SetPc(tasks, w, Woken(tasks[w].pc.expired));
      }
    }

    method LeaveQueue(t: TaskId)
      requires Valid() && present && t in tasks && tasks[t].pc.Leaving?
      modifies this`tasks, this`queued
      ensures Valid() && View() == Next(old(View()), Advance(t))
      ensures queued == old(queued) - 1
      ensures t in tasks && tasks[t].pc == if old(tasks[t].pc.notified) then LoadActive else ReportQueued
    {
      NoCounterWraps(View(), t);
      ReachNext(View(), Advance(t));
      queued := queued - 1;
      tasks := SetPc(tasks, t, if tasks[t].pc.notified then LoadActive else ReportQueued);
    }

    /** `active.fetch_sub(1)` of a dropped guard. */
    method LeaveSlot(t: TaskId)
      requires Valid() && present && t in tasks && tasks[t].pc == Holding(false)
      modifies this`tasks, this`active
      ensures Valid() && View() == Next(old(View()), Advance(t))
      ensures active == old(active) - 1 && t in tasks && tasks[t].pc.Notifying?
    {
      NoCounterWraps(View(), t);
      ReachNext(View(), Advance(t));
      active := active - 1;
      tasks := SetPc(tasks, t, Notifying);
    }

    /** The suspended future is polled: it finds its notification, notices its deadline, or, having
        noticed it, leaves the waiter list. */
    method PollAgain(t: TaskId, e: Event)
      requires Valid() && present && t in tasks
      requires (e == Advance(t) && (tasks[t].pc == Woken(false) || tasks[t].pc == Parked(true)))
            || (e == Expire(t) && tasks[t].pc == Parked(false))
      modifies this`tasks, this`waiters
      ensures Valid() && View() == Next(old(View()), e)
      ensures t in tasks && tasks[t].pc ==
        if e.Expire? then Parked(true) else if old(tasks[t].pc.Woken?) then Leaving(true) else Leaving(false)
    {
      ReachNext(View(), e);
      var pc := tasks[t].pc;
      if pc == Parked(true) { waiters := Without(waiters, t); }
      tasks := SetPc(tasks, t, if e.Expire? then Parked(true) else if pc.Woken? then Leaving(true) else Leaving(false));
    }

    /** The suspended future is dropped: a notification it holds is passed on, its queue place is lost. */
    method Abandon(t: TaskId)
      requires Valid() && present && t in tasks
      requires tasks[t].pc == Parked(false) || tasks[t].pc == Woken(false)
      modifies this
      ensures Valid() && View() == Next(old(View()), Cancel(t))
      ensures t in tasks && tasks[t].pc.Finished?
      ensures leaked == old(leaked) + 1 && queued == old(queued) && active == old(active)
    {
      FirstWaiterIsParked(View());
      Perform(Cancel(t));
    }

    // ---------------------------------------------------------------- whole operations

    /** Dropping a guard: decrement, then notify, with other tasks in between. */
    method DropGuard(t: TaskId, between: seq<Event>)
      requires Valid() && t in tasks && tasks[t].pc.Holding?
      modifies this
      ensures Valid() && Reaches(old(View()), View())
      ensures View() == AfterDrop(old(View()), t, between)
      ensures t in tasks && tasks[t].pc.Finished?
    {
      DropIsARun(View(), t, between);
      UserHasSlot(View(), t);
      if tasks[t].pc.unlimited {
        Perform(Advance(t));
      } else {
        LeaveSlot(t);
        Interfere(between, t);
        NotifyFrom(t);
      }
    }

    /** The deadline has passed: the future is dropped, passing on a notification that came meanwhile. */
    method GiveUp(t: TaskId, turns: seq<Turn>, k0: nat) returns (w: Wait, k: nat)
      requires Valid() && t in tasks && tasks[t].pc == Parked(true) && k0 <= |turns|
      modifies this
      ensures Valid() && k0 <= k <= |turns| && Ahead(t, turns, k) == old(Ahead(t, turns, k0))
      ensures t in tasks
      ensures (w.TimedOut? && tasks[t].pc == Leaving(false)) || (w.OutOfTurns? && k == |turns| && tasks[t].pc.Parked?)
    {
      k := k0;
      if k == |turns| { return OutOfTurns, k; }
      ghost var s := View();
      Interfere(turns[k].others, t);
      ghost var s1 := View();
      if tasks[t].pc.Woken? {
        NotifyFrom(t);
      } else {
        PollAgain(t, Advance(t));
      }
      TurnDone(s, s1, View(), t, turns, k, Advance(t));
      return TimedOut, k + 1;
    }

    /** The first poll of the future. */
    method StartWaiting(t: TaskId, turns: seq<Turn>, k: nat) returns (ready: bool)
      requires Valid() && t in tasks && tasks[t].pc == Entering && k < |turns|
      modifies this
      ensures Valid() && Ahead(t, turns, k + 1) == old(Ahead(t, turns, k))
      ensures t in tasks && tasks[t].pc == if ready then Leaving(true) else Parked(false)
    {
      ghost var s := View();
      Interfere(turns[k].others, t);
      ghost var s1 := View();
      ready := PollFirst(t);
      TurnDone(s, s1, View(), t, turns, k, Advance(t));
    }

    /** One poll of the suspended future. */
    method PollOnce(t: TaskId, turns: seq<Turn>, k: nat) returns (w: Wait)
      requires Valid() && t in tasks && tasks[t].pc == Parked(false) && k < |turns|
      modifies this
      ensures Valid() && Ahead(t, turns, k + 1) == old(Ahead(t, turns, k))
      ensures t in tasks && tasks[t].pc == AfterPoll(w)
      ensures w.Dropped? ==> leaked > 0
    {
      ghost var s := View();
      Interfere(turns[k].others, t);
      ghost var s1 := View();
      if turns[k].dropped {
        Abandon(t);
        TurnDone(s, s1, View(), t, turns, k, Cancel(t));
        return Dropped;
      }
      if tasks[t].pc.Woken? {
        PollAgain(t, Advance(t));
        TurnDone(s, s1, View(), t, turns, k, Advance(t));
        return Notified;
      }
      if turns[k].deadline {
        PollAgain(t, Expire(t));
        TurnDone(s, s1, View(), t, turns, k, Expire(t));
        return TimedOut;
      }
      TurnIdle(s, s1, t, turns, k);
      return OutOfTurns;
    }

    /** `timeout(remaining, notified()).await`, the future dropped before anything else happens. */
    method AwaitNotified(t: TaskId, turns: seq<Turn>, k0: nat) returns (w: Wait, k: nat)
      requires Valid() && t in tasks && tasks[t].pc == Entering && k0 <= |turns|
      modifies this
      ensures Valid() && k0 <= k <= |turns| && Ahead(t, turns, k) == old(Ahead(t, turns, k0))
      ensures t in tasks
      ensures w.Notified? ==> tasks[t].pc == Leaving(true)
      ensures w.TimedOut? ==> tasks[t].pc == Leaving(false)
      ensures w.Dropped? ==> tasks[t].pc == Finished && leaked > 0
      ensures w.OutOfTurns? ==> k == |turns| && (tasks[t].pc.Entering? || tasks[t].pc.Parked?)
    {
      k := k0;
      if k == |turns| { return OutOfTurns, k; }
      var ready := StartWaiting(t, turns, k);
      k := k + 1;
      if ready { return Notified, k; }
      while k < |turns|
        invariant Valid() && k0 <= k <= |turns| && Ahead(t, turns, k) == old(Ahead(t, turns, k0))
        invariant t in tasks && tasks[t].pc == Parked(false)
      {
        w := PollOnce(t, turns, k);
        k := k + 1;
        if w.TimedOut? {
          w, k := GiveUp(t, turns, k);
          return;
        }
        if !w.OutOfTurns? { return; }
      }
      return OutOfTurns, k;
    }

    /** The two reads of the timeout error. */
    method ReadForReport(t: TaskId, turns: seq<Turn>, k: nat) returns (v: u32)
      requires Valid() && t in tasks && (tasks[t].pc.ReportQueued? || tasks[t].pc.ReportActive?) && k < |turns|
      modifies this
      ensures Valid() && Ahead(t, turns, k + 1) == old(Ahead(t, turns, k))
      ensures t in tasks && tasks[t].concurrency == old(tasks[t]).concurrency
      ensures tasks[t].pc == if old(tasks[t]).pc.ReportQueued? then ReportActive(v)
        else Refused(WaitTimeout(v, tasks[t].concurrency, old(tasks[t]).pc.queuedNow))
      ensures v == if old(tasks[t]).pc.ReportQueued? then queued else active
    {
      ghost var s := View();
      Interfere(turns[k].others, t);
      ghost var s1 := View();
      if tasks[t].pc.ReportQueued? {
        v := ReadQueued(t);
      } else {
        v := ReadActive(t);
      }
      TurnDone(s, s1, View(), t, turns, k, Advance(t));
    }

    /** Read the counters for the timeout error. */
    method ReportTimeout(t: TaskId, turns: seq<Turn>, k0: nat) returns (r: Progress, k: nat)
      requires Valid() && t in tasks && tasks[t].pc == ReportQueued && k0 <= |turns|
      modifies this
      ensures Valid() && k0 <= k <= |turns| && Ahead(t, turns, k) == old(Ahead(t, turns, k0))
      ensures t in tasks && Stands(r, tasks[t].pc, k, |turns|) && !r.Retry? && !r.Cancelled?
    {
      k := k0;
      if k == |turns| { return Unfinished, k; }
      var queuedNow := ReadForReport(t, turns, k);
      k := k + 1;
      if k == |turns| { return Unfinished, k; }
      var activeNow := ReadForReport(t, turns, k);
      k := k + 1;
      r := Failed(WaitTimeout(activeNow, tasks[t].concurrency, queuedNow));
    }

    /** Give the queue place back. */
    method StopWaiting(t: TaskId, turns: seq<Turn>, k: nat)
      requires Valid() && t in tasks && tasks[t].pc.Leaving? && k < |turns|
      modifies this
      ensures Valid() && Ahead(t, turns, k + 1) == old(Ahead(t, turns, k))
      ensures t in tasks && tasks[t].pc == if old(tasks[t]).pc.notified then LoadActive else ReportQueued
    {
      ghost var s := View();
      Interfere(turns[k].others, t);
      ghost var s1 := View();
      LeaveQueue(t);
      TurnDone(s, s1, View(), t, turns, k, Advance(t));
    }

    /** From the queue compare-exchange to the matching decrement. */
    method WaitInQueue(t: TaskId, turns: seq<Turn>, k0: nat) returns (r: Progress, k: nat)
      requires Valid() && t in tasks && tasks[t].pc == Entering && k0 <= |turns|
      modifies this
      ensures Valid() && k0 <= k <= |turns| && Ahead(t, turns, k) == old(Ahead(t, turns, k0))
      ensures t in tasks && Stands(r, tasks[t].pc, k, |turns|)
      ensures r.Cancelled? ==> leaked > 0
    {
      var w;
      w, k := AwaitNotified(t, turns, k0);
      if w.Dropped? { return Cancelled, k; }
      if k == |turns| { return Unfinished, k; }
      StopWaiting(t, turns, k);
      k := k + 1;
      if w.TimedOut? {
        r, k := ReportTimeout(t, turns, k);
      } else {
        r := Retry;
      }
    }

    /** The half of the loop body that looks for a place in the queue. */
    method TryWait(t: TaskId, turns: seq<Turn>, k0: nat, seen: u32) returns (r: Progress, k: nat)
      requires Valid() && t in tasks && tasks[t].pc == LoadQueued(seen) && k0 <= |turns|
      modifies this
      ensures Valid() && k0 <= k <= |turns| && Ahead(t, turns, k) == old(Ahead(t, turns, k0))
      ensures t in tasks && Stands(r, tasks[t].pc, k, |turns|)
      ensures r.Cancelled? ==> leaked > 0
    {
      k := k0;
      if k == |turns| { return Unfinished, k; }
      ghost var s := View();
      Interfere(turns[k].others, t);
      ghost var s1 := View();
      var waiting := ReadQueued(t);
      TurnDone(s, s1, View(), t, turns, k, Advance(t));
      k := k + 1;
      var me := tasks[t];
      if me.maxQueue == 0 || waiting >= me.maxQueue { return Failed(QueueFull(seen, me.concurrency, waiting)), k; }
      if k == |turns| { return Unfinished, k; }
      r, k := TryEnter(t, turns, k, waiting);
    }

    /** The queue compare-exchange and, if it wins, the wait. */
    method TryEnter(t: TaskId, turns: seq<Turn>, k0: nat, waiting: u32) returns (r: Progress, k: nat)
      requires Valid() && t in tasks && tasks[t].pc == CasQueued(waiting) && k0 < |turns|
      modifies this
      ensures Valid() && k0 < k <= |turns| && Ahead(t, turns, k) == old(Ahead(t, turns, k0))
      ensures t in tasks && Stands(r, tasks[t].pc, k, |turns|)
      ensures r.Cancelled? ==> leaked > 0
    {
      ghost var s := View();
      Interfere(turns[k0].others, t);
      ghost var s1 := View();
      var placed := TryQueue(t, waiting, turns[k0].spurious);
      TurnDone(s, s1, View(), t, turns, k0, if turns[k0].spurious then SpuriousFailure(t) else Advance(t));
      k := k0 + 1;
      if !placed { return Retry, k; }
      r, k := WaitInQueue(t, turns, k);
    }

    /** The loop body: one look at the slot. */
    method Attempt(t: TaskId, turns: seq<Turn>, k0: nat) returns (r: Progress, k: nat)
      requires Valid() && t in tasks && tasks[t].pc == LoadActive && k0 < |turns|
      modifies this
      ensures Valid() && k0 < k <= |turns| && Ahead(t, turns, k) == old(Ahead(t, turns, k0))
      ensures t in tasks && Stands(r, tasks[t].pc, k, |turns|)
      ensures r.Cancelled? ==> leaked > 0
    {
      ghost var s := View();
      Interfere(turns[k0].others, t);
      ghost var s1 := View();
      var seen := ReadActive(t);
      TurnDone(s, s1, View(), t, turns, k0, Advance(t));
      k := k0 + 1;
      if seen < tasks[t].concurrency {
        if k == |turns| { return Unfinished, k; }
        r := TakePlaceAt(t, turns, k, seen);
        k := k + 1;
      } else {
        r, k := TryWait(t, turns, k, seen);
      }
    }

    /** The compare-exchange on `active`. */
    method TakePlaceAt(t: TaskId, turns: seq<Turn>, k: nat, seen: u32) returns (r: Progress)
      requires Valid() && t in tasks && tasks[t].pc == CasActive(seen) && k < |turns|
      modifies this
      ensures Valid() && Ahead(t, turns, k + 1) == old(Ahead(t, turns, k))
      ensures t in tasks && Stands(r, tasks[t].pc, k + 1, |turns|) && (r.Admitted? || r.Retry?)
    {
      ghost var s := View();
      Interfere(turns[k].others, t);
      ghost var s1 := View();
      var won := TryAdmit(t, seen, turns[k].spurious);
      TurnDone(s, s1, View(), t, turns, k, if turns[k].spurious then SpuriousFailure(t) else Advance(t));
      r := if won then Admitted(false) else Retry;
    }

    /** Find the slot of the key, or insert a fresh one unless another task was faster. */
    method SlotFor(t: TaskId, turns: seq<Turn>) returns (found: bool, k: nat)
      requires Valid() && t in tasks && tasks[t].pc == SlotLookup
      modifies this
      ensures Valid() && k <= |turns| && Ahead(t, turns, k) == old(Ahead(t, turns, 0))
      ensures t in tasks && k <= 2
      ensures found ==> present && tasks[t].pc == LoadActive
      ensures !found ==> k == |turns| < 2 && tasks[t].pc == if k == 0 then SlotLookup else SlotInsert
    {
      k := 0;
      if k == |turns| { return false, k; }
      ghost var s := View();
      Interfere(turns[k].others, t);
      ghost var s1 := View();
      found := GetSlot(t);
      TurnDone(s, s1, View(), t, turns, k, Advance(t));
      k := k + 1;
      if found || k == |turns| { return; }
      s := View();
      Interfere(turns[k].others, t);
      s1 := View();
      OrInsertSlot(t);
      TurnDone(s, s1, View(), t, turns, k, Advance(t));
      return true, k + 1;
    }

    /** The acquire call, from its first instruction to its result: it goes exactly as far as the turns
        drive it, and says how far that is. */
    method Acquire(t: TaskId, concurrency: u32, maxQueue: u32, turns: seq<Turn>) returns (r: Progress)
      requires Valid() && t !in tasks
      modifies this
      ensures Valid() && Reaches(old(View()), View())
      ensures View() == Drive(Next(old(View()), Arrive(t, concurrency, maxQueue)), t, turns)
      ensures t in tasks && tasks[t].concurrency == concurrency && tasks[t].maxQueue == maxQueue
      ensures r == ProgressOf(tasks[t].pc)
      ensures concurrency == 0 ==> r == Admitted(true) && active == old(active) && queued == old(queued)
      ensures r.Failed? ==> Justified(r.error, tasks[t])
      ensures r.Cancelled? ==> leaked > 0 && exists k :: 0 <= k < |turns| && turns[k].dropped
    {
      ghost var start := View();
      Begin(t, concurrency, maxQueue);
      ghost var begun := View();
      assert turns[0..] == turns;
      if concurrency == 0 {
        r := Admitted(true);
      } else {
        r := Loop(t, turns);
      }
      ArrivalIsDriven(start, t, concurrency, maxQueue, turns);
    }

    method Loop(t: TaskId, turns: seq<Turn>) returns (r: Progress)
      requires Valid() && t in tasks && tasks[t].pc == SlotLookup
      modifies this
      ensures Valid() && View() == Drive(old(View()), t, turns)
      ensures t in tasks && r == ProgressOf(tasks[t].pc)
      ensures r.Cancelled? ==> leaked > 0
    {
      assert turns[0..] == turns;
      var found, k := SlotFor(t, turns);
      r := if found then Retry else Unfinished;
      while r.Retry? && k < |turns|
        invariant Valid() && 0 <= k <= |turns| && Ahead(t, turns, k) == old(Ahead(t, turns, 0))
        invariant t in tasks && Stands(r, tasks[t].pc, k, |turns|)
        invariant r.Cancelled? ==> leaked > 0
        decreases |turns| - k
      {
        r, k := Attempt(t, turns, k);
      }
      if r.Retry? { r := Unfinished; }
    }
  }

  lemma FirstWaiterIsParked(s: State)
    requires Reachable(s)
    ensures s.slot.Some? && s.slot.value.waiters != [] ==>
      s.slot.value.waiters[0] in s.tasks && s.tasks[s.slot.value.waiters[0]].pc.Parked?
  {
    ReachableInv(s);
    assert s.slot.Some? && s.slot.value.waiters != [] ==> s.slot.value.waiters[0] in s.slot.value.waiters;
  }

  /** What the machine promises of an acquire driven from its arrival. */
  lemma ArrivalIsDriven(s: State, t: TaskId, concurrency: u32, maxQueue: u32, turns: seq<Turn>)
    requires Reachable(s) && t !in s.tasks
    ensures var s' := Drive(Next(s, Arrive(t, concurrency, maxQueue)), t, turns);
      && Reaches(s, s') && t in s'.tasks
      && s'.tasks[t].concurrency == concurrency && s'.tasks[t].maxQueue == maxQueue
      && (s'.tasks[t].pc.Refused? ==> Justified(s'.tasks[t].pc.error, s'.tasks[t]))
      && (s'.tasks[t].pc.Finished? ==> exists k :: 0 <= k < |turns| && turns[k].dropped)
  {
    var s1 := Next(s, Arrive(t, concurrency, maxQueue));
    ReachNext(s, Arrive(t, concurrency, maxQueue));
    ReachesSelf(s);
    ReachesThen(s, s, Arrive(t, concurrency, maxQueue));
    DriveIsARun(s, s1, t, turns);
    ReachableInv(Drive(s1, t, turns));
    if !Over(s1.tasks[t].pc) { OnlyDroppedCallsVanish(s1, t, turns); }
  }
}
