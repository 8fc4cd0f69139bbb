/** The usage batcher under concurrency: any number of adds, flushes, sweeps, removals and shutdowns,
    interleaved at their critical sections. The chain answers or fails, and the flush interval has
    passed or not, as each event says. */
module UsageMachine {
  import opened Words
  import opened UsageBooks

  type JobId = nat

  /** What a flush returns to. */
  datatype After = Stop | Sweeping(ids: seq<SessionId>) | Removing(sid: SessionId) | ShuttingDown(ids: seq<SessionId>)

  datatype Job =
    | AddLookup(sid: SessionId, input: u64, output: u64)
    | AddFetch(sid: SessionId, input: u64, output: u64)
    | AddUpdate(sid: SessionId, input: u64, output: u64)
    | SweepNext(ids: seq<SessionId>)
    | ShutdownNext(ids: seq<SessionId>)
    | RemoveEntry(sid: SessionId)
    | FlushLookup(sid: SessionId, force: bool, wait: bool, after: After)
    | FlushFetch(sid: SessionId, force: bool, wait: bool, after: After)
    | FlushTake(sid: SessionId, force: bool, wait: bool, after: After)
    | HandingOver(parcel: nat, wait: bool, after: After)
    | Awaiting(parcel: nat, after: After)
    | Done

  datatype State = State(books: Books, jobs: map<JobId, Job>)

  const INITIAL := State(EMPTY, map[])

  datatype Event =
    | StartAdd(j: JobId, sid: SessionId, input: u64, output: u64)
    | StartFlush(j: JobId, sid: SessionId)
    | StartRemove(j: JobId, sid: SessionId)
    | StartSweep(j: JobId, ids: seq<SessionId>)
    | StartShutdown(j: JobId, ids: seq<SessionId>)
    | Step(j: JobId, chainAnswers: bool, elapsed: bool, now: nat)
    | Try(parcel: nat, ok: bool)

  function Resume(a: After): Job {
    match a
    case Stop => Done
    case Sweeping(ids) => SweepNext(ids)
    case Removing(sid) => RemoveEntry(sid)
    case ShuttingDown(ids) => ShutdownNext(ids)
  }

  /** The retry loop of this parcel has ended. */
  predicate Resolved(b: Books, i: nat)
    requires i < |b.parcels|
  {
    GroupOf(b.parcels[i].fate) != InFlight
  }

  predicate Enabled(s: State, e: Event) {
    match e
    case Step(j, _, _, _) =>
      && j in s.jobs && !s.jobs[j].Done?
      && (s.jobs[j].HandingOver? ==> s.jobs[j].parcel < |s.books.parcels|)
      // an awaited retry loop has to end first
      && (s.jobs[j].Awaiting? ==> s.jobs[j].parcel < |s.books.parcels| && Resolved(s.books, s.jobs[j].parcel))
    case Try(i, _) => i < |s.books.parcels| && s.books.parcels[i].fate.Trying?
    case _ => e.j !in s.jobs
  }

  function NextJob(b: Books, job: Job, chunk: u64, chainAnswers: bool, elapsed: bool, now: nat): (Books, Job)
    requires job.HandingOver? ==> job.parcel < |b.parcels|
  {
    match job
    case AddLookup(sid, i, o) => (b, if sid in b.sessions then AddUpdate(sid, i, o) else AddFetch(sid, i, o))
    case AddFetch(sid, i, o) => (if chainAnswers then Ensure(b, sid, now) else b, AddUpdate(sid, i, o))
    case AddUpdate(sid, i, o) =>
      var b' := Add(b, sid, i, o);
      var full := sid in b'.sessions && Total(b'.sessions[sid]) >= chunk;
      (b', if full then FlushLookup(sid, false, false, Stop) else Done)
    case SweepNext(ids) =>
      if ids == [] then (b, Done)
      else if ids[0] in b.sessions && Total(b.sessions[ids[0]]) > 0 && elapsed
      then (b, FlushLookup(ids[0], true, false, Sweeping(ids[1..])))
      else (b, SweepNext(ids[1..]))
    case ShutdownNext(ids) =>
      (b, if ids == [] then Done else FlushLookup(ids[0], true, true, ShuttingDown(ids[1..])))
    case RemoveEntry(sid) => (Remove(b, sid), Done)
    case FlushLookup(sid, f, w, a) =>
      (b, if sid in b.sessions then FlushTake(sid, f, w, a) else FlushFetch(sid, f, w, a))
    case FlushFetch(sid, f, w, a) => (if chainAnswers then Ensure(b, sid, now) else b, FlushTake(sid, f, w, a))
    case FlushTake(sid, f, w, a) =>
      if Takes(b, sid, f, chunk, elapsed) then (Take(b, sid, now), HandingOver(|b.parcels|, w, a)) else (b, Resume(a))
    case HandingOver(i, w, a) => (HandOver(b, i), if w then Awaiting(i, a) else Resume(a))
    case Awaiting(_, a) => (b, Resume(a))
    case Done => (b, Done)
  }

  function Next(s: State, e: Event, chunk: u64): State
    requires Enabled(s, e)
  {
    match e
    case StartAdd(j, sid, i, o) =>
      s.(jobs := s.jobs[j := if i == 0 && o == 0 then Done else AddLookup(sid, i, o)])
    case StartFlush(j, sid) => s.(jobs := s.jobs[j := FlushLookup(sid, true, false, Stop)])
    case StartRemove(j, sid) => s.(jobs := s.jobs[j := FlushLookup(sid, true, false, Removing(sid))])
    case StartSweep(j, ids) => s.(jobs := s.jobs[j := SweepNext(ids)])
    case StartShutdown(j, ids) => s.(jobs := s.jobs[j := ShutdownNext(ids)])
    case Step(j, chain, elapsed, now) =>
      var (b, job) := NextJob(s.books, s.jobs[j], chunk, chain, elapsed, now);
      State(b, s.jobs[j := job])
    case Try(i, ok) => s.(books := Attempt(s.books, i, ok))
  }

  ghost predicate IsRun(s: State, es: seq<Event>, s': State, chunk: u64)
    decreases |es|
  {
    if es == [] then s == s' else Enabled(s, es[0]) && IsRun(Next(s, es[0], chunk), es[1..], s', chunk)
  }

  ghost predicate Reachable(s: State, chunk: u64) {
    exists es :: IsRun(INITIAL, es, s, chunk)
  }

  // ------------------------------------------------------------------ invariants

  /** The job will still run the locked part of `flush_session` on this session. */
  predicate Committed(job: Job, sid: SessionId) {
    (job.FlushLookup? || job.FlushFetch? || job.FlushTake?) && job.sid == sid
  }

  ghost predicate SomeoneWillFlush(s: State, sid: SessionId) {
    exists j :: j in s.jobs && Committed(s.jobs[j], sid)
  }

  ghost predicate ObligationOk(s: State, chunk: u64) {
    forall sid :: sid in s.books.sessions && Total(s.books.sessions[sid]) >= chunk ==> SomeoneWillFlush(s, sid)
  }

  ghost predicate SomeoneHandsOver(s: State, i: nat) {
    exists j :: j in s.jobs && s.jobs[j].HandingOver? && s.jobs[j].parcel == i
  }

  /** Taken parcels and jobs about to hand one over are the same thing. */
  ghost predicate HandOverOk(s: State) {
    && (forall i: nat :: i < |s.books.parcels| && s.books.parcels[i].fate.Taken? ==> SomeoneHandsOver(s, i))
    && (forall j :: j in s.jobs ==> HandlesOk(s.books.parcels, s.jobs[j]))
    && (forall j, k :: j in s.jobs && k in s.jobs && Rivals(s.jobs[j], s.jobs[k]) ==> j == k)
  }

  predicate HandlesOk(ps: seq<Parcel>, job: Job) {
    && (job.HandingOver? ==> job.parcel < |ps| && ps[job.parcel].fate.Taken?)
    && (job.Awaiting? ==> job.parcel < |ps| && !ps[job.parcel].fate.Taken?)
  }

  /** Both are about to hand over the same parcel. */
  predicate Rivals(a: Job, b: Job) {
    a.HandingOver? && b.HandingOver? && a.parcel == b.parcel
  }

  ghost predicate Inv(s: State, chunk: u64) {
    BooksOk(s.books) && ObligationOk(s, chunk) && HandOverOk(s)
  }

  lemma JobKeepsBooks(b: Books, job: Job, chunk: u64, chainAnswers: bool, elapsed: bool, now: nat)
    requires BooksOk(b)
    requires job.HandingOver? ==> job.parcel < |b.parcels| && b.parcels[job.parcel].fate.Taken?
    ensures BooksOk(NextJob(b, job, chunk, chainAnswers, elapsed, now).0)
  {
    match job
    case AddFetch(sid, _, _) => EnsureKeeps(b, sid, now);
    case FlushFetch(sid, _, _, _) => EnsureKeeps(b, sid, now);
    case AddUpdate(sid, i, o) => AddKeeps(b, sid, i, o);
    case RemoveEntry(sid) => RemoveKeeps(b, sid);
    case FlushTake(sid, f, _, _) => if Takes(b, sid, f, chunk, elapsed) { TakeKeeps(b, sid, now); }
    case HandingOver(i, _, _) => SetFateKeeps(b, i, Trying(1), b.parcels[i].handed + 1);
    case _ =>
  }

  /** Only an add can take a session to the chunk size, and it then commits itself; only the locked part
      of a flush ends a commitment, and it leaves the session below the chunk. */
  lemma JobKeepsObligation(s: State, e: Event, chunk: u64)
    requires chunk >= 1 && e.Step? && Enabled(s, e) && ObligationOk(s, chunk)
    ensures ObligationOk(Next(s, e, chunk), chunk)
  {
    var s', j := Next(s, e, chunk), e.j;
    forall sid | sid in s'.books.sessions && Total(s'.books.sessions[sid]) >= chunk
      ensures SomeoneWillFlush(s', sid)
    {
      if Committed(s'.jobs[j], sid) {
      } else {
        assert sid in s.books.sessions && s.books.sessions[sid] == s'.books.sessions[sid];
        var k :| k in s.jobs && Committed(s.jobs[k], sid);
        assert k in s'.jobs && Committed(s'.jobs[k], sid);
      }
    }
  }

  /** What one step of a job does to the list of parcels. */
  lemma JobAndParcels(b: Books, job: Job, chunk: u64, chain: bool, elapsed: bool, now: nat)
    requires HandlesOk(b.parcels, job)
    ensures var (b', job') := NextJob(b, job, chunk, chain, elapsed, now);
      var ps, ps' := b.parcels, b'.parcels;
      if job.HandingOver? then
        && |ps'| == |ps| && ps'[job.parcel].fate == Trying(1) && !job'.HandingOver?
        && (forall i :: 0 <= i < |ps| && i != job.parcel ==> ps'[i] == ps[i])
        && (job'.Awaiting? ==> job'.parcel == job.parcel)
      else if job'.HandingOver? then
        |ps'| == |ps| + 1 && ps' == ps + [ps'[|ps|]] && ps'[|ps|].fate.Taken? && job'.parcel == |ps|
      else ps' == ps && !job'.Awaiting?
  {}

  lemma JobKeepsHandOver(s: State, e: Event, chunk: u64)
    requires e.Step? && Enabled(s, e) && HandOverOk(s)
    ensures HandOverOk(Next(s, e, chunk))
  {
    var j := e.j;
    JobAndParcels(s.books, s.jobs[j], chunk, e.chainAnswers, e.elapsed, e.now);
    HandOverStays(s, Next(s, e, chunk), j);
  }

  lemma HandOverStays(s: State, s': State, j: JobId)
    requires HandOverOk(s) && j in s.jobs && j in s'.jobs && s'.jobs == s.jobs[j := s'.jobs[j]]
    requires var ps, ps', job, job' := s.books.parcels, s'.books.parcels, s.jobs[j], s'.jobs[j];
      if job.HandingOver? then
        && |ps'| == |ps| && ps'[job.parcel].fate == Trying(1) && !job'.HandingOver?
        && (forall i :: 0 <= i < |ps| && i != job.parcel ==> ps'[i] == ps[i])
        && (job'.Awaiting? ==> job'.parcel == job.parcel)
      else if job'.HandingOver? then
        |ps'| == |ps| + 1 && ps' == ps + [ps'[|ps|]] && ps'[|ps|].fate.Taken? && job'.parcel == |ps|
      else ps' == ps && !job'.Awaiting?
    ensures HandOverOk(s')
  {
    forall i: nat | i < |s'.books.parcels| && s'.books.parcels[i].fate.Taken? ensures SomeoneHandsOver(s', i) {
      if i == |s.books.parcels| {
        assert j in s'.jobs && s'.jobs[j].HandingOver? && s'.jobs[j].parcel == i;
      } else {
        assert s.books.parcels[i].fate.Taken?;
        var k :| k in s.jobs && s.jobs[k].HandingOver? && s.jobs[k].parcel == i;
        assert k in s'.jobs && s'.jobs[k] == s.jobs[k];
      }
    }
    forall k | k in s'.jobs ensures HandlesOk(s'.books.parcels, s'.jobs[k]) {
      assert HandlesOk(s.books.parcels, s.jobs[k]);
      assert k != j && Rivals(s.jobs[k], s.jobs[j]) ==> false;
    }
  }

  lemma StepKeepsInv(s: State, e: Event, chunk: u64)
    requires chunk >= 1 && Inv(s, chunk) && Enabled(s, e)
    ensures Inv(Next(s, e, chunk), chunk)
  {
    var s' := Next(s, e, chunk);
    match e
    case Step(j, chain, elapsed, now) =>
      JobKeepsBooks(s.books, s.jobs[j], chunk, chain, elapsed, now);
      JobKeepsObligation(s, e, chunk);
      JobKeepsHandOver(s, e, chunk);
    case Try(i, ok) =>
      SetFateKeeps(s.books, i, AfterAttempt(s.books.parcels[i].fate.attempt, ok), s.books.parcels[i].handed);
      forall sid | sid in s'.books.sessions && Total(s'.books.sessions[sid]) >= chunk
        ensures SomeoneWillFlush(s', sid)
      {
        assert SomeoneWillFlush(s, sid);
      }
      forall k: nat | k < |s'.books.parcels| && s'.books.parcels[k].fate.Taken? ensures SomeoneHandsOver(s', k) {
        assert SomeoneHandsOver(s, k);
      }
    case _ =>
      StartKeeps(s, e.j, s'.jobs[e.j], chunk);
  }

  lemma StartKeeps(s: State, j: JobId, job: Job, chunk: u64)
    requires Inv(s, chunk) && j !in s.jobs && !job.HandingOver? && !job.Awaiting?
    ensures Inv(s.(jobs := s.jobs[j := job]), chunk)
  {
    var s' := s.(jobs := s.jobs[j := job]);
    assert forall k :: k in s.jobs ==> k in s'.jobs && s'.jobs[k] == s.jobs[k];
    forall sid | sid in s'.books.sessions && Total(s'.books.sessions[sid]) >= chunk ensures SomeoneWillFlush(s', sid) {
      var k :| k in s.jobs && Committed(s.jobs[k], sid);
      assert k in s'.jobs && Committed(s'.jobs[k], sid);
    }
    forall i: nat | i < |s'.books.parcels| && s'.books.parcels[i].fate.Taken? ensures SomeoneHandsOver(s', i) {
      var k :| k in s.jobs && s.jobs[k].HandingOver? && s.jobs[k].parcel == i;
      assert k in s'.jobs && s'.jobs[k] == s.jobs[k];
    }
  }

  lemma {:induction false} RunKeepsInv(s: State, es: seq<Event>, s': State, chunk: u64)
    requires chunk >= 1 && Inv(s, chunk) && IsRun(s, es, s', chunk)
    ensures Inv(s', chunk)
    decreases |es|
  {
    if es != [] {
      StepKeepsInv(s, es[0], chunk);
      RunKeepsInv(Next(s, es[0], chunk), es[1..], s', chunk);
    }
  }

  lemma ReachableInv(s: State, chunk: u64)
    requires chunk >= 1 && Reachable(s, chunk)
    ensures Inv(s, chunk)
  {
    var es :| IsRun(INITIAL, es, s, chunk);
    assert forall sid: SessionId, d: Dir :: BalancedFor(EMPTY, sid, d) && FitsFor(EMPTY, sid, d);
    RunKeepsInv(INITIAL, es, s, chunk);
  }

  // ------------------------------------------------------------------ the promises

  /** Tokens that are pending, in flight, confirmed or abandoned after all attempts. */
  function Known(b: Books, sid: SessionId, d: Dir): nat {
    PendingOf(b, sid, d) + ParcelSum(b.parcels, InFlight, sid, d)
      + ParcelSum(b.parcels, Settled, sid, d) + ParcelSum(b.parcels, Failed, sid, d)
  }

  /** Billing conservation: pending, in flight, confirmed and abandoned tokens never exceed the accepted
      ones, and equal them exactly when no counter saturated and no removal found pending tokens; and no
      counter saturates while 64 bits hold all that was accepted. */
  lemma Conservation(s: State, chunk: u64, sid: SessionId, d: Dir)
    requires chunk >= 1 && Reachable(s, chunk)
    ensures var b := s.books;
      && Known(b, sid, d) <= NoteSum(b.notes, Accepted, sid, d)
      && (Known(b, sid, d) == NoteSum(b.notes, Accepted, sid, d) <==>
            NoteSum(b.notes, Truncated, sid, d) == 0 && NoteSum(b.notes, Discarded, sid, d) == 0)
      && (NoteSum(b.notes, Accepted, sid, d) <= U64_MAX ==> NoteSum(b.notes, Truncated, sid, d) == 0)
  {
    ReachableInv(s, chunk);
    assert BalancedFor(s.books, sid, d) && FitsFor(s.books, sid, d);
  }

  /** No removal of this session is started. */
  ghost predicate NoRemoval(es: seq<Event>, sid: SessionId) {
    forall e :: e in es ==> !(e.StartRemove? && e.sid == sid)
  }

  /** The job is part of a removal of this session. */
  predicate WillRemove(job: Job, sid: SessionId) {
    match job
    case RemoveEntry(s) => s == sid
    case FlushLookup(_, _, _, a) => a == Removing(sid)
    case FlushFetch(_, _, _, a) => a == Removing(sid)
    case FlushTake(_, _, _, a) => a == Removing(sid)
    case HandingOver(_, _, a) => a == Removing(sid)
    case Awaiting(_, a) => a == Removing(sid)
    case _ => false
  }

  ghost predicate Kept(s: State, sid: SessionId, d: Dir) {
    NoteSum(s.books.notes, Discarded, sid, d) == 0 && forall j :: j in s.jobs ==> !WillRemove(s.jobs[j], sid)
  }

  /** Only a removal discards tokens of its session. */
  lemma JobKeeps(b: Books, job: Job, chunk: u64, chain: bool, elapsed: bool, now: nat, sid: SessionId, d: Dir)
    requires !WillRemove(job, sid) && (job.HandingOver? ==> job.parcel < |b.parcels|)
    ensures var (b', job') := NextJob(b, job, chunk, chain, elapsed, now);
      && !WillRemove(job', sid)
      && NoteSum(b'.notes, Discarded, sid, d) == NoteSum(b.notes, Discarded, sid, d)
  {
    match job
    case AddUpdate(s, i, o) => AddDiscardsNothing(b, s, i, o, sid, d);
    case RemoveEntry(s) => RemoveDiscardsItsOwn(b, s, sid, d);
    case _ =>
  }

  lemma AddDiscardsNothing(b: Books, s: SessionId, input: u64, output: u64, sid: SessionId, d: Dir)
    ensures NoteSum(Add(b, s, input, output).notes, Discarded, sid, d) == NoteSum(b.notes, Discarded, sid, d)
  {
    if s in b.sessions {
      var ns, n := Add(b, s, input, output).notes, |b.notes|;
      NoteAppend(b.notes, ns[n], Discarded, sid, d);
      NoteAppend(b.notes + [ns[n]], ns[n + 1], Discarded, sid, d);
    } else {
      NoteAppend(b.notes, Add(b, s, input, output).notes[|b.notes|], Discarded, sid, d);
    }
  }

  lemma RemoveDiscardsItsOwn(b: Books, s: SessionId, sid: SessionId, d: Dir)
    requires s != sid
    ensures NoteSum(Remove(b, s).notes, Discarded, sid, d) == NoteSum(b.notes, Discarded, sid, d)
  {
    if s in b.sessions {
      NoteAppend(b.notes, Remove(b, s).notes[|b.notes|], Discarded, sid, d);
    }
  }

  lemma {:induction false} NothingDiscarded(s: State, es: seq<Event>, s': State, chunk: u64, sid: SessionId, d: Dir)
    requires IsRun(s, es, s', chunk) && NoRemoval(es, sid) && Kept(s, sid, d)
    ensures Kept(s', sid, d)
    decreases |es|
  {
    if es != [] {
      var e := es[0];
      assert e in es && forall x :: x in es[1..] ==> x in es;
      if e.Step? { JobKeeps(s.books, s.jobs[e.j], chunk, e.chainAnswers, e.elapsed, e.now, sid, d); }
      NothingDiscarded(Next(s, e, chunk), es[1..], s', chunk, sid, d);
    }
  }

  /** At most `limit` tokens were accepted for the session, and, unless it may be, it was not removed. */
  ghost predicate InBounds(es: seq<Event>, s: State, sid: SessionId, d: Dir, limit: nat, removing: bool) {
    NoteSum(s.books.notes, Accepted, sid, d) <= limit && (removing || NoRemoval(es, sid))
  }

  /** Every token is accounted for in all runs within these bounds. */
  ghost predicate LosesNothing(limit: nat, removing: bool, chunk: u64) {
    forall es, s, sid: SessionId, d: Dir :: IsRun(INITIAL, es, s, chunk) && InBounds(es, s, sid, d, limit, removing) ==>
      Known(s.books, sid, d) == NoteSum(s.books.notes, Accepted, sid, d)
  }

  /** The exact condition: no token is lost as long as 64 bits hold all that was accepted and the session
      is not removed; past either bound some run does lose tokens. */
  lemma ConservationExactly(limit: nat, removing: bool, chunk: u64)
    requires chunk >= 1
    ensures LosesNothing(limit, removing, chunk) <==> limit <= U64_MAX && (!removing || limit == 0)
  {
    if limit > U64_MAX {
      var es, s := SaturationTruncates(chunk, 0);
      assert InBounds(es, s, 0, Input, limit, removing);
    } else if removing && limit > 0 {
      var es, s := RemovalDiscards(chunk, 0, 1);
      assert InBounds(es, s, 0, Input, limit, removing);
    } else {
      forall es, s, sid: SessionId, d: Dir | IsRun(INITIAL, es, s, chunk) && InBounds(es, s, sid, d, limit, removing)
        ensures Known(s.books, sid, d) == NoteSum(s.books.notes, Accepted, sid, d)
      {
        Conservation(s, chunk, sid, d);
        if !removing { NothingDiscarded(INITIAL, es, s, chunk, sid, d); }
      }
    }
  }

  /** A session at or over the chunk size always has a flush on its way. */
  lemma FlushObligation(s: State, chunk: u64, sid: SessionId)
    requires chunk >= 1 && Reachable(s, chunk)
    requires sid in s.books.sessions && Total(s.books.sessions[sid]) >= chunk
    ensures exists j :: j in s.jobs && Committed(s.jobs[j], sid)
  {
    ReachableInv(s, chunk);
  }

  /** With nobody at work, every session is below the chunk and every parcel has been handed over,
      exactly once. */
  lemma QuietBatcher(s: State, chunk: u64)
    requires chunk >= 1 && Reachable(s, chunk)
    requires forall j :: j in s.jobs ==> s.jobs[j].Done?
    ensures forall sid :: sid in s.books.sessions ==> Total(s.books.sessions[sid]) < chunk
    ensures forall i :: 0 <= i < |s.books.parcels| ==> s.books.parcels[i].handed == 1
  {
    ReachableInv(s, chunk);
  }

  /** No parcel is ever handed to the retry loop twice, and none reaches it unaccounted. */
  lemma HandedOnce(s: State, chunk: u64, i: nat)
    requires chunk >= 1 && Reachable(s, chunk) && i < |s.books.parcels|
    ensures s.books.parcels[i].handed <= 1
    ensures s.books.parcels[i].handed == 0 <==> SomeoneHandsOver(s, i)
  {
    ReachableInv(s, chunk);
  }

  lemma {:induction false} RunAppend(a: State, es: seq<Event>, s: State, e: Event, chunk: u64)
    requires IsRun(a, es, s, chunk) && Enabled(s, e)
    ensures IsRun(a, es + [e], Next(s, e, chunk), chunk)
    decreases |es|
  {
    if es == [] {
      assert [e][1..] == [];
    } else {
      RunAppend(Next(a, es[0], chunk), es[1..], s, e, chunk);
      assert (es + [e])[1..] == es[1..] + [e];
    }
  }

  /** One more event of job `e.j`, which leaves the given books and job. */
  lemma RunTo(es: seq<Event>, s: State, e: Event, chunk: u64, books: Books, job: Job)
    returns (es': seq<Event>, s': State)
    requires IsRun(INITIAL, es, s, chunk) && Enabled(s, e) && !e.Try?
    requires Next(s, e, chunk).books == books && Next(s, e, chunk).jobs[e.j] == job
    ensures es' == es + [e] && s' == State(books, s.jobs[e.j := job]) && IsRun(INITIAL, es', s', chunk)
  {
    RunAppend(INITIAL, es, s, e, chunk);
    es', s' := es + [e], Next(s, e, chunk);
  }

  /** Where a job goes after adding n tokens. */
  function AfterAdd(sid: SessionId, total: u64, chunk: u64): Job {
    if total >= chunk then FlushLookup(sid, false, false, Stop) else Done
  }

  function Ledger(sid: SessionId, accepted: u64, truncated: nat): seq<Note> {
    [Note(Accepted, sid, Pair(accepted, 0)), Note(Truncated, sid, Pair(truncated, 0))]
  }

  lemma LedgerSums(ns: seq<Note>, sid: SessionId, accepted: u64, truncated: nat)
    ensures var all := ns + Ledger(sid, accepted, truncated);
      && NoteSum(all, Accepted, sid, Input) == NoteSum(ns, Accepted, sid, Input) + accepted
      && NoteSum(all, Truncated, sid, Input) == NoteSum(ns, Truncated, sid, Input) + truncated
  {
    var l := Ledger(sid, accepted, truncated);
    NoteAppendAll(ns, l[0], sid, Input);
    NoteAppendAll(ns + [l[0]], l[1], sid, Input);
    assert ns + [l[0]] + [l[1]] == ns + l;
  }

  /** An add has found its session, newly made, and is about to put its tokens in. */
  lemma ReachAdding(chunk: u64, sid: SessionId, n: u64) returns (es: seq<Event>, s: State)
    requires n > 0
    ensures IsRun(INITIAL, es, s, chunk) && NoRemoval(es, sid) && forall e :: e in es && e.Step? ==> e.chainAnswers
    ensures s == State(Books(map[sid := Batch(0, 0, 0)], [], []), map[1 := AddUpdate(sid, n, 0)])
  {
    es, s := [], INITIAL;
    es, s := RunTo(es, s, StartAdd(1, sid, n, 0), chunk, EMPTY, AddLookup(sid, n, 0));
    es, s := RunTo(es, s, Step(1, true, false, 0), chunk, EMPTY, AddFetch(sid, n, 0));
    var made := Books(map[sid := Batch(0, 0, 0)], [], []);
    es, s := RunTo(es, s, Step(1, true, false, 0), chunk, made, AddUpdate(sid, n, 0));
  }

  /** Tokens are discarded in fact, not only in principle: an add that lands between the flush of a
      removal and the removal itself is accepted and then lost. */
  lemma RemovalDiscards(chunk: u64, sid: SessionId, n: u64) returns (es: seq<Event>, s: State)
    requires n > 0
    ensures IsRun(INITIAL, es, s, chunk)
    ensures NoteSum(s.books.notes, Accepted, sid, Input) == n && Known(s.books, sid, Input) == 0
  {
    es, s := ReachAdding(chunk, sid, n);
    es, s := StartRemoving(chunk, sid, es, s);
    var held := Books(map[sid := Batch(n, 0, 0)], [], Ledger(sid, n, 0));
    assert [] + [held.notes[0]] + [held.notes[1]] == held.notes;
    es, s := RunTo(es, s, Step(1, true, false, 0), chunk, held, AfterAdd(sid, n, chunk));
    var gone := Note(Discarded, sid, Pair(n, 0));
    es, s := RunTo(es, s, Step(2, true, false, 0), chunk, Books(held.sessions - {sid}, [], held.notes + [gone]), Done);
    LedgerSums([], sid, n, 0);
    assert [] + held.notes == held.notes;
    NoteAppendAll(held.notes, gone, sid, Input);
  }

  /** A removal flushes the empty session and is about to take the entry out. */
  lemma StartRemoving(chunk: u64, sid: SessionId, es0: seq<Event>, s0: State) returns (es: seq<Event>, s: State)
    requires IsRun(INITIAL, es0, s0, chunk) && 2 !in s0.jobs
    requires sid in s0.books.sessions && Total(s0.books.sessions[sid]) == 0
    ensures IsRun(INITIAL, es, s, chunk) && s == s0.(jobs := s0.jobs[2 := RemoveEntry(sid)])
    ensures es0 <= es && forall e :: e in es[|es0|..] && e.Step? ==> e.chainAnswers
  {
    es, s := BeginRemoving(chunk, sid, es0, s0);
    es, s := RunTo(es, s, Step(2, true, false, 0), chunk, s0.books, RemoveEntry(sid));
  }

  lemma BeginRemoving(chunk: u64, sid: SessionId, es0: seq<Event>, s0: State) returns (es: seq<Event>, s: State)
    requires IsRun(INITIAL, es0, s0, chunk) && 2 !in s0.jobs && sid in s0.books.sessions
    ensures IsRun(INITIAL, es, s, chunk)
    ensures s == s0.(jobs := s0.jobs[2 := FlushTake(sid, true, false, Removing(sid))])
    ensures es0 <= es && forall e :: e in es[|es0|..] && e.Step? ==> e.chainAnswers
  {
    var after := Removing(sid);
    es, s := RunTo(es0, s0, StartRemove(2, sid), chunk, s0.books, FlushLookup(sid, true, false, after));
    es, s := RunTo(es, s, Step(2, true, false, 0), chunk, s0.books, FlushTake(sid, true, false, after));
  }

  /** The counter is full, and its flush has not begun. */
  function Brimful(chunk: u64, sid: SessionId): State {
    State(Books(map[sid := Batch(U64_MAX, 0, 0)], [], Ledger(sid, U64_MAX, 0)), map[1 := AfterAdd(sid, U64_MAX, chunk)])
  }

  lemma ReachBrimful(chunk: u64, sid: SessionId) returns (es: seq<Event>)
    ensures IsRun(INITIAL, es, Brimful(chunk, sid), chunk) && NoRemoval(es, sid)
  {
    var s;
    es, s := ReachAdding(chunk, sid, U64_MAX);
    var l, full := Ledger(sid, U64_MAX, 0), Brimful(chunk, sid);
    assert [] + [l[0]] + [l[1]] == l;
    es, s := RunTo(es, s, Step(1, true, false, 0), chunk, full.books, AfterAdd(sid, U64_MAX, chunk));
    assert s.jobs == full.jobs;
  }

  /** A second add has found the session with its counter full. */
  lemma ReachSecondAdd(chunk: u64, sid: SessionId) returns (es: seq<Event>, s: State)
    ensures IsRun(INITIAL, es, s, chunk) && NoRemoval(es, sid)
    ensures s == Brimful(chunk, sid).(jobs := Brimful(chunk, sid).jobs[2 := AddUpdate(sid, 1, 0)])
  {
    es := ReachBrimful(chunk, sid);
    s := Brimful(chunk, sid);
    var full := s.books;
    es, s := RunTo(es, s, StartAdd(2, sid, 1, 0), chunk, full, AddLookup(sid, 1, 0));
    es, s := RunTo(es, s, Step(2, true, false, 0), chunk, full, AddUpdate(sid, 1, 0));
  }

  /** One token more than 64 bits hold is lost when it is added before the full counter is flushed. */
  lemma SaturationTruncates(chunk: u64, sid: SessionId) returns (es: seq<Event>, s: State)
    requires chunk >= 1
    ensures IsRun(INITIAL, es, s, chunk) && NoRemoval(es, sid)
    ensures NoteSum(s.books.notes, Accepted, sid, Input) == U64_MAX + 1 && Known(s.books, sid, Input) == U64_MAX
  {
    es, s := ReachSecondAdd(chunk, sid);
    var l, more := s.books.notes, Ledger(sid, 1, 1);
    var books := s.books.(notes := l + more);
    SecondAdd(s.books, sid);
    es, s := RunTo(es, s, Step(2, true, false, 0), chunk, books, AfterAdd(sid, U64_MAX, chunk));
    BothLedgers(sid);
  }

  lemma BothLedgers(sid: SessionId)
    ensures var all := Ledger(sid, U64_MAX, 0) + Ledger(sid, 1, 1);
      NoteSum(all, Accepted, sid, Input) == U64_MAX + 1 && NoteSum(all, Truncated, sid, Input) == 1
  {
    var l := Ledger(sid, U64_MAX, 0);
    LedgerSums([], sid, U64_MAX, 0);
    assert [] + l == l;
    LedgerSums(l, sid, 1, 1);
  }

  lemma SecondAdd(b: Books, sid: SessionId)
    requires sid in b.sessions && b.sessions[sid] == Batch(U64_MAX, 0, 0)
    ensures Add(b, sid, 1, 0) == b.(notes := b.notes + Ledger(sid, 1, 1))
  {
    var more := Ledger(sid, 1, 1);
    assert b.notes + [more[0]] + [more[1]] == b.notes + more;
    assert b.sessions[sid := Batch(U64_MAX, 0, 0)] == b.sessions;
  }

  // ------------------------------------------------------------------ one job on its own

  /** A session that is not there is made, empty, when the chain answers for it; otherwise nothing changes. */
  lemma MissingSession(b: Books, sid: SessionId, i: u64, o: u64, after: After, chunk: u64, elapsed: bool, now: nat)
    requires sid !in b.sessions
    ensures var add, flush := AddLookup(sid, i, o), FlushLookup(sid, true, false, after);
      && NextJob(b, add, chunk, true, elapsed, now) == (b, AddFetch(sid, i, o))
      && NextJob(b, flush, chunk, true, elapsed, now) == (b, FlushFetch(sid, true, false, after))
    ensures var made := Books(b.sessions[sid := Batch(0, 0, now)], b.parcels, b.notes);
      && NextJob(b, AddFetch(sid, i, o), chunk, true, elapsed, now) == (made, AddUpdate(sid, i, o))
      && NextJob(b, FlushFetch(sid, true, false, after), chunk, true, elapsed, now)
           == (made, FlushTake(sid, true, false, after))
    ensures NextJob(b, AddFetch(sid, i, o), chunk, false, elapsed, now) == (b, AddUpdate(sid, i, o))
    ensures NextJob(b, FlushFetch(sid, true, false, after), chunk, false, elapsed, now)
         == (b, FlushTake(sid, true, false, after))
  {}

  /** The retry loop of this parcel has come to its end, and the parcel stays as it is. */
  predicate SettledAt(b: Books, i: nat) {
    i < |b.parcels| && (b.parcels[i].fate.Confirmed? || b.parcels[i].fate.GivenUp?)
  }

  lemma StepSettles(s: State, e: Event, chunk: u64, j: JobId, i: nat)
    requires chunk >= 1 && Inv(s, chunk) && Enabled(s, e) && j in s.jobs
    ensures SettledAt(s.books, i) ==> SettledAt(Next(s, e, chunk).books, i)
    ensures j in Next(s, e, chunk).jobs
    ensures s.jobs[j].Awaiting? && s.jobs[j].parcel == i ==>
      Next(s, e, chunk).jobs[j] == s.jobs[j] || SettledAt(s.books, i)
  {
    if e.Step? { JobAndParcels(s.books, s.jobs[e.j], chunk, e.chainAnswers, e.elapsed, e.now); }
  }

  /** A shutdown that waits for a parcel goes on only when it is confirmed or given up, for good. */
  lemma {:induction false} AwaitedIsSettled(s: State, es: seq<Event>, s': State, chunk: u64, j: JobId, i: nat)
    requires chunk >= 1 && Inv(s, chunk) && IsRun(s, es, s', chunk) && j in s.jobs
    requires SettledAt(s.books, i) || (s.jobs[j].Awaiting? && s.jobs[j].parcel == i)
    ensures j in s'.jobs && (SettledAt(s'.books, i) || s'.jobs[j] == s.jobs[j])
    ensures SettledAt(s.books, i) ==> SettledAt(s'.books, i)
    decreases |es|
  {
    if es != [] {
      StepSettles(s, es[0], chunk, j, i);
      StepKeepsInv(s, es[0], chunk);
      AwaitedIsSettled(Next(s, es[0], chunk), es[1..], s', chunk, j, i);
    }
  }

  /** A job takes n steps by itself; the chain answers, and the interval has passed or not. */
  function Alone(b: Books, job: Job, chunk: u64, elapsed: bool, now: nat, n: nat): (Books, Job)
    decreases n
  {
    if n == 0 || (job.HandingOver? && job.parcel >= |b.parcels|) then (b, job) else
      var (b1, job1) := NextJob(b, job, chunk, true, elapsed, now);
      Alone(b1, job1, chunk, elapsed, now, n - 1)
  }

  /** The books after what was pending in a session has been taken and handed to the retry loop. */
  function Sent(b: Books, sid: SessionId, now: nat): Books
    requires sid in b.sessions
  {
    var was := b.sessions[sid];
    b.(sessions := b.sessions[sid := Batch(0, 0, now)],
       parcels := b.parcels + [Parcel(sid, Pair(was.input, was.output), Trying(1), 1)])
  }

  lemma FlushAlone(b: Books, sid: SessionId, force: bool, wait: bool, after: After, chunk: u64, elapsed: bool, now: nat)
    requires sid in b.sessions && b.sessions[sid].input + b.sessions[sid].output > 0
    requires force || elapsed || b.sessions[sid].input + b.sessions[sid].output >= chunk
    ensures Alone(b, FlushLookup(sid, force, wait, after), chunk, elapsed, now, 3)
         == (Sent(b, sid, now), if wait then Awaiting(|b.parcels|, after) else Resume(after))
  {
    var b1 := Take(b, sid, now);
    var (b2, job2) := NextJob(b1, HandingOver(|b.parcels|, wait, after), chunk, true, elapsed, now);
    assert b2.parcels == Sent(b, sid, now).parcels;
    assert Alone(b1, HandingOver(|b.parcels|, wait, after), chunk, elapsed, now, 1) == (b2, job2);
    assert Alone(b, FlushTake(sid, force, wait, after), chunk, elapsed, now, 2) == (b2, job2);
  }

  /** A forced flush sends whatever is pending. */
  lemma ForcedFlushAlone(s: State, j: JobId, sid: SessionId, chunk: u64, elapsed: bool, now: nat)
    requires j !in s.jobs && sid in s.books.sessions
    requires s.books.sessions[sid].input + s.books.sessions[sid].output > 0
    ensures Alone(s.books, Next(s, StartFlush(j, sid), chunk).jobs[j], chunk, elapsed, now, 3)
         == (Sent(s.books, sid, now), Done)
  {
    FlushAlone(s.books, sid, true, false, Stop, chunk, elapsed, now);
  }

  lemma AloneThen(b: Books, job: Job, b1: Books, job1: Job, chunk: u64, elapsed: bool, now: nat, n: nat, m: nat)
    requires Alone(b, job, chunk, elapsed, now, n) == (b1, job1)
    requires !job1.HandingOver? || job1.parcel < |b1.parcels|
    ensures Alone(b, job, chunk, elapsed, now, n + m) == Alone(b1, job1, chunk, elapsed, now, m)
    decreases n
  {
    if n > 0 && !(job.HandingOver? && job.parcel >= |b.parcels|) {
      var (b', job') := NextJob(b, job, chunk, true, elapsed, now);
      AloneThen(b', job', b1, job1, chunk, elapsed, now, n - 1, m);
    }
  }

  /** A removal by itself sends what is pending before it takes the entry out, so that nothing goes with it. */
  lemma RemovalAlone(s: State, j: JobId, sid: SessionId, chunk: u64, elapsed: bool, now: nat)
    requires j !in s.jobs && sid in s.books.sessions
    requires s.books.sessions[sid].input + s.books.sessions[sid].output > 0
    ensures var sent := Sent(s.books, sid, now);
      Alone(s.books, Next(s, StartRemove(j, sid), chunk).jobs[j], chunk, elapsed, now, 4)
        == (sent.(sessions := sent.sessions - {sid}, notes := sent.notes + [Note(Discarded, sid, Pair(0, 0))]), Done)
  {
    var start, sent := FlushLookup(sid, true, false, Removing(sid)), Sent(s.books, sid, now);
    FlushAlone(s.books, sid, true, false, Removing(sid), chunk, elapsed, now);
    AloneThen(s.books, start, sent, RemoveEntry(sid), chunk, elapsed, now, 3, 1);
    var last := NextJob(sent, RemoveEntry(sid), chunk, true, elapsed, now);
    assert Alone(sent, RemoveEntry(sid), chunk, elapsed, now, 1) == last;
  }

  /** An add by itself leaves its tokens pending below the chunk, and otherwise sends everything. */
  lemma AddAlone(s: State, j: JobId, sid: SessionId, input: u64, output: u64, chunk: u64, elapsed: bool, now: nat)
    requires j !in s.jobs && sid in s.books.sessions && input + output > 0 && chunk >= 1
    ensures var added := Add(s.books, sid, input, output);
      var start := Next(s, StartAdd(j, sid, input, output), chunk).jobs[j];
      var pending := added.sessions[sid].input + added.sessions[sid].output;
      && (pending < chunk ==> Alone(s.books, start, chunk, elapsed, now, 2) == (added, Done))
      && (pending >= chunk ==> Alone(s.books, start, chunk, elapsed, now, 5) == (Sent(added, sid, now), Done))
  {
    var added, flush := Add(s.books, sid, input, output), FlushLookup(sid, false, false, Stop);
    var pending := added.sessions[sid].input + added.sessions[sid].output;
    var job := if pending >= chunk then flush else Done;
    assert Alone(s.books, AddUpdate(sid, input, output), chunk, elapsed, now, 1) == (added, job);
    assert Alone(s.books, AddLookup(sid, input, output), chunk, elapsed, now, 2) == (added, job);
    if pending >= chunk {
      AloneThen(s.books, AddLookup(sid, input, output), added, flush, chunk, elapsed, now, 2, 3);
      FlushAlone(added, sid, false, false, Stop, chunk, elapsed, now);
    }
  }

  /** A sweep by itself sends what is pending in a listed session exactly when the interval has passed. */
  lemma SweepAlone(s: State, j: JobId, sid: SessionId, chunk: u64, elapsed: bool, now: nat)
    requires j !in s.jobs && sid in s.books.sessions
    requires s.books.sessions[sid].input + s.books.sessions[sid].output > 0
    ensures var start := Next(s, StartSweep(j, [sid]), chunk).jobs[j];
      && (elapsed ==> Alone(s.books, start, chunk, elapsed, now, 4) == (Sent(s.books, sid, now), SweepNext([])))
      && (!elapsed ==> Alone(s.books, start, chunk, elapsed, now, 1) == (s.books, SweepNext([])))
  {
    var flush := FlushLookup(sid, true, false, Sweeping([]));
    assert [sid][1..] == [];
    if elapsed {
      assert Alone(s.books, SweepNext([sid]), chunk, elapsed, now, 1) == (s.books, flush);
      AloneThen(s.books, SweepNext([sid]), s.books, flush, chunk, elapsed, now, 1, 3);
      FlushAlone(s.books, sid, true, false, Sweeping([]), chunk, elapsed, now);
    } else {
      assert Alone(s.books, SweepNext([sid]), chunk, elapsed, now, 1) == (s.books, SweepNext([]));
    }
  }

  /** A shutdown by itself sends what is pending in a listed session, whatever its age, and waits for it. */
  lemma ShutdownAlone(s: State, j: JobId, sid: SessionId, chunk: u64, elapsed: bool, now: nat)
    requires j !in s.jobs && sid in s.books.sessions
    requires s.books.sessions[sid].input + s.books.sessions[sid].output > 0
    ensures Alone(s.books, Next(s, StartShutdown(j, [sid]), chunk).jobs[j], chunk, elapsed, now, 4)
         == (Sent(s.books, sid, now), Awaiting(|s.books.parcels|, ShuttingDown([])))
  {
    var flush := FlushLookup(sid, true, true, ShuttingDown([]));
    assert [sid][1..] == [];
    assert Alone(s.books, ShutdownNext([sid]), chunk, elapsed, now, 1) == (s.books, flush);
    AloneThen(s.books, ShutdownNext([sid]), s.books, flush, chunk, elapsed, now, 1, 3);
    FlushAlone(s.books, sid, true, true, ShuttingDown([]), chunk, elapsed, now);
  }
}
