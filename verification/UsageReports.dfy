/** From what is reported to what is accepted: every reported token is accepted, dropped because its session
    is not there, or still on its way; and exactly when none is dropped. */
module UsageReports {
  import opened Words
  import opened UsageBooks
  import opened UsageMachine

  /** Tokens reported by the calls of `add_usage` in a run. */
  function Reported(es: seq<Event>, sid: SessionId, d: Dir): nat {
    if es == [] then 0 else ReportedBy(es[0], sid, d) + Reported(es[1..], sid, d)
  }

  function ReportedBy(e: Event, sid: SessionId, d: Dir): nat {
    if e.StartAdd? && e.sid == sid then Amount(Pair(e.input, e.output), d) else 0
  }

  /** Tokens a call still carries. */
  function Carried(job: Job, sid: SessionId, d: Dir): nat {
    match job
    case AddLookup(s, i, o) => if s == sid then Amount(Pair(i, o), d) else 0
    case AddFetch(s, i, o) => if s == sid then Amount(Pair(i, o), d) else 0
    case AddUpdate(s, i, o) => if s == sid then Amount(Pair(i, o), d) else 0
    case _ => 0
  }

  ghost function Underway(jobs: map<JobId, Job>, js: set<JobId>, sid: SessionId, d: Dir): nat
    requires js <= jobs.Keys
  {
    if js == {} then 0 else
      var j :| j in js;
      Carried(jobs[j], sid, d) + Underway(jobs, js - {j}, sid, d)
  }

  lemma {:induction false} UnderwaySplit(jobs: map<JobId, Job>, js: set<JobId>, j: JobId, sid: SessionId, d: Dir)
    requires js <= jobs.Keys && j in js
    ensures Underway(jobs, js, sid, d) == Carried(jobs[j], sid, d) + Underway(jobs, js - {j}, sid, d)
    decreases |js|
  {
    var k :| k in js && Underway(jobs, js, sid, d) == Carried(jobs[k], sid, d) + Underway(jobs, js - {k}, sid, d);
    if k != j {
      UnderwaySplit(jobs, js - {k}, j, sid, d);
      UnderwaySplit(jobs, js - {j}, k, sid, d);
      assert js - {k} - {j} == js - {j} - {k};
    }
  }

  lemma {:induction false} UnderwaySame(jobs: map<JobId, Job>, jobs': map<JobId, Job>, js: set<JobId>,
                                        sid: SessionId, d: Dir)
    requires js <= jobs.Keys && js <= jobs'.Keys && forall j :: j in js ==> jobs[j] == jobs'[j]
    ensures Underway(jobs, js, sid, d) == Underway(jobs', js, sid, d)
    decreases |js|
  {
    if js != {} {
      var j :| j in js;
      UnderwaySplit(jobs, js, j, sid, d);
      UnderwaySplit(jobs', js, j, sid, d);
      UnderwaySame(jobs, jobs', js - {j}, sid, d);
    }
  }

  /** One job moves, or a new one comes. */
  lemma UnderwayMove(jobs: map<JobId, Job>, j: JobId, job: Job, sid: SessionId, d: Dir)
    ensures var jobs' := jobs[j := job];
      Underway(jobs', jobs'.Keys, sid, d) + (if j in jobs then Carried(jobs[j], sid, d) else 0)
        == Underway(jobs, jobs.Keys, sid, d) + Carried(job, sid, d)
  {
    var jobs' := jobs[j := job];
    UnderwaySplit(jobs', jobs'.Keys, j, sid, d);
    UnderwaySame(jobs, jobs', jobs.Keys - {j}, sid, d);
    if j in jobs {
      UnderwaySplit(jobs, jobs.Keys, j, sid, d);
      assert jobs'.Keys == jobs.Keys;
    } else {
      assert jobs'.Keys - {j} == jobs.Keys == jobs.Keys - {j};
    }
  }

  // ------------------------------------------------------------------ the balance

  /** Tokens that have been accepted or dropped. */
  function Arrived(b: Books, sid: SessionId, d: Dir): nat {
    NoteSum(b.notes, Accepted, sid, d) + NoteSum(b.notes, Dropped, sid, d)
  }

  ghost function Seen(s: State, sid: SessionId, d: Dir): nat {
    Arrived(s.books, sid, d) + Underway(s.jobs, s.jobs.Keys, sid, d)
  }

  lemma AddNotes(b: Books, s: SessionId, input: u64, output: u64, sid: SessionId, d: Dir)
    ensures var ns, share := Add(b, s, input, output).notes, if s == sid then Amount(Pair(input, output), d) else 0;
      && NoteSum(ns, Accepted, sid, d) == NoteSum(b.notes, Accepted, sid, d) + (if s in b.sessions then share else 0)
      && NoteSum(ns, Dropped, sid, d) == NoteSum(b.notes, Dropped, sid, d) + (if s in b.sessions then 0 else share)
  {
    var ns, n := Add(b, s, input, output).notes, |b.notes|;
    NoteAppendAll(b.notes, ns[n], sid, d);
    if s in b.sessions { NoteAppendAll(b.notes + [ns[n]], ns[n + 1], sid, d); }
  }

  lemma JobBalance(b: Books, job: Job, chunk: u64, chain: bool, elapsed: bool, now: nat, sid: SessionId, d: Dir)
    requires job.HandingOver? ==> job.parcel < |b.parcels|
    ensures var (b', job') := NextJob(b, job, chunk, chain, elapsed, now);
      Arrived(b', sid, d) + Carried(job', sid, d) == Arrived(b, sid, d) + Carried(job, sid, d)
  {
    match job
    case AddUpdate(s, i, o) => UpdateBalance(b, job, chunk, chain, elapsed, now, sid, d);
    case RemoveEntry(s) => RemoveNotes(b, s, sid, d);
    case _ =>
  }

  lemma UpdateBalance(b: Books, job: Job, chunk: u64, chain: bool, elapsed: bool, now: nat, sid: SessionId, d: Dir)
    requires job.AddUpdate?
    ensures var (b', job') := NextJob(b, job, chunk, chain, elapsed, now);
      Carried(job', sid, d) == 0 && Arrived(b', sid, d) == Arrived(b, sid, d) + Carried(job, sid, d)
  {
    AddNotes(b, job.sid, job.input, job.output, sid, d);
  }

  lemma RemoveNotes(b: Books, s: SessionId, sid: SessionId, d: Dir)
    ensures Arrived(Remove(b, s), sid, d) == Arrived(b, sid, d)
    ensures NoteSum(Remove(b, s).notes, Dropped, sid, d) == NoteSum(b.notes, Dropped, sid, d)
  {
    if s in b.sessions { NoteAppendAll(b.notes, Remove(b, s).notes[|b.notes|], sid, d); }
  }

  lemma StepBalance(s: State, e: Event, chunk: u64, sid: SessionId, d: Dir)
    requires Enabled(s, e)
    ensures Seen(Next(s, e, chunk), sid, d) == Seen(s, sid, d) + ReportedBy(e, sid, d)
  {
    var s' := Next(s, e, chunk);
    if e.Step? {
      JobBalance(s.books, s.jobs[e.j], chunk, e.chainAnswers, e.elapsed, e.now, sid, d);
      UnderwayMove(s.jobs, e.j, s'.jobs[e.j], sid, d);
    } else if !e.Try? {
      UnderwayMove(s.jobs, e.j, s'.jobs[e.j], sid, d);
    }
  }

  lemma {:induction false} RunBalance(s: State, es: seq<Event>, s': State, chunk: u64, sid: SessionId, d: Dir)
    requires IsRun(s, es, s', chunk)
    ensures Seen(s', sid, d) == Seen(s, sid, d) + Reported(es, sid, d)
    decreases |es|
  {
    if es != [] {
      StepBalance(s, es[0], chunk, sid, d);
      RunBalance(Next(s, es[0], chunk), es[1..], s', chunk, sid, d);
    }
  }

  predicate NobodyAdds(s: State) {
    forall j | j in s.jobs :: !s.jobs[j].AddLookup? && !s.jobs[j].AddFetch? && !s.jobs[j].AddUpdate?
  }

  lemma {:induction false} NothingCarried(jobs: map<JobId, Job>, js: set<JobId>, sid: SessionId, d: Dir)
    requires js <= jobs.Keys
    requires forall j :: j in js ==> !jobs[j].AddLookup? && !jobs[j].AddFetch? && !jobs[j].AddUpdate?
    ensures Underway(jobs, js, sid, d) == 0
    decreases |js|
  {
    if js != {} {
      var j :| j in js;
      UnderwaySplit(jobs, js, j, sid, d);
      NothingCarried(jobs, js - {j}, sid, d);
    }
  }

  /** With no call of `add_usage` under way, every reported token was accepted or dropped. */
  lemma ReportedIsAcceptedOrDropped(es: seq<Event>, s: State, chunk: u64, sid: SessionId, d: Dir)
    requires IsRun(INITIAL, es, s, chunk) && NobodyAdds(s)
    ensures Reported(es, sid, d) == Arrived(s.books, sid, d)
  {
    RunBalance(INITIAL, es, s, chunk, sid, d);
    NothingCarried(s.jobs, s.jobs.Keys, sid, d);
  }

  // ------------------------------------------------------------------ when nothing is dropped

  /** The chain answers every request for a session's watermarks. */
  ghost predicate ChainAnswers(es: seq<Event>) {
    forall e :: e in es && e.Step? ==> e.chainAnswers
  }

  /** Whoever is about to put tokens in finds the session, nobody is about to remove it, and nothing has
      been dropped. */
  ghost predicate Welcome(s: State, sid: SessionId, d: Dir) {
    && NoteSum(s.books.notes, Dropped, sid, d) == 0
    && forall j :: j in s.jobs ==> !WillRemove(s.jobs[j], sid) && FindsSession(s.books, s.jobs[j], sid)
  }

  predicate FindsSession(b: Books, job: Job, sid: SessionId) {
    job.AddUpdate? && job.sid == sid ==> sid in b.sessions
  }

  lemma JobStaysWelcome(b: Books, job: Job, chunk: u64, elapsed: bool, now: nat, sid: SessionId, d: Dir)
    requires !WillRemove(job, sid) && FindsSession(b, job, sid) && (job.HandingOver? ==> job.parcel < |b.parcels|)
    ensures var (b', job') := NextJob(b, job, chunk, true, elapsed, now);
      && !WillRemove(job', sid) && FindsSession(b', job', sid) && (sid in b.sessions ==> sid in b'.sessions)
      && NoteSum(b'.notes, Dropped, sid, d) == NoteSum(b.notes, Dropped, sid, d)
  {
    match job
    case AddUpdate(s, i, o) => AddNotes(b, s, i, o, sid, d);
    case RemoveEntry(s) => RemoveNotes(b, s, sid, d);
    case _ =>
  }

  lemma StepStaysWelcome(s: State, e: Event, chunk: u64, sid: SessionId, d: Dir)
    requires Enabled(s, e) && Welcome(s, sid, d)
    requires (e.Step? ==> e.chainAnswers) && !(e.StartRemove? && e.sid == sid)
    ensures Welcome(Next(s, e, chunk), sid, d)
  {
    if e.Step? { JobStaysWelcome(s.books, s.jobs[e.j], chunk, e.elapsed, e.now, sid, d); }
  }

  lemma {:induction false} NothingDropped(s: State, es: seq<Event>, s': State, chunk: u64, sid: SessionId, d: Dir)
    requires IsRun(s, es, s', chunk) && Welcome(s, sid, d) && NoRemoval(es, sid) && ChainAnswers(es)
    ensures Welcome(s', sid, d)
    decreases |es|
  {
    if es != [] {
      assert es[0] in es && forall e :: e in es[1..] ==> e in es;
      StepStaysWelcome(s, es[0], chunk, sid, d);
      NothingDropped(Next(s, es[0], chunk), es[1..], s', chunk, sid, d);
    }
  }

  /** Everything reported is accepted in all runs with, or without, removals of the session and with, or
      without, requests the chain does not answer. */
  ghost predicate AcceptsReports(removing: bool, silent: bool, chunk: u64) {
    forall es, s, sid: SessionId, d: Dir :: IsRun(INITIAL, es, s, chunk) && Allowed(es, s, sid, removing, silent) ==>
      NoteSum(s.books.notes, Accepted, sid, d) == Reported(es, sid, d)
  }

  ghost predicate Allowed(es: seq<Event>, s: State, sid: SessionId, removing: bool, silent: bool) {
    NobodyAdds(s) && (removing || NoRemoval(es, sid)) && (silent || ChainAnswers(es))
  }

  /** The exact condition: reported tokens are accepted as long as the chain answers and the session is not
      removed; without either some run drops tokens. */
  lemma ReportsAcceptedExactly(removing: bool, silent: bool, chunk: u64)
    requires chunk >= 1
    ensures AcceptsReports(removing, silent, chunk) <==> !removing && !silent
  {
    if silent {
      var es, s := SilenceDrops(chunk, 0, 1);
      assert Allowed(es, s, 0, removing, silent);
      ReportedIsAcceptedOrDropped(es, s, chunk, 0, Input);
    } else if removing {
      var es, s := RemovalDrops(chunk, 0, 1);
      assert Allowed(es, s, 0, removing, silent);
      ReportedIsAcceptedOrDropped(es, s, chunk, 0, Input);
    } else {
      forall es, s, sid: SessionId, d: Dir | IsRun(INITIAL, es, s, chunk) && Allowed(es, s, sid, removing, silent)
        ensures NoteSum(s.books.notes, Accepted, sid, d) == Reported(es, sid, d)
      {
        ReportedIsAcceptedOrDropped(es, s, chunk, sid, d);
        NothingDropped(INITIAL, es, s, chunk, sid, d);
      }
    }
  }

  /** The chain does not answer for a session not yet there: its first report is dropped. */
  lemma SilenceDrops(chunk: u64, sid: SessionId, n: u64) returns (es: seq<Event>, s: State)
    requires n > 0
    ensures IsRun(INITIAL, es, s, chunk) && NoRemoval(es, sid) && NobodyAdds(s)
    ensures NoteSum(s.books.notes, Dropped, sid, Input) == n
  {
    es, s := [], INITIAL;
    es, s := RunTo(es, s, StartAdd(1, sid, n, 0), chunk, EMPTY, AddLookup(sid, n, 0));
    es, s := RunTo(es, s, Step(1, false, false, 0), chunk, EMPTY, AddFetch(sid, n, 0));
    es, s := RunTo(es, s, Step(1, false, false, 0), chunk, EMPTY, AddUpdate(sid, n, 0));
    var note := Note(Dropped, sid, Pair(n, 0));
    es, s := RunTo(es, s, Step(1, false, false, 0), chunk, Books(map[], [], [] + [note]), Done);
    NoteAppendAll([], note, sid, Input);
  }

  /** The session is removed between the two looks an add takes at the table. */
  lemma RemovalDrops(chunk: u64, sid: SessionId, n: u64) returns (es: seq<Event>, s: State)
    requires n > 0
    ensures IsRun(INITIAL, es, s, chunk) && ChainAnswers(es) && NobodyAdds(s)
    ensures NoteSum(s.books.notes, Dropped, sid, Input) == n
  {
    es, s := ReachAdding(chunk, sid, n);
    es, s := StartRemoving(chunk, sid, es, s);
    var gone, note := Note(Discarded, sid, Pair(0, 0)), Note(Dropped, sid, Pair(n, 0));
    es, s := RunTo(es, s, Step(2, true, false, 0), chunk, Books(s.books.sessions - {sid}, [], [] + [gone]), Done);
    es, s := RunTo(es, s, Step(1, true, false, 0), chunk, s.books.(notes := [gone] + [note]), Done);
    NoteAppendAll([], gone, sid, Input);
    NoteAppendAll([gone], note, sid, Input);
    assert [] + [gone] == [gone];
  }
}
