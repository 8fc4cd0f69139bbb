/** The usage batcher as the program updates it: the session map and the list of parcels change in
    place. These methods run one call at a time; UsageMachine interleaves the same critical sections. */
module UsageBatcher {
  import opened Wrappers
  import opened Words
  import opened UsageBooks

  /** Position of the first successful attempt, if there is one among the first `n`. */
  function FirstOk(results: seq<bool>, n: nat): (k: Option<nat>)
    requires n <= |results|
    ensures k.Some? ==> k.value < n && results[k.value] && forall i :: 0 <= i < k.value ==> !results[i]
    ensures k.None? ==> forall i :: 0 <= i < n ==> !results[i]
  {
    if n == 0 then None
    else
      var k := FirstOk(results, n - 1);
      if k.Some? then k else if results[n - 1] then Some(n - 1) else None
  }

  function AcceptedBy(ns: seq<Note>, sid: SessionId, d: Dir): nat {
    NoteSum(ns, Accepted, sid, d)
  }

  function DroppedBy(ns: seq<Note>, sid: SessionId, d: Dir): nat {
    NoteSum(ns, Dropped, sid, d)
  }

  function Grown(b: Batch, input: u64, output: u64): Pair {
    Pair(SaturatingAdd(b.input, input), SaturatingAdd(b.output, output))
  }

  /** What a session holds; a session not there yet holds nothing. */
  function BatchOf(sessions: map<SessionId, Batch>, sid: SessionId): Batch {
    if sid in sessions then sessions[sid] else Batch(0, 0, 0)
  }

  /** One parcel of this session was taken and handed over, once. */
  predicate Appended(before: seq<Parcel>, after: seq<Parcel>, sid: SessionId) {
    |after| == |before| + 1 && after[..|before|] == before && after[|before|].sid == sid && after[|before|].handed == 1
  }

  /** A session not there yet is made, empty and fresh, if the chain answers for it. */
  function NewIfMissing(sessions: map<SessionId, Batch>, sid: SessionId, chainAnswers: bool, now: nat)
    : (r: map<SessionId, Batch>)
    ensures sid in sessions || !chainAnswers ==> r == sessions
    ensures sid !in sessions && chainAnswers ==> r == sessions[sid := Batch(0, 0, now)]
  {
    if sid in sessions || !chainAnswers then sessions else sessions[sid := Batch(0, 0, now)]
  }

  predicate Same(before: map<SessionId, Batch>, after: map<SessionId, Batch>, s: SessionId) {
    (s in before <==> s in after) && (s in before ==> after[s] == before[s])
  }

  function Pending(b: Batch): Pair {
    Pair(b.input, b.output)
  }

  /** These parcels carry what the sessions of `due` held, one parcel each, and each was handed over. */
  ghost predicate Left(sessions: map<SessionId, Batch>, due: set<SessionId>, ps: seq<Parcel>) {
    && due <= sessions.Keys
    && (forall i :: 0 <= i < |ps| ==> ps[i].sid in due && ps[i].handed == 1)
    && (forall i :: 0 <= i < |ps| ==> ps[i].tokens == Pending(sessions[ps[i].sid]))
    && (forall s :: s in due ==> exists i :: 0 <= i < |ps| && ps[i].sid == s)
    && (forall i, j :: 0 <= i < j < |ps| ==> ps[i].sid != ps[j].sid)
  }

  lemma OneMoreLeft(sessions: map<SessionId, Batch>, due: set<SessionId>, ps: seq<Parcel>, p: Parcel)
    requires Left(sessions, due, ps) && p.sid in sessions && p.sid !in due
    requires p.handed == 1 && p.tokens == Pending(sessions[p.sid])
    ensures Left(sessions, due + {p.sid}, ps + [p])
  {
    var all := ps + [p];
    forall s | s in due + {p.sid} ensures exists i :: 0 <= i < |all| && all[i].sid == s {
      if s in due {
        var i :| 0 <= i < |ps| && ps[i].sid == s;
        assert all[i].sid == s;
      } else {
        assert all[|ps|].sid == s;
      }
    }
  }

  /** A flush adds at most one parcel to those that have left since the first n. */
  lemma FlushLeaves(sessions: map<SessionId, Batch>, due: set<SessionId>, before: seq<Parcel>, after: seq<Parcel>,
                    n: nat, sid: SessionId)
    requires n <= |before| && Left(sessions, due, before[n..]) && Appended(before, after, sid)
    requires sid in sessions && sid !in due && after[|before|].tokens == Pending(sessions[sid])
    ensures Left(sessions, due + {sid}, after[n..]) && after[..n] == before[..n]
  {
    OneMoreLeft(sessions, due, before[n..], after[|before|]);
    assert after[n..] == before[n..] + [after[|before|]];
    assert after[..n] == after[..|before|][..n];
  }

  /** Handed over once, and confirmed or given up. */
  predicate SeenThrough(p: Parcel) {
    GroupOf(p.fate) != InFlight && p.handed == 1
  }

  class Batcher {
    const chunk: u64
    const flushInterval: nat
    var sessions: map<SessionId, Batch>
    var parcels: seq<Parcel>
    ghost var notes: seq<Note>

    ghost function View(): Books
      reads this
    {
      Books(sessions, parcels, notes)
    }

    ghost predicate Valid()
      reads this
    {
      BooksOk(View()) && chunk >= 1
    }

    constructor (tokenChunk: u64, interval: nat)
      ensures Valid() && View() == EMPTY
      ensures chunk == (if tokenChunk == 0 then 1 else tokenChunk)
      ensures flushInterval == (if interval == 0 then 1 else interval)
    {
      chunk := if tokenChunk == 0 then 1 else tokenChunk;
      flushInterval := if interval == 0 then 1 else interval;
      sessions, parcels, notes := map[], [], [];
      new;
      assert View() == EMPTY;
      assert forall sid: SessionId, d: Dir :: BalancedFor(EMPTY, sid, d) && FitsFor(EMPTY, sid, d);
    }

    predicate Elapsed(b: Batch, now: nat) {
      now >= b.lastFlush + flushInterval
    }

    /** Something is pending, and it is forced, enough, or old enough. */
    predicate Ripe(b: Batch, force: bool, now: nat) {
      b.input + b.output > 0 && (force || b.input + b.output >= chunk || now - b.lastFlush >= flushInterval)
    }

    /** A session with something pending and its interval passed is emptied if it may be; any other stays. */
    predicate GoesIfOld(before: Batch, after: Batch, listed: bool, now: nat) {
      if listed && before.input + before.output > 0 && now >= before.lastFlush + flushInterval
      then after == Batch(0, 0, now) else after == before
    }

    method EnsureSession(sid: SessionId, chainAnswers: bool, now: nat)
      requires Valid()
      modifies this`sessions
      ensures Valid()
      ensures View() == if chainAnswers then Ensure(old(View()), sid, now) else old(View())
      ensures sessions == NewIfMissing(old(sessions), sid, chainAnswers, now)
    {
      EnsureKeeps(View(), sid, now);
      if sid in sessions || !chainAnswers { return; }
      sessions := sessions[sid := Batch(0, 0, now)];
    }

    /** At most three attempts, ending with the first success. */
    method RecordUsageWithRetry(i: nat, results: seq<bool>) returns (attempts: nat)
      requires Valid() && i < |parcels| && parcels[i].fate == Trying(1)
      requires |results| == MAX_ATTEMPTS
      modifies this`parcels
      ensures Valid()
      ensures var k := FirstOk(results, MAX_ATTEMPTS);
        && attempts == (if k.Some? then k.value + 1 else MAX_ATTEMPTS)
        && parcels == old(parcels)[i := old(parcels[i]).(fate := if k.Some? then Confirmed else GivenUp)]
      ensures results[0] ==> attempts == 1 && parcels[i].fate == Confirmed
      ensures !results[0] && results[1] ==> attempts == 2 && parcels[i].fate == Confirmed
      ensures !results[0] && !results[1] ==> attempts == 3
      ensures !results[0] && !results[1] ==> parcels[i].fate == if results[2] then Confirmed else GivenUp
    {
      attempts := 1;
      while true
        invariant Valid() && 1 <= attempts <= MAX_ATTEMPTS && i < |old(parcels)|
        invariant parcels == old(parcels)[i := old(parcels[i]).(fate := Trying(attempts))]
        invariant FirstOk(results, attempts - 1).None?
        decreases MAX_ATTEMPTS - attempts
      {
        var ok := results[attempts - 1];
        SetFateKeeps(View(), i, AfterAttempt(attempts, ok), parcels[i].handed);
        parcels := parcels[i := parcels[i].(fate := AfterAttempt(attempts, ok))];
        if ok {
          FirstOkFound(results, attempts - 1, MAX_ATTEMPTS);
          return;
        }
        if attempts == MAX_ATTEMPTS { return; }
        attempts := attempts + 1;
      }
    }

    /** Take what is pending, if it is due, and hand it over. */
    method FlushSession(sid: SessionId, force: bool, wait: bool, chainAnswers: bool, results: seq<bool>, now: nat)
      returns (took: bool)
      requires Valid() && |results| == MAX_ATTEMPTS
      modifies this`sessions, this`parcels
      ensures Valid()
      ensures took <==> sid in old(sessions) && Takes(old(View()), sid, force, chunk, Elapsed(old(sessions)[sid], now))
      ensures took <==> sid in old(sessions) && Ripe(old(sessions)[sid], force, now)
      ensures took ==> sessions == old(sessions)[sid := Batch(0, 0, now)]
      ensures took ==> Appended(old(parcels), parcels, sid)
      ensures took ==> parcels[|old(parcels)|].tokens == Pair(old(sessions)[sid].input, old(sessions)[sid].output)
      // the first attempt is under way; a flush that waits for the chain sees its parcel through
      ensures took && !wait ==> parcels[|old(parcels)|].fate == Trying(1)
      ensures took && wait ==>
        parcels[|old(parcels)|].fate == if results[0] || results[1] || results[2] then Confirmed else GivenUp
      ensures !took ==> parcels == old(parcels) && sessions == NewIfMissing(old(sessions), sid, chainAnswers, now)
    {
      EnsureSession(sid, chainAnswers, now);
      took := sid in sessions && Total(sessions[sid]) != 0
           && (force || Total(sessions[sid]) >= chunk || Elapsed(sessions[sid], now));
      if !took { return; }
      TakeKeeps(View(), sid, now);
      var i := |parcels|;
      parcels := parcels + [Parcel(sid, Pair(sessions[sid].input, sessions[sid].output), Taken, 0)];
      sessions := sessions[sid := Batch(0, 0, now)];
      SetFateKeeps(View(), i, Trying(1), 1);
      parcels := parcels[i := parcels[i].(fate := Trying(1), handed := 1)];
      if wait {
        var _ := RecordUsageWithRetry(i, results);
      }
    }

    /** Add tokens; when the session reaches the chunk size the whole batch leaves at once, so a call
        that adds anything returns below the chunk. */
    method AddUsage(sid: SessionId, input: u64, output: u64, chainAnswers: bool, results: seq<bool>, now: nat)
      requires Valid() && |results| == MAX_ATTEMPTS
      modifies this`sessions, this`parcels, this`notes
      ensures Valid()
      ensures input == 0 && output == 0 ==> View() == old(View())
      ensures input + output > 0 && sid in sessions ==> sessions[sid].input + sessions[sid].output < chunk
      ensures forall s :: s != sid ==> (s in sessions <==> s in old(sessions))
      ensures forall s :: s != sid && s in sessions ==> sessions[s] == old(sessions)[s]
      // tokens for a session that is not there, and that the chain does not confirm, are dropped
      ensures Received(old(notes), notes, sid, Pair(input, output), sid in sessions)
      ensures parcels == old(parcels) || Appended(old(parcels), parcels, sid)
      ensures sid in sessions <==> sid in old(sessions) || (chainAnswers && input + output > 0)
      // what was pending and what was added are still pending, or have left together
      ensures Appended(old(parcels), parcels, sid) ==>
        parcels[|old(parcels)|].tokens.input + parcels[|old(parcels)|].tokens.output >= chunk
      ensures Appended(old(parcels), parcels, sid) ==>
        parcels[|old(parcels)|].tokens == Grown(BatchOf(old(sessions), sid), input, output)
      ensures parcels == old(parcels) && sid in sessions ==>
        Pair(sessions[sid].input, sessions[sid].output) == Grown(BatchOf(old(sessions), sid), input, output)
      // the interval starts again when the batch leaves, and only then; a batch that leaves is not waited for
      ensures Appended(old(parcels), parcels, sid) ==>
        sid in sessions && sessions[sid] == Batch(0, 0, now) && parcels[|old(parcels)|].fate == Trying(1)
      ensures parcels == old(parcels) && sid in sessions ==>
        sessions[sid].lastFlush == if sid in old(sessions) then old(sessions)[sid].lastFlush else now
    {
      if input == 0 && output == 0 { return; }
      EnsureSession(sid, chainAnswers, now);
      AddKeeps(View(), sid, input, output);
      ghost var added := Add(View(), sid, input, output);
      NotesOfAdd(View(), sid, input, output);
      notes := added.notes;
      if sid !in sessions { return; }
      var was := sessions[sid];
      var grown := was.(input := SaturatingAdd(was.input, input), output := SaturatingAdd(was.output, output));
      sessions := sessions[sid := grown];
      assert View() == added;
      if Total(sessions[sid]) >= chunk {
        var _ := FlushSession(sid, false, false, chainAnswers, results, now);
      }
    }

    /** The sweep takes the batch of this session. */
    predicate DueAt(b: Batch, now: nat) {
      Total(b) > 0 && Elapsed(b, now)
    }

    /** The body of the sweep's loop. */
    method SweepOne(sid: SessionId, results: seq<bool>, now: nat) returns (took: bool)
      requires Valid() && |results| == MAX_ATTEMPTS
      modifies this`sessions, this`parcels
      ensures Valid() && (took <==> sid in old(sessions) && DueAt(old(sessions)[sid], now))
      ensures !took ==> sessions == old(sessions) && parcels == old(parcels)
      ensures took ==> sessions == old(sessions)[sid := Batch(0, 0, now)] && Appended(old(parcels), parcels, sid)
      ensures took ==> parcels[|old(parcels)|].tokens == Pending(old(sessions)[sid])
      ensures took ==> parcels[|old(parcels)|].fate == Trying(1)
    {
      took := false;
      if sid in sessions && Total(sessions[sid]) > 0 && Elapsed(sessions[sid], now) {
        took := FlushSession(sid, true, false, true, results, now);
      }
    }

    /** Flush every listed session whose interval has passed. What they held leaves in one parcel each, and
        nothing else does. */
    method SweepTimeouts(ids: seq<SessionId>, results: seq<bool>, now: nat)
      requires Valid() && |results| == MAX_ATTEMPTS
      modifies this`sessions, this`parcels
      ensures Valid() && sessions.Keys == old(sessions).Keys
      ensures forall s :: s in sessions ==> GoesIfOld(old(sessions)[s], sessions[s], s in ids, now)
      ensures |old(parcels)| <= |parcels| && parcels[..|old(parcels)|] == old(parcels)
      ensures var due := set s | s in old(sessions) && s in ids && DueAt(old(sessions)[s], now);
        Left(old(sessions), due, parcels[|old(parcels)|..])
      // the sweep waits for none of them
      ensures forall i :: |old(parcels)| <= i < |parcels| ==> parcels[i].fate == Trying(1)
    {
      ghost var n := |parcels|;
      ghost var due: set<SessionId> := {};
      for i := 0 to |ids|
        invariant Valid() && sessions.Keys == old(sessions).Keys
        invariant forall s :: s in sessions ==> GoesIfOld(old(sessions)[s], sessions[s], s in ids[..i], now)
        invariant forall s :: s in due <==> s in old(sessions) && s in ids[..i] && DueAt(old(sessions)[s], now)
        invariant n <= |parcels| && parcels[..n] == old(parcels) && Left(old(sessions), due, parcels[n..])
        invariant forall i :: n <= i < |parcels| ==> parcels[i].fate == Trying(1)
      {
        assert ids[..i + 1] == ids[..i] + [ids[i]];
        ghost var before := parcels;
        var took := SweepOne(ids[i], results, now);
        if took {
          FlushLeaves(old(sessions), due, before, parcels, n, ids[i]);
          due := due + {ids[i]};
        }
      }
      assert ids[..|ids|] == ids;
      assert due == set s | s in old(sessions) && s in ids && DueAt(old(sessions)[s], now);
    }

    /** Flush, then forget. Run by itself it loses nothing: what was pending is handed over. */
    method RemoveSession(sid: SessionId, chainAnswers: bool, results: seq<bool>, now: nat)
      requires Valid() && |results| == MAX_ATTEMPTS
      modifies this`sessions, this`parcels, this`notes
      ensures Valid() && sessions == old(sessions) - {sid}
      ensures forall s, d :: NoteSum(notes, Discarded, s, d) == NoteSum(old(notes), Discarded, s, d)
      ensures if Total(BatchOf(old(sessions), sid)) == 0 then parcels == old(parcels) else
        && Appended(old(parcels), parcels, sid) && parcels[|old(parcels)|].tokens == Pending(old(sessions)[sid])
        && parcels[|old(parcels)|].fate == Trying(1)
    {
      var _ := FlushSession(sid, true, false, chainAnswers, results, now);
      RemoveKeeps(View(), sid);
      ghost var removed := Remove(View(), sid);
      if sid in sessions {
        forall s, d ensures NoteSum(removed.notes, Discarded, s, d) == NoteSum(notes, Discarded, s, d) {
          NoteAppend(notes, removed.notes[|notes|], Discarded, s, d);
        }
      }
      notes := removed.notes;
      sessions := sessions - {sid};
      assert View() == removed;
    }

    /** Shutdown: every listed session is emptied, what it held leaves in one parcel, and every parcel
        has reached its end, whatever the chain answers for each. */
    method FlushAllOnShutdown(ids: seq<SessionId>, answers: seq<bool>, results: seq<seq<bool>>, now: nat)
      requires Valid() && |answers| == |ids| == |results| && forall r :: r in results ==> |r| == MAX_ATTEMPTS
      modifies this`sessions, this`parcels
      ensures Valid()
      ensures Flushed(old(sessions), sessions, old(parcels), parcels, ids)
    {
      NothingFlushed(sessions, parcels);
      for k := 0 to |ids|
        invariant Valid() && Flushed(old(sessions), sessions, old(parcels), parcels, ids[..k])
      {
        assert ids[..k + 1] == ids[..k] + [ids[k]];
        ghost var sessions1, parcels1 := sessions, parcels;
        var took := FlushSession(ids[k], true, true, answers[k], results[k], now);
        if took {
          FlushedOneMore(old(sessions), sessions1, sessions, old(parcels), parcels1, parcels, ids[..k], ids[k]);
        } else {
          FlushedNothing(old(sessions), sessions1, sessions, old(parcels), parcels, ids[..k], ids[k]);
        }
      }
      assert ids[..|ids|] == ids;
    }
  }

  // ------------------------------------------------------------------ flushing a list of sessions

  function Holding(sessions: map<SessionId, Batch>, ids: seq<SessionId>): set<SessionId> {
    set s | s in sessions && s in ids && Total(sessions[s]) > 0
  }

  /** The listed sessions are still there and empty, the others as they were; what the listed ones held has
      left in one parcel each, seen through to its end, and nothing else has. */
  ghost predicate Flushed(before: map<SessionId, Batch>, after: map<SessionId, Batch>,
                          taken0: seq<Parcel>, taken: seq<Parcel>, ids: seq<SessionId>) {
    && (forall s :: s in ids ==> (s in before ==> s in after) && Total(BatchOf(after, s)) == 0)
    && (forall s :: s !in ids ==> Same(before, after, s))
    && |taken0| <= |taken| && taken[..|taken0|] == taken0
    && (forall i :: |taken0| <= i < |taken| ==> SeenThrough(taken[i]))
    && Left(before, Holding(before, ids), taken[|taken0|..])
  }

  lemma NothingFlushed(sessions: map<SessionId, Batch>, ps: seq<Parcel>)
    ensures Flushed(sessions, sessions, ps, ps, [])
  {
    assert Holding(sessions, []) == {};
  }

  /** The session held something, which has left. */
  lemma FlushedOneMore(m: map<SessionId, Batch>, m1: map<SessionId, Batch>, m2: map<SessionId, Batch>,
                       ps: seq<Parcel>, ps1: seq<Parcel>, ps2: seq<Parcel>, ids: seq<SessionId>, sid: SessionId)
    requires Flushed(m, m1, ps, ps1, ids) && sid in m1 && Total(m1[sid]) > 0
    requires sid in m2 && Total(m2[sid]) == 0 && m2 == m1[sid := m2[sid]]
    requires Appended(ps1, ps2, sid) && ps2[|ps1|].tokens == Pending(m1[sid]) && SeenThrough(ps2[|ps1|])
    ensures Flushed(m, m2, ps, ps2, ids + [sid])
  {
    assert sid !in ids && Same(m, m1, sid);
    FlushLeaves(m, Holding(m, ids), ps1, ps2, |ps|, sid);
    assert Holding(m, ids + [sid]) == Holding(m, ids) + {sid};
    forall i | |ps| <= i < |ps2| ensures SeenThrough(ps2[i]) {
      if i < |ps1| { assert ps2[i] == ps2[..|ps1|][i]; }
    }
    forall s | s !in ids + [sid] ensures Same(m, m2, s) { assert Same(m, m1, s); }
  }

  /** The session held nothing, or was not there. */
  lemma FlushedNothing(m: map<SessionId, Batch>, m1: map<SessionId, Batch>, m2: map<SessionId, Batch>,
                       ps: seq<Parcel>, ps1: seq<Parcel>, ids: seq<SessionId>, sid: SessionId)
    requires Flushed(m, m1, ps, ps1, ids) && Total(BatchOf(m1, sid)) == 0
    requires m2 == m1 || (sid !in m1 && sid in m2 && Total(m2[sid]) == 0 && m2 == m1[sid := m2[sid]])
    ensures Flushed(m, m2, ps, ps1, ids + [sid])
  {
    if sid !in ids { assert Same(m, m1, sid); }
    assert Holding(m, ids + [sid]) == Holding(m, ids);
    forall s | s !in ids + [sid] ensures Same(m, m2, s) { assert Same(m, m1, s); }
  }

  lemma {:induction false} FirstOkFound(results: seq<bool>, k: nat, n: nat)
    requires k < n <= |results| && results[k] && FirstOk(results, k).None?
    ensures FirstOk(results, n) == Some(k)
    decreases n
  {
    if n > k + 1 { FirstOkFound(results, k, n - 1); }
  }

  /** These tokens were accepted, or dropped, and nothing else was. */
  ghost predicate Received(before: seq<Note>, after: seq<Note>, sid: SessionId, tokens: Pair, accepted: bool) {
    forall d ::
      && AcceptedBy(after, sid, d) == AcceptedBy(before, sid, d) + (if accepted then Amount(tokens, d) else 0)
      && DroppedBy(after, sid, d) == DroppedBy(before, sid, d) + (if accepted then 0 else Amount(tokens, d))
  }

  lemma NotesOfAdd(b: Books, sid: SessionId, input: u64, output: u64)
    ensures Received(b.notes, Add(b, sid, input, output).notes, sid, Pair(input, output), sid in b.sessions)
  {
    var ns := Add(b, sid, input, output).notes;
    forall d ensures AcceptedBy(ns, sid, d) == AcceptedBy(b.notes, sid, d)
        + (if sid in b.sessions then Amount(Pair(input, output), d) else 0)
      ensures DroppedBy(ns, sid, d) == DroppedBy(b.notes, sid, d)
        + (if sid in b.sessions then 0 else Amount(Pair(input, output), d))
    {
      NoteAppendAll(b.notes, ns[|b.notes|], sid, d);
      if sid in b.sessions { NoteAppendAll(b.notes + [ns[|b.notes|]], ns[|b.notes| + 1], sid, d); }
    }
  }
}
