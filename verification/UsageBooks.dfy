/** Token bookkeeping of the usage batcher: what is pending per session, what has been taken out and
    handed to the chain client, and what was lost on the way. The functions are the critical sections of
    the batcher; the lemmas say that each of them keeps the books balanced. */
module UsageBooks {
  import opened Words

  type SessionId = u64

  datatype Dir = Input | Output

  datatype Pair = Pair(input: nat, output: nat)

  function Amount(p: Pair, d: Dir): nat {
    if d.Input? then p.input else p.output
  }

  datatype Batch = Batch(input: u64, output: u64, lastFlush: nat)

  function Total(b: Batch): u64 {
    SaturatingAdd(b.input, b.output)
  }

  const MAX_ATTEMPTS := 3

  /** `Taken`: out of the batch, not yet with the retry loop. `Trying(n)`: the n-th attempt is running. */
  datatype Fate = Taken | Trying(attempt: nat) | Confirmed | GivenUp

  /** One batch of tokens taken out of a session. `handed` counts the hand-overs to the retry loop. */
  datatype Parcel = Parcel(sid: SessionId, tokens: Pair, fate: Fate, handed: nat)

  /** `Accepted`: tokens added to a session. `Truncated`: the part a saturated counter did not hold.
      `Discarded`: pending tokens that went with a removed session. `Dropped`: tokens reported for a session
      that is not there, and never accepted. */
  datatype Kind = Accepted | Truncated | Discarded | Dropped

  datatype Note = Note(kind: Kind, sid: SessionId, tokens: Pair)

  datatype Books = Books(sessions: map<SessionId, Batch>, parcels: seq<Parcel>, notes: seq<Note>)

  const EMPTY := Books(map[], [], [])

  // ------------------------------------------------------------------ sums

  datatype Group = InFlight | Settled | Failed

  function GroupOf(f: Fate): Group {
    match f
    case Taken => InFlight
    case Trying(_) => InFlight
    case Confirmed => Settled
    case GivenUp => Failed
  }

  function PendingOf(b: Books, sid: SessionId, d: Dir): nat {
    if sid in b.sessions then (if d.Input? then b.sessions[sid].input else b.sessions[sid].output) else 0
  }

  function ParcelSum(ps: seq<Parcel>, g: Group, sid: SessionId, d: Dir): nat {
    if ps == [] then 0 else
      var p := ps[|ps| - 1];
      ParcelSum(ps[..|ps| - 1], g, sid, d) + (if p.sid == sid && GroupOf(p.fate) == g then Amount(p.tokens, d) else 0)
  }

  function NoteSum(ns: seq<Note>, k: Kind, sid: SessionId, d: Dir): nat {
    if ns == [] then 0 else
      var n := ns[|ns| - 1];
      NoteSum(ns[..|ns| - 1], k, sid, d) + (if n.sid == sid && n.kind == k then Amount(n.tokens, d) else 0)
  }

  /** Every accepted token is accounted for exactly once. */
  ghost predicate BalancedFor(b: Books, sid: SessionId, d: Dir) {
    PendingOf(b, sid, d)
      + ParcelSum(b.parcels, InFlight, sid, d) + ParcelSum(b.parcels, Settled, sid, d)
      + ParcelSum(b.parcels, Failed, sid, d)
      + NoteSum(b.notes, Truncated, sid, d) + NoteSum(b.notes, Discarded, sid, d)
    == NoteSum(b.notes, Accepted, sid, d)
  }

  /** As long as 64 bits hold all that was ever accepted, no counter has saturated. */
  ghost predicate FitsFor(b: Books, sid: SessionId, d: Dir) {
    NoteSum(b.notes, Accepted, sid, d) <= U64_MAX ==> NoteSum(b.notes, Truncated, sid, d) == 0
  }

  ghost predicate Balanced(b: Books) {
    forall sid: SessionId, d: Dir :: BalancedFor(b, sid, d) && FitsFor(b, sid, d)
  }

  /** A parcel reaches the retry loop once, when it stops being merely taken. */
  predicate ParcelOk(p: Parcel) {
    && p.handed == (if p.fate.Taken? then 0 else 1)
    && (p.fate.Trying? ==> 1 <= p.fate.attempt <= MAX_ATTEMPTS)
    && p.tokens.input + p.tokens.output > 0
  }

  ghost predicate BooksOk(b: Books) {
    Balanced(b) && forall i :: 0 <= i < |b.parcels| ==> ParcelOk(b.parcels[i])
  }

  // ------------------------------------------------------------------ the critical sections

  /** `entry(sid).or_insert_with(..)`. */
  function Ensure(b: Books, sid: SessionId, now: nat): Books {
    if sid in b.sessions then b else b.(sessions := b.sessions[sid := Batch(0, 0, now)])
  }

  /** The last part of `add_usage`, from its second look at the session table on. */
  function Add(b: Books, sid: SessionId, input: u64, output: u64): Books {
    if sid !in b.sessions then b.(notes := b.notes + [Note(Dropped, sid, Pair(input, output))]) else
      var was := b.sessions[sid];
      var now := was.(input := SaturatingAdd(was.input, input), output := SaturatingAdd(was.output, output));
      b.(sessions := b.sessions[sid := now],
         notes := b.notes
           + [Note(Accepted, sid, Pair(input, output))]
           + [Note(Truncated, sid, Pair(was.input + input - now.input, was.output + output - now.output))])
  }

  /** Whether the locked part of `flush_session` takes the batch. */
  predicate Takes(b: Books, sid: SessionId, force: bool, chunk: u64, elapsed: bool) {
    && sid in b.sessions
    && Total(b.sessions[sid]) != 0
    && (force || Total(b.sessions[sid]) >= chunk || elapsed)
  }

  /** The locked part of `flush_session` when it takes the batch. */
  function Take(b: Books, sid: SessionId, now: nat): Books
    requires sid in b.sessions
  {
    var was := b.sessions[sid];
    b.(sessions := b.sessions[sid := Batch(0, 0, now)],
       parcels := b.parcels + [Parcel(sid, Pair(was.input, was.output), Taken, 0)])
  }

  /** `sessions.remove(sid)`. */
  function Remove(b: Books, sid: SessionId): Books {
    if sid !in b.sessions then b else
      b.(sessions := b.sessions - {sid},
         notes := b.notes + [Note(Discarded, sid, Pair(b.sessions[sid].input, b.sessions[sid].output))])
  }

  function SetFate(b: Books, i: nat, f: Fate, handed: nat): Books
    requires i < |b.parcels|
  {
    b.(parcels := b.parcels[i := b.parcels[i].(fate := f, handed := handed)])
  }

  /** `record_usage_with_retry` is called with the parcel. */
  function HandOver(b: Books, i: nat): Books
    requires i < |b.parcels|
  {
    SetFate(b, i, Trying(1), b.parcels[i].handed + 1)
  }

  function AfterAttempt(attempt: nat, ok: bool): Fate {
    if ok then Confirmed else if attempt < MAX_ATTEMPTS then Trying(attempt + 1) else GivenUp
  }

  /** One attempt of the retry loop ends. */
  function Attempt(b: Books, i: nat, ok: bool): Books
    requires i < |b.parcels| && b.parcels[i].fate.Trying?
  {
    SetFate(b, i, AfterAttempt(b.parcels[i].fate.attempt, ok), b.parcels[i].handed)
  }

  /** Three attempts and no more: a success confirms at once, the third failure gives up. */
  lemma ThreeAttempts(b: Books, i: nat)
    requires i < |b.parcels| && b.parcels[i].fate == Trying(1)
    ensures Attempt(b, i, true).parcels[i].fate == Confirmed
    ensures var b2 := Attempt(b, i, false);
      && b2.parcels[i].fate == Trying(2) && Attempt(b2, i, true).parcels[i].fate == Confirmed
      && var b3 := Attempt(b2, i, false);
      && b3.parcels[i].fate == Trying(3) && Attempt(b3, i, true).parcels[i].fate == Confirmed
      && Attempt(b3, i, false).parcels[i].fate == GivenUp
  {}

  // ------------------------------------------------------------------ each keeps the balance

  /** What one note adds to a sum. */
  function NoteShare(n: Note, k: Kind, sid: SessionId, d: Dir): nat {
    if n.sid == sid && n.kind == k then Amount(n.tokens, d) else 0
  }

  lemma NoteAppend(ns: seq<Note>, n: Note, k: Kind, sid: SessionId, d: Dir)
    ensures NoteSum(ns + [n], k, sid, d) == NoteSum(ns, k, sid, d) + NoteShare(n, k, sid, d)
  {
    assert (ns + [n])[..|ns|] == ns;
  }

  lemma NoteAppendAll(ns: seq<Note>, n: Note, sid: SessionId, d: Dir)
    ensures forall k :: NoteSum(ns + [n], k, sid, d) == NoteSum(ns, k, sid, d) + NoteShare(n, k, sid, d)
  {
    forall k ensures NoteSum(ns + [n], k, sid, d) == NoteSum(ns, k, sid, d) + NoteShare(n, k, sid, d) {
      NoteAppend(ns, n, k, sid, d);
    }
  }

  /** What one parcel adds to a sum. */
  function Share(p: Parcel, g: Group, sid: SessionId, d: Dir): nat {
    if p.sid == sid && GroupOf(p.fate) == g then Amount(p.tokens, d) else 0
  }

  lemma ParcelAppend(ps: seq<Parcel>, p: Parcel, g: Group, sid: SessionId, d: Dir)
    ensures ParcelSum(ps + [p], g, sid, d) == ParcelSum(ps, g, sid, d) + Share(p, g, sid, d)
  {
    assert (ps + [p])[..|ps|] == ps;
  }

  lemma {:induction false} ParcelChange(ps: seq<Parcel>, i: nat, p: Parcel, g: Group, sid: SessionId, d: Dir)
    requires i < |ps|
    ensures ParcelSum(ps[i := p], g, sid, d) + Share(ps[i], g, sid, d) == ParcelSum(ps, g, sid, d) + Share(p, g, sid, d)
  {
    var n := |ps| - 1;
    if i == n {
      assert ps[i := p][..n] == ps[..n];
    } else {
      ParcelChange(ps[..n], i, p, g, sid, d);
      assert ps[i := p][..n] == ps[..n][i := p];
    }
  }

  /** Changing the fate of one parcel moves its tokens from one group to another. */
  lemma ParcelMove(ps: seq<Parcel>, i: nat, f: Fate, h: nat, g: Group, sid: SessionId, d: Dir)
    requires i < |ps|
    ensures var a := if ps[i].sid == sid then Amount(ps[i].tokens, d) else 0;
      ParcelSum(ps[i := ps[i].(fate := f, handed := h)], g, sid, d) + (if GroupOf(ps[i].fate) == g then a else 0)
        == ParcelSum(ps, g, sid, d) + (if GroupOf(f) == g then a else 0)
  {
    ParcelChange(ps, i, ps[i].(fate := f, handed := h), g, sid, d);
  }

  lemma EnsureKeeps(b: Books, sid: SessionId, now: nat)
    requires BooksOk(b)
    ensures BooksOk(Ensure(b, sid, now))
  {
    var b' := Ensure(b, sid, now);
    forall s: SessionId, d: Dir ensures BalancedFor(b', s, d) && FitsFor(b', s, d) {
      assert BalancedFor(b, s, d) && FitsFor(b, s, d);
    }
  }

  lemma AddKeeps(b: Books, sid: SessionId, input: u64, output: u64)
    requires BooksOk(b)
    ensures BooksOk(Add(b, sid, input, output))
  {
    var b' := Add(b, sid, input, output);
    forall s: SessionId, d: Dir ensures BalancedFor(b', s, d) && FitsFor(b', s, d) {
      assert BalancedFor(b, s, d) && FitsFor(b, s, d);
      if sid in b.sessions {
        AddAccount(b, sid, input, output, s, d);
      } else {
        DropAccount(b, sid, input, output, s, d);
      }
    }
  }

  lemma AddAccount(b: Books, sid: SessionId, input: u64, output: u64, s: SessionId, d: Dir)
    requires sid in b.sessions && BalancedFor(b, s, d) && FitsFor(b, s, d)
    ensures var b' := Add(b, sid, input, output); BalancedFor(b', s, d) && FitsFor(b', s, d)
  {
    var ns, n := Add(b, sid, input, output).notes, |b.notes|;
    NoteAppendAll(b.notes, ns[n], s, d);
    NoteAppendAll(b.notes + [ns[n]], ns[n + 1], s, d);
  }

  lemma DropAccount(b: Books, sid: SessionId, input: u64, output: u64, s: SessionId, d: Dir)
    requires sid !in b.sessions && BalancedFor(b, s, d) && FitsFor(b, s, d)
    ensures var b' := Add(b, sid, input, output); BalancedFor(b', s, d) && FitsFor(b', s, d)
  {
    NoteAppendAll(b.notes, Add(b, sid, input, output).notes[|b.notes|], s, d);
  }

  lemma TakeKeeps(b: Books, sid: SessionId, now: nat)
    requires BooksOk(b) && sid in b.sessions && Total(b.sessions[sid]) != 0
    ensures BooksOk(Take(b, sid, now))
  {
    var b' := Take(b, sid, now);
    forall s: SessionId, d: Dir ensures BalancedFor(b', s, d) && FitsFor(b', s, d) {
      assert BalancedFor(b, s, d) && FitsFor(b, s, d);
      ParcelAppend(b.parcels, b'.parcels[|b.parcels|], InFlight, s, d);
      ParcelAppend(b.parcels, b'.parcels[|b.parcels|], Settled, s, d);
      ParcelAppend(b.parcels, b'.parcels[|b.parcels|], Failed, s, d);
    }
  }

  lemma RemoveKeeps(b: Books, sid: SessionId)
    requires BooksOk(b)
    ensures BooksOk(Remove(b, sid))
  {
    var b' := Remove(b, sid);
    forall s: SessionId, d: Dir ensures BalancedFor(b', s, d) && FitsFor(b', s, d) {
      assert BalancedFor(b, s, d) && FitsFor(b, s, d);
      if sid in b.sessions {
        NoteAppendAll(b.notes, b'.notes[|b.notes|], s, d);
      }
    }
  }

  lemma SetFateKeeps(b: Books, i: nat, f: Fate, h: nat)
    requires BooksOk(b) && i < |b.parcels| && ParcelOk(b.parcels[i].(fate := f, handed := h))
    ensures BooksOk(SetFate(b, i, f, h))
  {
    var b' := SetFate(b, i, f, h);
    forall s: SessionId, d: Dir ensures BalancedFor(b', s, d) && FitsFor(b', s, d) {
      assert BalancedFor(b, s, d) && FitsFor(b, s, d);
      ParcelMove(b.parcels, i, f, h, InFlight, s, d);
      ParcelMove(b.parcels, i, f, h, Settled, s, d);
      ParcelMove(b.parcels, i, f, h, Failed, s, d);
    }
  }
}
