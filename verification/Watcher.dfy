/** The block cursor of the chain watcher: which blocks each poll looks at, and what a failed poll
    leaves for the next one. */
module Watcher {
  import opened Words

  /** How far one poll gets: the head request fails; one of the two log requests fails; or all succeed. */
  datatype Rpc = HeadFails | OpenedFails(head: u64) | ReleasedFails(head: u64) | AllWell(head: u64)

  /** The blocks `from` to `to`, both included. */
  datatype Range = Range(from: u64, to: u64)

  /** `covered`: ranges whose two log requests both succeeded; `attempted`: all ranges asked for. */
  datatype Cursor = Cursor(last: u64, covered: seq<Range>, attempted: seq<Range>)

  const START := Cursor(0, [], [])

  function Anchored(last: u64, head: u64): u64 {
    if last == 0 then SaturatingSub(head, 1) else last
  }

  /** `last + 1` on 64 bits. */
  function Successor(x: u64): u64 {
    if x == U64_MAX then 0 else x + 1
  }

  function Poll(c: Cursor, r: Rpc): Cursor {
    if r.HeadFails? then c else
      var last := Anchored(c.last, r.head);
      var from := Successor(last);
      if from > r.head then c.(last := last)
      else
        var asked := c.attempted + [Range(from, r.head)];
        if r.AllWell? then Cursor(r.head, c.covered + [Range(from, r.head)], asked)
        else Cursor(last, c.covered, asked)
  }

  function Run(c: Cursor, rs: seq<Rpc>): Cursor
    decreases |rs|
  {
    if rs == [] then c else Poll(Run(c, rs[..|rs| - 1]), rs[|rs| - 1])
  }

  class Poller {
    var lastBlock: u64
    ghost var covered: seq<Range>
    ghost var attempted: seq<Range>

    ghost function View(): Cursor
      reads this
    {
      Cursor(lastBlock, covered, attempted)
    }

    constructor ()
      ensures View() == START
    {
      lastBlock, covered, attempted := 0, [], [];
    }

    /** One poll. */
    method PollOnce(r: Rpc) returns (ok: bool)
      modifies this
      ensures View() == Poll(old(View()), r)
      ensures ok <==> r.AllWell? || (!r.HeadFails? && Successor(Anchored(old(lastBlock), r.head)) > r.head)
    {
      if r.HeadFails? { return false; }
      if lastBlock == 0 {
        lastBlock := SaturatingSub(r.head, 1);
      }
      var from := Successor(lastBlock);
      if from > r.head { return true; }
      attempted := attempted + [Range(from, r.head)];
      if !r.AllWell? { return false; }
      covered := covered + [Range(from, r.head)];
      lastBlock := r.head;
      return true;
    }
  }

  /** Heads below the last 64-bit number, the one value on which `last + 1` wraps. */
  predicate Sane(rs: seq<Rpc>) {
    forall r | r in rs :: r.HeadFails? || r.head < U64_MAX
  }

  /** The ranges follow each other without gap or overlap, starting at `from` and ending at `to`. */
  predicate Tiles(rs: seq<Range>, from: nat, to: nat) {
    if rs == [] then from == to + 1
    else
      var r := rs[|rs| - 1];
      r.from <= r.to && r.to == to && r.from > 0 && Tiles(rs[..|rs| - 1], from, r.from - 1)
  }

  lemma OnePoll(c: Cursor, r: Rpc)
    requires 0 < c.last < U64_MAX && (r.HeadFails? || r.head < U64_MAX)
    ensures var c' := Poll(c, r);
      if r.AllWell? && r.head > c.last then c'.last == r.head && c'.covered == c.covered + [Range(c.last + 1, r.head)]
      else c'.last == c.last && c'.covered == c.covered
  {}

  /** Without a head nothing changes; and without a block above a set cursor nothing is asked. */
  lemma NothingToDo(c: Cursor, r: Rpc)
    ensures r.HeadFails? ==> Poll(c, r) == c
    ensures !r.HeadFails? && r.head <= c.last < U64_MAX && 0 < c.last ==> Poll(c, r) == c
  {}

  /** A poll asks, once, for the blocks from the one above its anchor up to the head; what both requests
      answer is covered and moves the cursor to the head, and anything else covers nothing. */
  lemma OneRequest(c: Cursor, r: Rpc)
    requires 0 < c.last < U64_MAX && !r.HeadFails? && r.head > c.last
    ensures Poll(c, r).attempted == c.attempted + [Range(c.last + 1, r.head)]
    ensures r.AllWell? ==> Poll(c, r).covered == c.covered + [Range(c.last + 1, r.head)] && Poll(c, r).last == r.head
    ensures !r.AllWell? ==> Poll(c, r).covered == c.covered && Poll(c, r).last == c.last
  {}

  lemma TilesAppend(rs: seq<Range>, from: nat, to: nat, next: u64)
    requires Tiles(rs, from, to) && to < next
    ensures Tiles(rs + [Range(to + 1, next)], from, next)
  {
    assert (rs + [Range(to + 1, next)])[..|rs|] == rs;
  }

  /** Once the cursor is set it never goes back, and what has been covered since tiles the blocks above
      its value then. */
  lemma {:induction false} CoverageTiles(c: Cursor, rs: seq<Rpc>)
    requires 0 < c.last < U64_MAX && Sane(rs)
    ensures Advanced(c, Run(c, rs))
    decreases |rs|
  {
    if rs == [] {
      assert c.covered[|c.covered|..] == [];
    } else {
      var init, r := rs[..|rs| - 1], rs[|rs| - 1];
      assert r in rs;
      CoverageTiles(c, init);
      PollTiles(c, Run(c, init), r);
    }
  }

  /** `m` has moved on from `c`, and what it covered since tiles the blocks between. */
  predicate Advanced(c: Cursor, m: Cursor) {
    && c.last <= m.last < U64_MAX
    && |c.covered| <= |m.covered| && m.covered[..|c.covered|] == c.covered
    && Tiles(m.covered[|c.covered|..], c.last + 1, m.last)
  }

  lemma PollTiles(c: Cursor, m: Cursor, r: Rpc)
    requires 0 < c.last && Advanced(c, m) && (r.HeadFails? || r.head < U64_MAX)
    ensures Advanced(c, Poll(m, r))
  {
    OnePoll(m, r);
    if r.AllWell? && r.head > m.last {
      var n, next := |c.covered|, Range(m.last + 1, r.head);
      TilesAppend(m.covered[n..], c.last + 1, m.last, r.head);
      assert (m.covered + [next])[n..] == m.covered[n..] + [next] && (m.covered + [next])[..n] == m.covered[..n];
    }
  }

  /** Why heads below the last 64-bit number: a poll asks from the block above the cursor exactly when the
      cursor is not that number; there it wraps round to block 0. */
  lemma NextRangeStartsAbove(c: Cursor, r: Rpc)
    requires 0 < c.last && Poll(c, r).attempted != c.attempted
    ensures Poll(c, r).attempted[|c.attempted|].from == c.last + 1 <==> c.last < U64_MAX
    ensures c.last == U64_MAX ==> Poll(c, r).attempted[|c.attempted|] == Range(0, r.head)
  {}

  /** Some range covered after the first n covers the whole range r. */
  predicate CoveredAfter(covered: seq<Range>, n: nat, r: Range) {
    exists i | n <= i < |covered| :: covered[i].from <= r.from && r.to <= covered[i].to
  }

  predicate Asked(c: Cursor, r: Rpc) {
    Poll(c, r).attempted != c.attempted
  }

  /** When a failed range is covered again by the next poll that succeeds and sees as far: exactly when
      the failed poll left the cursor set, or left it at 0 at the very first block and the chain has not
      grown since. While the cursor is 0 a failure is otherwise forgotten. */
  lemma FailedRangeIsRetried(c: Cursor, r: Rpc, r': Rpc)
    requires c.last < U64_MAX && (r.OpenedFails? || r.ReleasedFails?) && Asked(c, r) && r.head < U64_MAX
    requires r'.AllWell? && r.head <= r'.head < U64_MAX
    ensures var after := Poll(c, r);
      var failed := after.attempted[|c.attempted|];
      && failed == Range(Anchored(c.last, r.head) + 1, r.head) && after.covered == c.covered
      && (after.last > 0 ==>
            after.last == failed.from - 1 && Poll(after, r').covered == c.covered + [Range(failed.from, r'.head)])
      && (CoveredAfter(Poll(after, r').covered, |c.covered|, failed) <==> after.last > 0 || r'.head <= 1)
  {
    var after := Poll(c, r);
    var next := Poll(after, r');
    if next.covered != c.covered {
      assert next.covered == c.covered + [next.covered[|c.covered|]];
    }
  }

  /** Every block between two cursor values lies in exactly one of the ranges covered between. */
  lemma {:induction false} TilesCover(rs: seq<Range>, from: nat, to: nat, b: nat)
    requires Tiles(rs, from, to) && from <= b <= to
    ensures exists i :: 0 <= i < |rs| && Within(rs[i], b)
    ensures forall i, j :: 0 <= i < j < |rs| && Within(rs[i], b) ==> !Within(rs[j], b)
    decreases |rs|
  {
    var k := |rs| - 1;
    if b >= rs[k].from {
      assert Within(rs[k], b);
      TilesBelow(rs[..k], from, rs[k].from - 1);
      assert forall i :: 0 <= i < k ==> rs[i] == rs[..k][i];
    } else {
      TilesCover(rs[..k], from, rs[k].from - 1, b);
      var i :| 0 <= i < k && Within(rs[..k][i], b);
      assert Within(rs[i], b);
      assert forall i :: 0 <= i < k ==> rs[i] == rs[..k][i];
    }
  }

  predicate Within(r: Range, b: nat) {
    r.from <= b <= r.to
  }

  lemma {:induction false} TilesBelow(rs: seq<Range>, from: nat, to: nat)
    requires Tiles(rs, from, to)
    ensures forall i :: 0 <= i < |rs| ==> rs[i].to <= to
    decreases |rs|
  {
    if rs != [] {
      var k := |rs| - 1;
      TilesBelow(rs[..k], from, rs[k].from - 1);
      assert forall i :: 0 <= i < k ==> rs[i] == rs[..k][i];
    }
  }

  /** After any failures and polls in between: once the cursor is set, a block above it is covered, and then
      exactly once, as soon as and not before the cursor has reached it. */
  lemma CoveredExactlyOnce(c: Cursor, rs: seq<Rpc>, b: nat)
    requires 0 < c.last < b && c.last < U64_MAX && Sane(rs)
    ensures var c' := Run(c, rs);
      && |c.covered| <= |c'.covered|
      && var since := c'.covered[|c.covered|..];
      && ((exists i :: 0 <= i < |since| && Within(since[i], b)) <==> b <= c'.last)
      && (forall i, j :: 0 <= i < j < |since| && Within(since[i], b) ==> !Within(since[j], b))
  {
    CoverageTiles(c, rs);
    var c' := Run(c, rs);
    var since := c'.covered[|c.covered|..];
    if b <= c'.last {
      TilesCover(since, c.last + 1, c'.last, b);
    } else {
      TilesBelow(since, c.last + 1, c'.last);
    }
  }

  /** The first poll that learns a head of two or more sets the cursor just below it, even when it fails. */
  lemma FirstAnchor(r: Rpc)
    requires !r.HeadFails? && r.head >= 2
    ensures Poll(START, r).last == if r.AllWell? then r.head else r.head - 1
    ensures Poll(START, r).covered == if r.AllWell? then [Range(r.head, r.head)] else []
  {}

  /** Why the cursor has to be set: while it is 0 a failure is forgotten, and the blocks between are
      skipped. */
  lemma ZeroCursorSkips(head: u64)
    requires head >= 3
    ensures var c := Run(START, [OpenedFails(1), AllWell(head)]);
      c.attempted == [Range(1, 1), Range(head, head)] && c.covered == [Range(head, head)]
  {
    var rs := [OpenedFails(1), AllWell(head)];
    assert rs[..1] == [OpenedFails(1)] && [OpenedFails(1)][..0] == [];
    assert Run(START, []) == START;
    assert Run(START, [OpenedFails(1)]) == Poll(START, OpenedFails(1));
  }
}
