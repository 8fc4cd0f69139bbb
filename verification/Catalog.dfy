/** The models catalog: per-node tables and the union served to clients. Map iteration order is left
    open: every loop takes its elements in an arbitrary order, and what is proved holds for each.

    A table entry is a JSON object; only its sparkl part matters to the merge. */
module Catalog {
  import opened Words

  type NodeId = nat
  type ModelId = string

  const TWO32: int := 0x1_0000_0000

  /** A field of a JSON object: not there, something that is no 64-bit number, or a number. */
  datatype Field = Absent | Other | Number(n: u64)

  /** The load fields an entry's sparkl object may carry. */
  datatype Sparkl = Sparkl(active: Field, activeAlias: Field, concurrency: Field, slots: Field)

  /** `sparkl` is absent, an object, or something else, on which merging panics. */
  datatype Entry = NoSparkl | WithSparkl(sparkl: Sparkl) | BadSparkl

  type Table = map<NodeId, map<ModelId, Entry>>

  /** One provider row; counts are truncated to 32 bits on the way in. */
  datatype Row = Row(node: NodeId, active: u32, concurrency: u32)

  /** A merged model. `slots` is absent until some provider states a concurrency or the first entry
      already had the field. */
  datatype Merged = Merged(rows: seq<Row>, active: u64, slots: Field)

  function Truncate(x: u64): u32 {
    x % TWO32
  }

  /** The first of the two that is there, number or not. */
  function OrElse(a: Field, b: Field): Field {
    if a.Absent? then b else a
  }

  function ValueOr0(a: Field): u64 {
    if a.Number? then a.n else 0
  }

  function RowOf(n: NodeId, e: Entry): Row {
    match e
    case WithSparkl(s) => Row(n, Truncate(ValueOr0(OrElse(s.active, s.activeAlias))), Truncate(ValueOr0(s.concurrency)))
    case _ => Row(n, 0, 0)
  }

  /** Free places of one provider, none when it states no concurrency. */
  function Free(r: Row): u64 {
    if r.concurrency > 0 then SaturatingSub(r.concurrency, r.active) else 0
  }

  function OwnSlots(e: Entry): Field {
    if e.WithSparkl? then e.sparkl.slots else Absent
  }

  predicate AnyLimit(rows: seq<Row>) {
    exists r | r in rows :: r.concurrency > 0
  }

  // ------------------------------------------------------------------ merging one entry

  function SumActive(rows: seq<Row>): u64 {
    if rows == [] then 0 else SaturatingAdd(SumActive(rows[..|rows| - 1]), rows[|rows| - 1].active)
  }

  function SumFree(rows: seq<Row>): u64 {
    if rows == [] then 0 else SaturatingAdd(SumFree(rows[..|rows| - 1]), Free(rows[|rows| - 1]))
  }

  /** `apply_aggregated_load`: the loop over the providers, then the fields it writes. */
  method ApplyAggregatedLoad(rows: seq<Row>, before: Field) returns (active: u64, slots: Field)
    ensures active == SumActive(rows)
    ensures slots == if AnyLimit(rows) then Number(SumFree(rows)) else before
  {
    active := 0;
    var available: u64 := 0;
    var limited := false;
    for i := 0 to |rows|
      invariant active == SumActive(rows[..i]) && available == SumFree(rows[..i])
      invariant limited == AnyLimit(rows[..i])
    {
      assert rows[..i + 1][..i] == rows[..i] && rows[..i + 1] == rows[..i] + [rows[i]];
      active := SaturatingAdd(active, rows[i].active);
      if rows[i].concurrency > 0 {
        available := SaturatingAdd(available, SaturatingSub(rows[i].concurrency, rows[i].active));
        assert AnyLimit(rows[..i + 1]) by { assert rows[i] in rows[..i + 1]; }
        limited := true;
      } else {
        assert AnyLimit(rows[..i + 1]) ==> AnyLimit(rows[..i]);
        assert AnyLimit(rows[..i]) ==> AnyLimit(rows[..i + 1]);
      }
    }
    assert rows[..|rows|] == rows;
    slots := if available > 0 || limited then Number(available) else before;
    if available > 0 { PositiveNeedsLimit(rows); }
  }

  lemma {:induction false} PositiveNeedsLimit(rows: seq<Row>)
    requires SumFree(rows) > 0
    ensures AnyLimit(rows)
  {
    var n := |rows| - 1;
    if Free(rows[n]) > 0 {
      assert rows[n] in rows;
    } else {
      PositiveNeedsLimit(rows[..n]);
      var r :| r in rows[..n] && r.concurrency > 0;
      assert r in rows;
    }
  }

  // ------------------------------------------------------------------ what the union should say

  /** The nodes that offer a model. */
  function Offering(t: Table, m: ModelId): set<NodeId> {
    set n | n in t && m in t[n]
  }

  function AllModels(t: Table): set<ModelId> {
    set n, m | n in t && m in t[n] :: m
  }

  /** Exact sums over a set of nodes. */
  ghost function Total(t: Table, m: ModelId, ns: set<NodeId>, free: bool): nat
    requires ns <= Offering(t, m)
  {
    if ns == {} then 0 else
      var n :| n in ns;
      Load(t, m, n, free) + Total(t, m, ns - {n}, free)
  }

  function Load(t: Table, m: ModelId, n: NodeId, free: bool): nat
    requires n in t && m in t[n]
  {
    if free then Free(RowOf(n, t[n][m])) else RowOf(n, t[n][m]).active
  }

  /** Any node of the set may be taken out first. */
  lemma {:induction false} TotalSplit(t: Table, m: ModelId, ns: set<NodeId>, n: NodeId, free: bool)
    requires ns <= Offering(t, m) && n in ns
    ensures Total(t, m, ns, free) == Load(t, m, n, free) + Total(t, m, ns - {n}, free)
    decreases |ns|
  {
    var k :| k in ns && Total(t, m, ns, free) == Load(t, m, k, free) + Total(t, m, ns - {k}, free);
    if k != n {
      TotalSplit(t, m, ns - {k}, n, free);
      TotalSplit(t, m, ns - {n}, k, free);
      assert ns - {k} - {n} == ns - {n} - {k};
    }
  }

  predicate DistinctNodes(rows: seq<Row>) {
    forall i, j :: 0 <= i < j < |rows| ==> rows[i].node != rows[j].node
  }

  function NodesOf(rows: seq<Row>): set<NodeId> {
    set r | r in rows :: r.node
  }

  /** The rows are those of the nodes `ns`, one each. */
  ghost predicate RowsOf(t: Table, m: ModelId, ns: set<NodeId>, rows: seq<Row>)
    requires ns <= Offering(t, m)
  {
    && DistinctNodes(rows) && NodesOf(rows) == ns
    && forall i :: 0 <= i < |rows| ==> rows[i].node in ns && rows[i] == RowOf(rows[i].node, t[rows[i].node][m])
  }

  /** What merging has built so far for one model. */
  ghost predicate Built(t: Table, m: ModelId, ns: set<NodeId>, x: Merged)
    requires ns <= Offering(t, m)
  {
    && x.rows != [] && RowsOf(t, m, ns, x.rows) && !t[x.rows[0].node][m].BadSparkl?
    && x.active == SumActive(x.rows)
    && x.slots == if AnyLimit(x.rows) then Number(SumFree(x.rows)) else OwnSlots(t[x.rows[0].node][m])
  }

  /** One row per offering node; the totals are the saturated sums over these nodes, whatever the order
      they were merged in. Only without any stated concurrency does the slots field keep what the first
      entry said. */
  ghost predicate MergedFor(t: Table, m: ModelId, ns: set<NodeId>, x: Merged)
    requires ns <= Offering(t, m)
  {
    && x.rows != [] && RowsOf(t, m, ns, x.rows) && !t[x.rows[0].node][m].BadSparkl?
    && x.active == Min(Total(t, m, ns, false), U64_MAX)
    && x.slots ==
         if AnyLimit(x.rows) then Number(Min(Total(t, m, ns, true), U64_MAX)) else OwnSlots(t[x.rows[0].node][m])
  }

  /** The union agrees with the table. */
  ghost predicate Agrees(union: map<ModelId, Merged>, t: Table) {
    && union.Keys == AllModels(t)
    && forall m :: m in union ==> MergedFor(t, m, Offering(t, m), union[m])
  }

  /** No entry on which a merge could panic. */
  predicate NoBadEntry(t: Table) {
    forall n | n in t :: forall m | m in t[n] :: !t[n][m].BadSparkl?
  }

  lemma {:induction false} SumsAreTotals(t: Table, m: ModelId, ns: set<NodeId>, rows: seq<Row>)
    requires ns <= Offering(t, m) && RowsOf(t, m, ns, rows)
    ensures SumActive(rows) == Min(Total(t, m, ns, false), U64_MAX)
    ensures SumFree(rows) == Min(Total(t, m, ns, true), U64_MAX)
    decreases |rows|
  {
    if rows == [] {
      assert ns == {};
    } else {
      var k := |rows| - 1;
      var init, n := rows[..k], rows[k].node;
      InitRows(t, m, ns, rows);
      SumsAreTotals(t, m, ns - {n}, init);
      TotalSplit(t, m, ns, n, false);
      TotalSplit(t, m, ns, n, true);
    }
  }

  lemma InitRows(t: Table, m: ModelId, ns: set<NodeId>, rows: seq<Row>)
    requires ns <= Offering(t, m) && rows != [] && RowsOf(t, m, ns, rows)
    ensures var k := |rows| - 1; rows[k].node in ns && RowsOf(t, m, ns - {rows[k].node}, rows[..k])
  {
    var k := |rows| - 1;
    var init, n := rows[..k], rows[k].node;
    assert rows[k] in rows;
    assert n in NodesOf(rows);
    forall x ensures x in NodesOf(init) <==> x in ns - {n} {
      if x in ns - {n} {
        var r :| r in rows && r.node == x;
        var i :| 0 <= i < |rows| && rows[i] == r;
        assert init[i] == r;
      }
    }
  }

  lemma AppendRow(t: Table, m: ModelId, ns: set<NodeId>, rows: seq<Row>, n: NodeId)
    requires ns <= Offering(t, m) && RowsOf(t, m, ns, rows) && n in Offering(t, m) && n !in ns
    ensures RowsOf(t, m, ns + {n}, rows + [RowOf(n, t[n][m])])
  {
    var row := RowOf(n, t[n][m]);
    var more := rows + [row];
    forall x ensures x in NodesOf(more) <==> x in ns + {n} {
      if x in NodesOf(rows) {
        var r :| r in rows && r.node == x;
        assert r in more;
      }
      assert row in more;
    }
  }

  // ------------------------------------------------------------------ what the entries themselves state

  /** The load an entry states, in 32 bits: its active count, or, if that is not there, what
      stands under the older name for it; anything but a number counts as none. */
  predicate StatesActive(e: Entry, n: nat) {
    match e
    case WithSparkl(Sparkl(Number(a), _, _, _)) => n == a % 0x1_0000_0000
    case WithSparkl(Sparkl(Absent, Number(a), _, _)) => n == a % 0x1_0000_0000
    case _ => n == 0
  }

  /** The limit an entry states, none being 0. */
  predicate StatesConcurrency(e: Entry, n: nat) {
    match e
    case WithSparkl(Sparkl(_, _, Number(c), _)) => n == c % 0x1_0000_0000
    case _ => n == 0
  }

  /** A provider row carries exactly what its entry states, each number under its own name; its free places
      are what the limit leaves. */
  lemma RowIsStated(n: NodeId, e: Entry, a: nat, c: nat)
    ensures RowOf(n, e).active == a <==> StatesActive(e, a)
    ensures RowOf(n, e).concurrency == c <==> StatesConcurrency(e, c)
    ensures RowOf(n, e).node == n
    ensures StatesActive(e, a) && StatesConcurrency(e, c) ==> Free(RowOf(n, e)) == if c > a then c - a else 0
  {}

  /** For these nodes the entries state these loads and limits. */
  ghost predicate Stated(t: Table, m: ModelId, active: map<NodeId, nat>, limits: map<NodeId, nat>) {
    && active.Keys == limits.Keys && active.Keys <= Offering(t, m)
    && forall n :: n in active ==> StatesActive(t[n][m], active[n]) && StatesConcurrency(t[n][m], limits[n])
  }

  ghost function Sum(xs: map<NodeId, nat>): nat {
    if xs.Keys == {} then 0 else
      var n :| n in xs.Keys;
      xs[n] + Sum(xs - {n})
  }

  function FreePlaces(active: map<NodeId, nat>, limits: map<NodeId, nat>): map<NodeId, nat>
    requires active.Keys == limits.Keys
  {
    map n | n in active :: if limits[n] > active[n] then limits[n] - active[n] else 0
  }

  lemma {:induction false} SumIsTotal(t: Table, m: ModelId, xs: map<NodeId, nat>, free: bool)
    requires xs.Keys <= Offering(t, m) && forall n :: n in xs ==> xs[n] == Load(t, m, n, free)
    ensures Sum(xs) == Total(t, m, xs.Keys, free)
    decreases |xs|
  {
    if xs.Keys != {} {
      var n :| n in xs.Keys && Sum(xs) == xs[n] + Sum(xs - {n});
      var rest := xs - {n};
      assert rest.Keys == xs.Keys - {n} && |rest| == |xs| - 1;
      SumIsTotal(t, m, rest, free);
      TotalSplit(t, m, xs.Keys, n, free);
    }
  }

  /** The totals of a listed model are the sums of what the entries of its offering nodes state, capped at
      64 bits: all their loads, and all the places their limits leave. */
  ghost predicate TotalsStated(union: map<ModelId, Merged>, t: Table) {
    forall m, active, limits :: m in union && Stated(t, m, active, limits) && active.Keys == Offering(t, m) ==>
      StatedTotals(union[m], active, limits)
  }

  ghost predicate StatedTotals(x: Merged, active: map<NodeId, nat>, limits: map<NodeId, nat>)
    requires active.Keys == limits.Keys
  {
    && x.active == Min(Sum(active), 0xFFFF_FFFF_FFFF_FFFF)
    && ((exists n :: n in limits && limits[n] > 0) ==>
          x.slots == Number(Min(Sum(FreePlaces(active, limits)), 0xFFFF_FFFF_FFFF_FFFF)))
  }

  lemma AgreementIsStated(union: map<ModelId, Merged>, t: Table)
    requires Agrees(union, t)
    ensures TotalsStated(union, t)
  {
    forall m, active, limits | m in union && Stated(t, m, active, limits) && active.Keys == Offering(t, m)
      ensures StatedTotals(union[m], active, limits)
    {
      MergedIsStated(t, m, union[m], active, limits);
    }
  }

  lemma MergedIsStated(t: Table, m: ModelId, x: Merged, active: map<NodeId, nat>, limits: map<NodeId, nat>)
    requires MergedFor(t, m, Offering(t, m), x) && Stated(t, m, active, limits) && active.Keys == Offering(t, m)
    ensures StatedTotals(x, active, limits)
  {
    ActiveIsStated(t, m, active, limits);
    FreeIsStated(t, m, active, limits);
    if n :| n in limits && limits[n] > 0 { LimitIsListed(t, m, x.rows, n, limits[n]); }
  }

  lemma ActiveIsStated(t: Table, m: ModelId, active: map<NodeId, nat>, limits: map<NodeId, nat>)
    requires Stated(t, m, active, limits) && active.Keys == Offering(t, m)
    ensures Sum(active) == Total(t, m, Offering(t, m), false)
  {
    forall n | n in active ensures active[n] == Load(t, m, n, false) {
      RowIsStated(n, t[n][m], active[n], limits[n]);
    }
    SumIsTotal(t, m, active, false);
  }

  lemma FreeIsStated(t: Table, m: ModelId, active: map<NodeId, nat>, limits: map<NodeId, nat>)
    requires Stated(t, m, active, limits) && active.Keys == Offering(t, m)
    ensures Sum(FreePlaces(active, limits)) == Total(t, m, Offering(t, m), true)
  {
    var free := FreePlaces(active, limits);
    forall n | n in free ensures free[n] == Load(t, m, n, true) {
      RowIsStated(n, t[n][m], active[n], limits[n]);
    }
    assert free.Keys == active.Keys;
    SumIsTotal(t, m, free, true);
  }

  lemma LimitIsListed(t: Table, m: ModelId, rows: seq<Row>, n: NodeId, limit: nat)
    requires RowsOf(t, m, Offering(t, m), rows) && n in Offering(t, m)
    requires StatesConcurrency(t[n][m], limit) && limit > 0
    ensures AnyLimit(rows)
  {
    assert n in NodesOf(rows);
    var r :| r in rows && r.node == n;
    var i :| 0 <= i < |rows| && rows[i] == r;
    RowIsStated(n, t[n][m], r.active, limit);
  }

  lemma {:induction false} RowCount(rows: seq<Row>)
    requires DistinctNodes(rows)
    ensures |NodesOf(rows)| == |rows|
  {
    if rows != [] {
      var k := |rows| - 1;
      RowCount(rows[..k]);
      var a, b := NodesOf(rows), NodesOf(rows[..k]);
      forall x ensures x in a <==> x in b + {rows[k].node} {
        if x in b {
          var r :| r in rows[..k] && r.node == x;
          assert r in rows;
        }
        assert rows[k] in rows;
      }
      assert a == b + {rows[k].node};
      forall r | r in rows[..k] ensures r.node != rows[k].node {
        var i :| 0 <= i < k && rows[i] == r;
      }
    } else {
      assert NodesOf(rows) == {};
    }
  }

  lemma OneRow(rows: seq<Row>, n: NodeId)
    requires DistinctNodes(rows) && NodesOf(rows) == {n}
    ensures |rows| == 1 && rows[0].node == n
  {
    RowCount(rows);
    assert rows[0] in rows && rows[0].node in NodesOf(rows);
  }

  /** One provider with a limit: its own load is listed, and the places its limit leaves. */
  lemma OneProvider(t: Table, m: ModelId, n: NodeId, x: Merged, a: u64, alias: Field, c: u64, own: Field)
    requires Offering(t, m) == {n} && MergedFor(t, m, {n}, x)
    requires t[n][m] == WithSparkl(Sparkl(Number(a), alias, Number(c), own))
    requires a < 0x1_0000_0000 && 0 < c < 0x1_0000_0000
    ensures x.active == a && x.slots == Number(if c > a then c - a else 0) && x.rows == [Row(n, a, c)]
  {
    OneRow(x.rows, n);
    TotalSplit(t, m, {n}, n, false);
    TotalSplit(t, m, {n}, n, true);
    assert {n} - {n} == {};
    assert x.rows[0] in x.rows;
  }

  /** One provider without a limit: whatever slots its entry already listed stay listed. */
  lemma OneProviderWithoutLimit(t: Table, m: ModelId, n: NodeId, x: Merged, alias: Field, own: Field)
    requires Offering(t, m) == {n} && MergedFor(t, m, {n}, x)
    requires t[n][m] == WithSparkl(Sparkl(Absent, alias, Absent, own))
    ensures x.slots == own && x.active == (if alias.Number? then alias.n % 0x1_0000_0000 else 0)
  {
    OneRow(x.rows, n);
    TotalSplit(t, m, {n}, n, false);
    assert {n} - {n} == {};
    assert x.rows[0] in x.rows;
  }

  // ------------------------------------------------------------------ the merge loop

  class Merger {
    var merged: map<ModelId, Merged>

    constructor ()
      ensures merged == map[]
    {
      merged := map[];
    }

    /** Merge one entry into the union being built; it panics on the first entry of a model whose sparkl
        field is not an object. */
    method MergeModelEntry(t: Table, m: ModelId, n: NodeId, ghost ns: set<NodeId>) returns (ok: bool)
      requires n in t && m in t[n] && ns <= Offering(t, m) && n !in ns
      requires m in merged ==> Built(t, m, ns, merged[m])
      requires m !in merged ==> ns == {}
      modifies this
      ensures ok <==> m in old(merged) || !t[n][m].BadSparkl?
      ensures !ok ==> merged == old(merged)
      ensures ok ==> m in merged && merged == old(merged)[m := merged[m]] && Built(t, m, ns + {n}, merged[m])
    {
      var entry := t[n][m];
      var row := RowOf(n, entry);
      if m !in merged {
        if entry.BadSparkl? { return false; }
        AppendRow(t, m, ns, [], n);
        assert [] + [row] == [row];
        var active, slots := ApplyAggregatedLoad([row], OwnSlots(entry));
        merged := merged[m := Merged([row], active, slots)];
      } else {
        var existing := merged[m];
        AppendRow(t, m, ns, existing.rows, n);
        KeepsLimit(existing.rows, row);
        var rows := existing.rows + [row];
        var active, slots := ApplyAggregatedLoad(rows, existing.slots);
        merged := merged[m := Merged(rows, active, slots)];
      }
      ok := true;
    }
  }

  lemma KeepsLimit(rows: seq<Row>, row: Row)
    ensures AnyLimit(rows) ==> AnyLimit(rows + [row])
  {
    if AnyLimit(rows) {
      var r :| r in rows && r.concurrency > 0;
      assert r in rows + [row];
    }
  }

  /** The nodes of `done`, and `n` too once the model is among `models`, that offer m. */
  function Seen(t: Table, m: ModelId, done: set<NodeId>, n: NodeId, models: set<ModelId>): set<NodeId> {
    set k | k in t && m in t[k] && (k in done || (k == n && m in models))
  }

  ghost predicate Progress(t: Table, merged: map<ModelId, Merged>, done: set<NodeId>, n: NodeId, models: set<ModelId>) {
    forall m :: (m in merged <==> Seen(t, m, done, n, models) != {})
      && (m in merged ==> Built(t, m, Seen(t, m, done, n, models), merged[m]))
  }

  class ModelsCatalog {
    var byNode: Table
    var union: map<ModelId, Merged>

    constructor ()
      ensures byNode == map[] && union == map[] && Agrees(union, byNode)
    {
      byNode, union := map[], map[];
    }

    /** Recompute the union, taking nodes and models in any order. On a panic the old union stays. */
    method RebuildUnion() returns (ok: bool)
      modifies this`union
      ensures ok ==> Agrees(union, byNode) && TotalsStated(union, byNode)
      ensures !ok ==> union == old(union) && !NoBadEntry(byNode)
    {
      var merger := new Merger();
      var nodes := byNode.Keys;
      while nodes != {}
        invariant nodes <= byNode.Keys && fresh(merger) && union == old(union)
        invariant Progress(byNode, merger.merged, byNode.Keys - nodes, 0, {})
        decreases nodes
      {
        var n :| n in nodes;
        ok := MergeNode(merger, n, byNode.Keys - nodes);
        if !ok { return; }
        assert byNode.Keys - (nodes - {n}) == byNode.Keys - nodes + {n};
        nodes := nodes - {n};
      }
      union := merger.merged;
      assert byNode.Keys - {} == byNode.Keys;
      FinishedMerge(byNode, union);
      AgreementIsStated(union, byNode);
      ok := true;
    }

    method MergeNode(merger: Merger, n: NodeId, ghost done: set<NodeId>) returns (ok: bool)
      requires n in byNode && n !in done && Progress(byNode, merger.merged, done, 0, {})
      modifies merger
      ensures ok ==> Progress(byNode, merger.merged, done + {n}, 0, {})
      ensures !ok ==> !NoBadEntry(byNode)
    {
      var models := byNode[n].Keys;
      ghost var seen: set<ModelId> := {};
      StartNode(byNode, merger.merged, done, n);
      while models != {}
        invariant seen == byNode[n].Keys - models && models <= byNode[n].Keys
        invariant Progress(byNode, merger.merged, done, n, seen)
        decreases models
      {
        var m :| m in models;
        ghost var before, ns := merger.merged, Seen(byNode, m, done, n, seen);
        ok := merger.MergeModelEntry(byNode, m, n, ns);
        if !ok { return; }
        OneMoreModel(byNode, before, merger.merged, done, n, seen, m);
        seen := seen + {m};
        models := models - {m};
      }
      EndNode(byNode, merger.merged, done, n);
      ok := true;
    }

    method UpsertNode(n: NodeId, models: map<ModelId, Entry>) returns (ok: bool)
      modifies this
      ensures byNode == old(byNode)[n := models]
      ensures ok ==> Agrees(union, byNode)
      ensures !ok ==> union == old(union) && !NoBadEntry(byNode)
    {
      byNode := byNode[n := models];
      ok := RebuildUnion();
    }

    method RemoveNode(n: NodeId) returns (ok: bool)
      modifies this
      ensures byNode == old(byNode) - {n}
      ensures n in old(byNode) && ok ==> Agrees(union, byNode)
      ensures n !in old(byNode) ==> ok && byNode == old(byNode) && union == old(union)
      ensures !ok ==> union == old(union) && !NoBadEntry(byNode)
    {
      if n !in byNode {
        assert byNode - {n} == byNode;
        return true;
      }
      byNode := byNode - {n};
      ok := RebuildUnion();
    }
  }

  lemma StartNode(t: Table, merged: map<ModelId, Merged>, done: set<NodeId>, n: NodeId)
    requires Progress(t, merged, done, 0, {})
    ensures Progress(t, merged, done, n, {})
  {
    forall m ensures Seen(t, m, done, n, {}) == Seen(t, m, done, 0, {}) {}
  }

  lemma EndNode(t: Table, merged: map<ModelId, Merged>, done: set<NodeId>, n: NodeId)
    requires n in t && Progress(t, merged, done, n, t[n].Keys)
    ensures Progress(t, merged, done + {n}, 0, {})
  {
    forall m
      ensures (m in merged <==> Seen(t, m, done + {n}, 0, {}) != {})
      ensures m in merged ==> Built(t, m, Seen(t, m, done + {n}, 0, {}), merged[m])
    {
      SeenAll(t, done, n, m);
    }
  }

  lemma SeenAll(t: Table, done: set<NodeId>, n: NodeId, m: ModelId)
    requires n in t
    ensures Seen(t, m, done + {n}, 0, {}) == Seen(t, m, done, n, t[n].Keys)
  {}

  lemma OneMoreModel(t: Table, before: map<ModelId, Merged>, after: map<ModelId, Merged>,
                     done: set<NodeId>, n: NodeId, seen: set<ModelId>, m: ModelId)
    requires n in t && m in t[n] && n !in done && m !in seen && Progress(t, before, done, n, seen)
    requires m in after && after == before[m := after[m]]
    requires Built(t, m, Seen(t, m, done, n, seen) + {n}, after[m])
    ensures Progress(t, after, done, n, seen + {m})
  {
    forall k
      ensures (k in after <==> Seen(t, k, done, n, seen + {m}) != {})
      ensures k in after ==> Built(t, k, Seen(t, k, done, n, seen + {m}), after[k])
    {
      SeenNext(t, done, n, seen, m, k);
      if k != m { assert k in after <==> k in before; }
    }
  }

  lemma SeenNext(t: Table, done: set<NodeId>, n: NodeId, seen: set<ModelId>, m: ModelId, k: ModelId)
    requires n in t && m in t[n]
    ensures Seen(t, k, done, n, seen + {m}) == Seen(t, k, done, n, seen) + (if k == m then {n} else {})
  {}

  lemma FinishedMerge(t: Table, union: map<ModelId, Merged>)
    requires Progress(t, union, t.Keys, 0, {})
    ensures Agrees(union, t)
  {
    forall m ensures m in union <==> m in AllModels(t) {
      assert Seen(t, m, t.Keys, 0, {}) == Offering(t, m);
      if m in union { var n :| n in Offering(t, m); }
      if m in AllModels(t) {
        var n :| n in t && m in t[n];
        assert n in Offering(t, m);
      }
    }
    forall m | m in union ensures MergedFor(t, m, Offering(t, m), union[m]) {
      assert Seen(t, m, t.Keys, 0, {}) == Offering(t, m);
      SumsAreTotals(t, m, Offering(t, m), union[m].rows);
    }
  }
}
