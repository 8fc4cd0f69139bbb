/** Concurrent catalog updates. Mutators change the per-node table under its write lock and then rebuild
    the union under its read lock; many rebuilds may run at once. */
module CatalogMachine {
  import opened Catalog

  type TaskId = nat

  datatype Pc =
    | Inserting(n: NodeId, models: map<ModelId, Entry>)
    | Removing(n: NodeId)
    | Wanting                                  // has changed the table, waits for the read lock
    | Reading(seen: Table)                     // holds the read lock, merging the table as it was when locked
    | Written                                  // union written, read lock still held
    | Done

  /** `written`: the table whose merge the union is. `panicked`: since the table last changed, or
      the union was last written, a rebuild has died on a malformed entry. */
  datatype State =
    State(byNode: Table, union: map<ModelId, Merged>, tasks: map<TaskId, Pc>, written: Table, panicked: bool)

  const INITIAL := State(map[], map[], map[], map[], false)

  datatype Event =
    | StartUpsert(t: TaskId, n: NodeId, models: map<ModelId, Entry>)
    | StartRemove(t: TaskId, n: NodeId)
    | Mutate(t: TaskId)
    | Lock(t: TaskId)
    | Write(t: TaskId, merge: map<ModelId, Merged>)
    | Unlock(t: TaskId)
    | Panic(t: TaskId)

  predicate HoldsReadLock(pc: Pc) {
    pc.Reading? || pc.Written?
  }

  predicate NoReader(s: State) {
    forall t | t in s.tasks :: !HoldsReadLock(s.tasks[t])
  }

  ghost predicate MergeOf(seen: Table, merge: map<ModelId, Merged>) {
    Progress(seen, merge, seen.Keys, 0, {})
  }

  /** A rebuild merges the table it saw when it took its read lock, in some iteration order; nothing here
      says that this is still the table when it writes. */
  ghost predicate Enabled(s: State, e: Event) {
    match e
    case StartUpsert(t, _, _) => t !in s.tasks
    case StartRemove(t, _) => t !in s.tasks
    case Mutate(t) => t in s.tasks && (s.tasks[t].Inserting? || s.tasks[t].Removing?) && NoReader(s)
    case Lock(t) => t in s.tasks && s.tasks[t].Wanting?
    case Write(t, merge) => t in s.tasks && s.tasks[t].Reading? && MergeOf(s.tasks[t].seen, merge)
    case Unlock(t) => t in s.tasks && s.tasks[t].Written?
    case Panic(t) => t in s.tasks && s.tasks[t].Reading? && !NoBadEntry(s.tasks[t].seen)
  }

  ghost function Next(s: State, e: Event): State
    requires Enabled(s, e)
  {
    match e
    case StartUpsert(t, n, models) => s.(tasks := s.tasks[t := Inserting(n, models)])
    case StartRemove(t, n) => s.(tasks := s.tasks[t := Removing(n)])
    case Mutate(t) =>
      if s.tasks[t].Inserting? then
        s.(byNode := s.byNode[s.tasks[t].n := s.tasks[t].models], tasks := s.tasks[t := Wanting], panicked := false)
      else if s.tasks[t].n in s.byNode then
        s.(byNode := s.byNode - {s.tasks[t].n}, tasks := s.tasks[t := Wanting], panicked := false)
      else s.(tasks := s.tasks[t := Done])
    case Lock(t) => s.(tasks := s.tasks[t := Reading(s.byNode)])
    case Write(t, merge) =>
      s.(union := merge, tasks := s.tasks[t := Written], written := s.tasks[t].seen, panicked := false)
    case Unlock(t) => s.(tasks := s.tasks[t := Done])
    case Panic(t) => s.(tasks := s.tasks[t := Done], panicked := true)
  }

  /** An upsert changes the table of its node to what it brought, a removal takes its node out, and neither
      touches another node. */
  lemma MutationsTakeEffect(s: State, t: TaskId, n: NodeId, models: map<ModelId, Entry>)
    requires t !in s.tasks && NoReader(s)
    ensures var s1 := Next(s, StartUpsert(t, n, models));
      Enabled(s1, Mutate(t)) && Next(s1, Mutate(t)).byNode == s.byNode[n := models]
    ensures var s1 := Next(s, StartRemove(t, n));
      Enabled(s1, Mutate(t)) && Next(s1, Mutate(t)).byNode == s.byNode - {n}
  {
    var s1 := Next(s, StartRemove(t, n));
    if n !in s.byNode { assert s.byNode - {n} == s.byNode; }
    assert NoReader(s1) && NoReader(Next(s, StartUpsert(t, n, models)));
  }

  /** Rebuilds share the read lock: two that want it can hold it at once, and both see the table as it is. */
  lemma RebuildsOverlap(s: State, t: TaskId, u: TaskId)
    requires t != u && t in s.tasks && s.tasks[t].Wanting? && u in s.tasks && s.tasks[u].Wanting?
    ensures Enabled(s, Lock(t)) && Enabled(Next(s, Lock(t)), Lock(u))
    ensures var s2 := Next(Next(s, Lock(t)), Lock(u));
      s2.tasks[t] == Reading(s.byNode) && s2.tasks[u] == Reading(s.byNode) && s2.byNode == s.byNode
  {}

  /** A rebuild that has written lets the lock go and is done. */
  lemma WritersFinish(s: State, t: TaskId)
    requires t in s.tasks && s.tasks[t].Written?
    ensures Enabled(s, Unlock(t)) && Next(s, Unlock(t)) == s.(tasks := s.tasks[t := Done])
  {}

  ghost predicate IsRun(s: State, es: seq<Event>, s': State)
    decreases |es|
  {
    if es == [] then s == s' else Enabled(s, es[0]) && IsRun(Next(s, es[0]), es[1..], s')
  }

  ghost predicate Reachable(s: State) {
    exists es :: IsRun(INITIAL, es, s)
  }

  /** Some mutator has changed the table and has not yet written its rebuild. */
  predicate RebuildDue(s: State) {
    exists t | t in s.tasks :: s.tasks[t].Wanting? || s.tasks[t].Reading?
  }

  /** Whoever holds the read lock and has not written has seen the table as it is. */
  ghost predicate ReadersUpToDate(s: State) {
    forall t :: t in s.tasks && s.tasks[t].Reading? ==> s.tasks[t].seen == s.byNode
  }

  /** The union is that of the table as last written; and the table has changed since only if a rebuild is
      still to come, or one has died. The read lock keeps the table still: readers are up to date, and a
      write whose lock is still held is too. */
  ghost predicate Inv(s: State) {
    && Agrees(s.union, s.written) && ReadersUpToDate(s)
    && (s.byNode == s.written || RebuildDue(s) || s.panicked)
    && ((exists t | t in s.tasks :: s.tasks[t].Written?) ==> s.byNode == s.written)
  }

  /** Every write of the union is the merge of the table at that moment: what the rebuild saw when it took
      its lock is still there. */
  lemma WriteAgrees(s: State, t: TaskId, merge: map<ModelId, Merged>)
    requires Inv(s) && Enabled(s, Write(t, merge))
    ensures var s' := Next(s, Write(t, merge));
      s.tasks[t].seen == s.byNode == s'.byNode == s'.written && Agrees(s'.union, s'.byNode)
  {
    FinishedMerge(s.byNode, merge);
  }

  lemma StepKeepsInv(s: State, e: Event)
    requires Inv(s) && Enabled(s, e)
    ensures Inv(Next(s, e))
  {
    var s' := Next(s, e);
    match e {
      case Write(t, merge) => WriteAgrees(s, t, merge);
      case Panic(t) =>
        assert forall k :: k in s'.tasks && s'.tasks[k].Written? ==> k in s.tasks && s.tasks[k].Written?;
      case Mutate(t) =>
        if s'.tasks[t].Wanting? {
          assert RebuildDue(s');
        } else {
          DueOnlyElsewhere(s, s', t);
        }
        assert forall k :: k in s'.tasks && s'.tasks[k].Written? ==> k in s.tasks && HoldsReadLock(s.tasks[k]);
      case Lock(t) =>
        assert s'.tasks[t].Reading?;
        assert forall k :: k in s'.tasks && s'.tasks[k].Written? ==> k in s.tasks && s.tasks[k].Written?;
      case _ =>
        DueOnlyElsewhere(s, s', e.t);
        assert forall k :: k in s'.tasks && s'.tasks[k].Written? ==> k in s.tasks && s.tasks[k].Written?;
    }
  }

  lemma DueOnlyElsewhere(s: State, s': State, t: TaskId)
    requires t in s'.tasks && s'.tasks == s.tasks[t := s'.tasks[t]]
    requires t in s.tasks ==> !s.tasks[t].Wanting? && !s.tasks[t].Reading?
    ensures RebuildDue(s) ==> RebuildDue(s')
  {
    if RebuildDue(s) {
      var k :| k in s.tasks && (s.tasks[k].Wanting? || s.tasks[k].Reading?);
      assert k in s'.tasks && s'.tasks[k] == s.tasks[k];
    }
  }

  lemma {:induction false} RunKeepsInv(s: State, es: seq<Event>, s': State)
    requires Inv(s) && IsRun(s, es, s')
    ensures Inv(s')
    decreases |es|
  {
    if es != [] {
      StepKeepsInv(s, es[0]);
      RunKeepsInv(Next(s, es[0]), es[1..], s');
    }
  }

  lemma ReachableInv(s: State)
    requires Reachable(s)
    ensures Inv(s)
  {
    var es :| IsRun(INITIAL, es, s);
    assert Agrees(INITIAL.union, INITIAL.written);
    RunKeepsInv(INITIAL, es, s);
  }

  /** Whenever the table is as it was last written, a model is listed exactly when some node offers it,
      with one row per offering node and the totals of these nodes. So it is when no rebuild is due,
      unless one has died since the table last changed. */
  lemma CatalogAgreement(s: State, m: ModelId)
    requires Reachable(s) && (s.byNode == s.written || (!RebuildDue(s) && !s.panicked))
    ensures m in s.union <==> exists n :: n in s.byNode && m in s.byNode[n]
    ensures m in s.union ==> MergedFor(s.byNode, m, Offering(s.byNode, m), s.union[m])
    ensures m in s.union ==> |s.union[m].rows| == |Offering(s.byNode, m)|
  {
    ReachableInv(s);
    if m in s.union {
      assert m in AllModels(s.byNode);
      RowCount(s.union[m].rows);
    }
    if n :| n in s.byNode && m in s.byNode[n] {
      assert m in AllModels(s.byNode);
    }
  }

  /** Once reached, agreement lasts until the table changes, whatever else happens, panics included. */
  lemma {:induction false} AgreementLasts(s: State, es: seq<Event>, s': State)
    requires Inv(s) && Agrees(s.union, s.byNode) && IsRun(s, es, s') && forall e :: e in es ==> !e.Mutate?
    ensures Agrees(s'.union, s'.byNode)
    decreases |es|
  {
    if es != [] {
      assert es[0] in es && forall e :: e in es[1..] ==> e in es;
      StepKeepsInv(s, es[0]);
      if es[0].Write? { WriteAgrees(s, es[0].t, es[0].merge); }
      AgreementLasts(Next(s, es[0]), es[1..], s');
    }
  }

  // ------------------------------------------------------------------ panics

  /** No entry in the table, or on its way there, is malformed. */
  ghost predicate Healthy(s: State) {
    && NoBadEntry(s.byNode) && !s.panicked && ReadersUpToDate(s)
    && forall t :: t in s.tasks && s.tasks[t].Inserting? ==> WellFormed(s.tasks[t].models)
  }

  predicate WellFormed(models: map<ModelId, Entry>) {
    forall m | m in models :: !models[m].BadSparkl?
  }

  lemma HealthyStep(s: State, e: Event)
    requires Healthy(s) && Enabled(s, e) && (e.StartUpsert? ==> WellFormed(e.models))
    ensures Healthy(Next(s, e)) && !e.Panic?
  {}

  /** Without malformed entries nothing panics: a run in which no upsert brings one stays healthy. */
  lemma {:induction false} HealthyRun(s: State, es: seq<Event>, s': State)
    requires Healthy(s) && IsRun(s, es, s') && forall e :: e in es && e.StartUpsert? ==> WellFormed(e.models)
    ensures Healthy(s') && forall e :: e in es ==> !e.Panic?
    decreases |es|
  {
    if es != [] {
      assert es[0] in es && forall e :: e in es[1..] ==> e in es;
      HealthyStep(s, es[0]);
      HealthyRun(Next(s, es[0]), es[1..], s');
      assert forall e :: e in es ==> e == es[0] || e in es[1..];
    }
  }

  /** A node brings a malformed entry and its rebuild dies: everything is at rest, and a model the node
      offers is not listed. */
  lemma OneBadEntryIsEnough(n: NodeId, models: map<ModelId, Entry>) returns (es: seq<Event>, s: State)
    requires !WellFormed(models)
    ensures IsRun(INITIAL, es, s) && es == [StartUpsert(0, n, models), Mutate(0), Lock(0), Panic(0)]
    ensures !RebuildDue(s) && !Agrees(s.union, s.byNode)
  {
    es := [StartUpsert(0, n, models), Mutate(0), Lock(0), Panic(0)];
    var s1 := Next(INITIAL, es[0]);
    var s2 := Next(s1, Mutate(0));
    var s3 := Next(s2, Lock(0));
    var m :| m in models && models[m].BadSparkl?;
    assert n in s3.byNode && m in s3.byNode[n] && s3.byNode[n][m].BadSparkl?;
    s := Next(s3, Panic(0));
    assert es[1..] == [Mutate(0), Lock(0), Panic(0)] && es[1..][1..] == [Lock(0), Panic(0)];
    assert [Lock(0), Panic(0)][1..] == [Panic(0)] && [Panic(0)][1..] == [];
    assert IsRun(s3, [Panic(0)], s) && IsRun(s2, [Lock(0), Panic(0)], s);
    assert IsRun(s1, es[1..], s);
    assert m in AllModels(s.byNode);
  }

  /** With upserts of this class only, the union agrees with the table whenever no rebuild is due. */
  ghost predicate AgreesAtRest(upserts: iset<map<ModelId, Entry>>) {
    forall es, s :: IsRun(INITIAL, es, s) && Brings(es, upserts) && !RebuildDue(s) ==> Agrees(s.union, s.byNode)
  }

  ghost predicate Brings(es: seq<Event>, upserts: iset<map<ModelId, Entry>>) {
    forall e :: e in es && e.StartUpsert? ==> e.models in upserts
  }

  /** The exact condition: a class of upserts is safe exactly when it brings no malformed entry. */
  lemma AgreementExactly(upserts: iset<map<ModelId, Entry>>)
    ensures AgreesAtRest(upserts) <==> forall models :: models in upserts ==> WellFormed(models)
  {
    if forall models :: models in upserts ==> WellFormed(models) {
      forall es, s | IsRun(INITIAL, es, s) && Brings(es, upserts) && !RebuildDue(s)
        ensures Agrees(s.union, s.byNode)
      {
        HealthyRun(INITIAL, es, s);
        ReachableInv(s);
      }
    } else {
      var models :| models in upserts && !WellFormed(models);
      var es, s := OneBadEntryIsEnough(0, models);
      assert Brings(es, upserts);
    }
  }

  /** A rebuild finishes only if every offered model has a well-formed entry at some provider; while one
      model has none, the union cannot change. */
  lemma WritesNeedGoodProviders(s: State, m: ModelId, t: TaskId, merge: map<ModelId, Merged>)
    requires Inv(s) && Enabled(s, Write(t, merge)) && Offering(s.byNode, m) != {}
    ensures exists n :: n in Offering(s.byNode, m) && !s.byNode[n][m].BadSparkl?
  {
    FinishedMerge(s.byNode, merge);
    var n :| n in Offering(s.byNode, m);
    assert m in s.byNode[n] && m in AllModels(s.byNode);
    assert MergedFor(s.byNode, m, Offering(s.byNode, m), merge[m]);
    assert merge[m].rows[0].node in Offering(s.byNode, m);
  }
}
