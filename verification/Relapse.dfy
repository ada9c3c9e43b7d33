/** When the pod deleted for an update without a partition may come back at the old
    revision: exactly when the sync that deleted it did not get its status stored and the
    stored count was above the pod's ordinal. */
module Relapse {
  import opened Pods
  import opened Planning
  import opened Reconcile
  import opened StepSafety
  import opened Conservation
  import opened History
  import opened Cluster
  import opened Machine
  import opened Livelock
  import Names
  import Slots

  /** A sync creates a pod at this ordinal and revision. */
  ghost predicate CreatesAt(r: SyncRecord, ordinal: int, revision: string) {
    exists p :: Create(p) in r.calls && p.ordinal == ordinal && p.revision == revision
  }

  /** Some run from `w`, with steady edits of the spec only, creates such a pod. */
  ghost predicate ComesBack(w: World, ordinal: int, revision: string) {
    exists ws: seq<World>, es: seq<Event>, i: nat :: ComesBackIn(w, ws, es, i, ordinal, revision)
  }

  ghost predicate ComesBackIn(w: World, ws: seq<World>, es: seq<Event>, i: nat, ordinal: int, revision: string) {
    && Run(ws, es) && ws[0] == w && i < |es| && Steady(ws, es, i)
    && es[i].Sync? && CreatesAt(es[i].r, ordinal, revision)
  }

  // ------------------------------------------------------------ it cannot come back

  /** A sync of an advanced state creates no pod at the old revision. */
  lemma AdvancedCreatesNew(w: World, r: SyncRecord, w': World,
                           old_: string, update: string, target: nat, ord: Numbering)
    requires Advanced(w, old_, update, target, ord) && Step(w, Sync(r), w') && old_ != update
    ensures !CreatesAt(r, target, old_)
  {
    hide MayEffects, UpdateRevision, CurrentRevision, SyncPlan, PhasePlan, Names.PodName;
    RollingRevisions(w, r, update);
    forall p | Create(p) in r.calls && p.ordinal == target
      ensures p.revision == update
    {
      NewNotListed(w, r, Create(p), ord);
    }
  }

  lemma AdvancedStays(w: World, old_: string, update: string, target: nat, ord: Numbering)
    requires Advanced(w, old_, update, target, ord) && old_ != update
    ensures !ComesBack(w, target, old_)
  {
    forall ws: seq<World>, es: seq<Event>, i: nat
      ensures !ComesBackIn(w, ws, es, i, target, old_)
    {
      if Run(ws, es) && ws[0] == w && i < |es| && Steady(ws, es, i) && es[i].Sync? {
        NoLivelock(ws, es, i, old_, update, target, ord);
        AdvancedCreatesNew(ws[i], es[i].r, ws[i + 1], old_, update, target, ord);
      }
    }
  }

  // ------------------------------------------------- inputs of a sync always exist

  lemma ListPods(m: PodMap) returns (pods: seq<Pod>)
    requires KeyedPods(m)
    ensures Lists(pods, m)
    decreases |m|
  {
    pods := [];
    if m != map[] {
      var n :| n in m;
      var rest := m - {n};
      var front := ListPods(rest);
      pods := front + [m[n]];
      forall p | p in front
        ensures p.name in m && p.name != n && m[p.name] == p
      {
        assert rest[p.name] == p;
      }
      forall k | k in m
        ensures m[k] in pods
      {
        if k != n {
          assert rest[k] in front;
        } else {
          assert pods[|front|] == m[n];
        }
      }
    }
  }

  lemma InsertRevision(revisions: seq<Revision>, r: Revision) returns (out: seq<Revision>)
    requires Sorted(revisions)
    ensures Sorted(out) && forall x :: x in out <==> x in revisions || x == r
  {
    if revisions == [] || revisions[|revisions| - 1].number <= r.number {
      out := revisions + [r];
    } else {
      var front, last := revisions[..|revisions| - 1], revisions[|revisions| - 1];
      var rest := InsertRevision(front, r);
      out := rest + [last];
      assert revisions == front + [last];
      forall i | 0 <= i < |rest|
        ensures rest[i].number <= last.number
      {
        assert rest[i] in rest;
        if rest[i] in front {
          var j :| 0 <= j < |front| && front[j] == rest[i];
          assert revisions[j].number <= last.number;
        }
      }
    }
  }

  lemma ListStore(store: Store) returns (revisions: seq<Revision>)
    requires Keyed(store)
    ensures Listing(revisions, store)
    decreases |store|
  {
    revisions := [];
    if store != map[] {
      var n :| n in store;
      var less := store - {n};
      var rest := ListStore(less);
      revisions := InsertRevision(rest, store[n]);
      forall r | r in rest
        ensures r.name in store && store[r.name] == r
      {
        assert less[r.name] == r;
      }
      forall k | k in store
        ensures store[k] in revisions
      {
        if k != n {
          assert less[k] in rest;
        }
      }
    }
  }

  lemma LongName(names: set<string>) returns (long: string)
    ensures forall n :: n in names ==> |n| < |long|
    decreases |names|
  {
    long := "x";
    if names != {} {
      var n :| n in names;
      var rest := LongName(names - {n});
      long := rest + n + "x";
    }
  }

  lemma InsertPod(sorted: seq<Pod>, p: Pod) returns (out: seq<Pod>)
    requires Planning.Ascending(sorted)
    ensures Planning.Ascending(out) && multiset(out) == multiset(sorted) + multiset{p}
  {
    hide Planning.Ascending;
    var i := |sorted|;
    while 0 < i && p.ordinal < sorted[i - 1].ordinal
      invariant 0 <= i <= |sorted|
      invariant forall j :: i <= j < |sorted| ==> p.ordinal < sorted[j].ordinal
    {
      i := i - 1;
    }
    SplitKeepsOrder(sorted, p, i);
    InsertKeepsOrder(sorted[..i], p, sorted[i..]);
    InsertKeepsPods(sorted[..i], p, sorted[i..]);
    assert sorted == sorted[..i] + sorted[i..];
    out := sorted[..i] + [p] + sorted[i..];
  }

  lemma SortPods(pods: seq<Pod>) returns (sorted: seq<Pod>)
    ensures Planning.Ascending(sorted) && multiset(sorted) == multiset(pods)
  {
    sorted := [];
    if pods != [] {
      var front, p := pods[..|pods| - 1], pods[|pods| - 1];
      assert pods == front + [p];
      var rest := SortPods(front);
      sorted := InsertPod(rest, p);
    }
  }

  // ------------------------------------------------------------- it can come back

  /** Every wanted ordinal below `t` has a healthy pod. */
  ghost predicate HealthyBelow(g: Goal, m: PodMap, t: nat) {
    forall j :: 0 <= j < t && g.Wants(j) ==> exists n :: n in m && m[n].ordinal == j && m[n].IsHealthy()
  }

  lemma HealthyListed(g: Goal, m: PodMap, pods: seq<Pod>, ord: Numbering, t: nat)
    requires Orderly(g.setName, m, ord) && Lists(pods, m) && HealthyBelow(g, m, t)
    ensures HealthyBetween(g, pods, 0, t)
  {
    forall j | 0 <= j < t && g.Wants(j)
      ensures HealthyAt(pods, j)
    {
      var n :| n in m && m[n].ordinal == j && m[n].IsHealthy();
      assert m[n] in pods;
      var top := PodAt(pods, j).value;
      assert top.name in m && m[top.name] == top;
    }
  }

  /** What a fault-free sync leaves when its deletions are graceful. */
  ghost function AfterSync(w: World, r: SyncRecord): World {
    var g := SyncGoal(w.spec, w.status, r);
    World(w.spec, Written(w.spec.strategy, w.status, Settle(g, Observe(g, r.listing), r.calls)),
          Effects(r.calls, w.pods),
          Record(w.store, UpdateOf(w.spec, r)) - DoomedNames(w.spec, w.status, r, |r.revisions|))
  }

  lemma AfterSyncSteps(w: World, r: SyncRecord)
    requires r.stage == Finished(|r.revisions|) && r.outcome.Returned?
    requires Listing(r.revisions, w.store) && r.newName !in w.store && Lists(r.listing, w.pods)
    requires PodsRan(w.spec, w.status, r) && MayEffects(r.calls, w.pods, Effects(r.calls, w.pods))
    ensures Step(w, Sync(r), AfterSync(w, r))
  {
    hide PodsRan, Settle, Observe, Written, Effects, MayEffects, Listing, Lists, DoomedNames, UpdateRevision;
    assert PodsAfter(r, w.pods, AfterSync(w, r).pods);
  }

  /** A fault-free sync of a world in which ordinal `t` is wanted, free and below the
      stored count recreates it at the old revision. */
  lemma OldCreated(w: World, t: nat, old_: string, update: string, ord: Numbering)
    returns (r: SyncRecord, w': World)
    requires Rolling(w, update) && w.status.currentRevision == old_ && old_ in w.store && old_ != update
    requires KeyedPods(w.pods) && Orderly(w.spec.setName, w.pods, ord) && Reads(w.spec.setName, ord)
    requires t < w.status.currentReplicas && forall n :: n in w.pods ==> w.pods[n].ordinal != t
    requires var g := GoalOf(w.spec, w.status, old_, update);
             g.Wants(t) && (g.ordered ==> HealthyBelow(g, w.pods, t))
    ensures Step(w, Sync(r), w') && CreatesAt(r, t, old_)
  {
    var g := GoalOf(w.spec, w.status, old_, update);
    assert g.replicaCount <= Slots.MAX_INT32 && g.NewPod(t).revision == old_;
    hide GoalOf, AfterSync, HealthyBelow, Effects, MayEffects, Names.PodName, SyncPlan, PhasePlan, CondemnedOrder;
    hide Orderly, Reads, Lists, FitAll, Step, UpdateRevision, CurrentRevision;
    var revisions := ListStore(w.store);
    var newName := LongName(w.store.Keys);
    var pods, condemned := PlannedOld(g, w.pods, t, ord);
    var actions := SyncPlan(g, pods, condemned).actions;
    r := SyncRecord(revisions, newName, pods, condemned, {}, actions, Planning.Returned, Finished(|revisions|));
    GoalResolved(w, r, old_, update);
    AfterSyncSteps(w, r);
    w' := AfterSync(w, r);
    assert Create(g.NewPod(t)) in r.calls;
  }

  /** A listing of the pods from which a sync creates the missing pod at `t`. */
  lemma PlannedOld(g: Goal, m: PodMap, t: nat, ord: Numbering) returns (pods: seq<Pod>, condemned: seq<Pod>)
    requires KeyedPods(m) && Orderly(g.setName, m, ord) && Reads(g.setName, ord)
    requires 0 <= g.replicaCount <= Slots.MAX_INT32 && g.rollingUpdate.None? && !g.deleting
    requires g.Wants(t) && (g.ordered ==> HealthyBelow(g, m, t)) && forall n :: n in m ==> m[n].ordinal != t
    ensures Lists(pods, m) && CondemnedOrder(g, pods, condemned)
    ensures !SyncPlan(g, pods, condemned).ending.Panic?
    ensures var actions := SyncPlan(g, pods, condemned).actions;
            Create(g.NewPod(t)) in actions && MayEffects(actions, m, Effects(actions, m))
  {
    hide HealthyBelow, Effects, MayEffects, Names.PodName, SyncPlan, PhasePlan, CondemnedOrder;
    hide Orderly, Reads, Lists, FitAll, Snapshot;
    pods := ListPods(m);
    condemned := SortPods(CondemnedPods(g, pods));
    OrderedSo(g, pods, condemned);
    ListedFree(pods, m, t);
    PlanForOld(g, pods, condemned, m, t, ord);
    OrderlySnapshot(g, pods, m, ord);
    SyncFits(g, ord, pods, m, condemned);
    EffectsPossible(g, SyncPlan(g, pods, condemned).actions, m);
  }

  lemma OrderedSo(g: Goal, pods: seq<Pod>, condemned: seq<Pod>)
    requires Planning.Ascending(condemned) && multiset(condemned) == multiset(CondemnedPods(g, pods))
    ensures CondemnedOrder(g, pods, condemned)
  {
  }

  lemma ListedFree(pods: seq<Pod>, m: PodMap, t: nat)
    requires Lists(pods, m) && forall n :: n in m ==> m[n].ordinal != t
    ensures forall p :: p in pods ==> p.ordinal != t
  {
  }

  lemma GoalResolved(w: World, r: SyncRecord, old_: string, update: string)
    requires Rolling(w, update) && w.status.currentRevision == old_ && old_ in w.store
    requires Listing(r.revisions, w.store) && r.newName !in w.store
    ensures SyncGoal(w.spec, w.status, r) == GoalOf(w.spec, w.status, old_, update)
  {
    hide UpdateRevision, CurrentRevision;
    RollingRevisions(w, r, update);
  }

  lemma PlanForOld(g: Goal, pods: seq<Pod>, condemned: seq<Pod>, m: PodMap, t: nat, ord: Numbering)
    requires Orderly(g.setName, m, ord) && Lists(pods, m) && CondemnedOrder(g, pods, condemned)
    requires g.replicaCount <= Slots.MAX_INT32 && g.rollingUpdate.None? && !g.deleting
    requires g.Wants(t) && (g.ordered ==> HealthyBelow(g, m, t))
    requires forall p :: p in pods ==> p.ordinal != t
    ensures !SyncPlan(g, pods, condemned).ending.Panic?
    ensures Create(g.NewPod(t)) in SyncPlan(g, pods, condemned).actions
  {
    hide CondemnedOrder, PhasePlan, HealthyBelow;
    assert PodAt(pods, t).None?;
    assert !HealthyAt(pods, t);
    CrashExactly(g, pods, condemned);
    if g.ordered {
      HealthyListed(g, m, pods, ord, t);
    }
    MissingCreated(g, pods, condemned, t);
  }

  /** In an ordered set the deletion leaves the wanted pods below the victim healthy. */
  lemma {:induction false} HealthyKept(calls: seq<Action>, m: PodMap, m': PodMap, victim: string, n: string)
    requires MayEffects(calls, m, m') && n != victim && n in m
    requires forall a :: a in calls ==> a.Update? || (a.DeleteOutdated? && a.pod.name == victim)
    ensures n in m' && m'[n].ordinal == m[n].ordinal && (m[n].IsHealthy() ==> m'[n].IsHealthy())
    decreases |calls|
  {
    if calls != [] {
      var mid :| MayEffect(calls[0], m, mid) && MayEffects(calls[1..], mid, m');
      HealthyKept(calls[1..], mid, m', victim, n);
    }
  }

  lemma OrderedLeavesHealthy(w: World, r: SyncRecord, w': World, victim: Pod, ord: Numbering)
    requires Step(w, Sync(r), w') && DeleteOutdated(victim) in r.calls && MayEffects(r.calls, w.pods, w'.pods)
    requires SyncGoal(w.spec, w.status, r).ordered && 0 <= victim.ordinal
    ensures HealthyBelow(SyncGoal(w.spec, w.status, r), w'.pods - {victim.name}, victim.ordinal)
  {
    hide MayEffects, SyncPlan, PhasePlan, CondemnedOrder, SyncGoal;
    var g := SyncGoal(w.spec, w.status, r);
    var k :| 0 <= k < |r.calls| && r.calls[k] == DeleteOutdated(victim);
    RollingStepSafety(g, r.listing, r.condemned, r.faults, r.calls, r.outcome);
    OnlyVictimDeleted(w, r, victim);
    forall j | 0 <= j < victim.ordinal && g.Wants(j)
      ensures exists n :: n in w'.pods - {victim.name}
                          && (w'.pods - {victim.name})[n].ordinal == j && (w'.pods - {victim.name})[n].IsHealthy()
    {
      assert HealthyAt(r.listing, j);
      var p := PodAt(r.listing, j).value;
      assert w.pods[p.name] == p;
      VictimListed(w, r, victim, p);
      HealthyKept(r.calls, w.pods, w'.pods, victim.name, p.name);
      assert p.name in w'.pods - {victim.name};
    }
  }

  /** Besides updates, an ordered sync with an update deletion makes no other call. */
  lemma OnlyVictimDeleted(w: World, r: SyncRecord, victim: Pod)
    requires PodsRan(w.spec, w.status, r) && DeleteOutdated(victim) in r.calls
    requires SyncGoal(w.spec, w.status, r).ordered
    ensures forall a :: a in r.calls ==> a.Update? || a == DeleteOutdated(victim)
  {
    hide SyncPlan, PhasePlan, CondemnedOrder, SyncGoal, HealthySome, HealthyBetween;
    var g := SyncGoal(w.spec, w.status, r);
    var k :| 0 <= k < |r.calls| && r.calls[k] == DeleteOutdated(victim);
    PlanComplete(w, r, k);
    PhaseWants(g, r.listing, r.condemned);
    OutdatedIsLast(g, r.listing, r.condemned, k);
    OrderedTail(g, r.listing, r.condemned, PhasePlan(g, r.listing, r.condemned));
  }

  lemma PhaseWants(g: Goal, pods: seq<Pod>, condemned: seq<Pod>)
    requires PhasePlan(g, pods, condemned).actions != []
    ensures 0 <= g.replicaCount
  {
  }

  /** A listed pod at another ordinal is not the victim. */
  lemma VictimListed(w: World, r: SyncRecord, victim: Pod, p: Pod)
    requires PodsRan(w.spec, w.status, r) && Lists(r.listing, w.pods) && DeleteOutdated(victim) in r.calls
    requires SyncGoal(w.spec, w.status, r).ordered
    requires p in r.listing && p.ordinal < victim.ordinal
    ensures p.name != victim.name
  {
    hide SyncGoal;
    CreationsLicensed(w, r, DeleteOutdated(victim));
    OnlyVictimDeleted(w, r, victim);
    VictimWasListed(w, r, victim);
    assert w.pods[p.name] == p;
  }

  lemma VictimWasListed(w: World, r: SyncRecord, victim: Pod)
    requires PodsRan(w.spec, w.status, r) && DeleteOutdated(victim) in r.calls
    requires forall a :: a in r.calls ==> a.Update? || a == DeleteOutdated(victim)
    ensures victim in r.listing
  {
    var g := SyncGoal(w.spec, w.status, r);
    hide SyncGoal, SyncPlan, PhasePlan, CondemnedOrder;
    var k :| 0 <= k < |r.calls| && r.calls[k] == DeleteOutdated(victim);
    PlanComplete(w, r, k);
    CreationsLicensed(w, r, DeleteOutdated(victim));
    var head, tail := PlanParts(g, r.listing, r.condemned);
    assert forall a :: a in head ==> a in head + tail;
    assert DeleteOutdated(victim) in head + tail;
    assert DeleteOutdated(victim) in tail;
    assert Create(victim) !in r.calls;
  }

  /** The run that brings the old revision back: the deleted pod goes, and the next sync
      builds its successor. */
  lemma OldComesBack(w: World, r: SyncRecord, w': World, victim: Pod, old_: string, update: string, ord: Numbering)
    requires Rolling(w, update) && w.status.currentRevision == old_ && old_ in w.store && old_ != update
    requires Orderly(w.spec.setName, w.pods, ord) && Reads(w.spec.setName, ord)
    requires Step(w, Sync(r), w') && DeleteOutdated(victim) in r.calls && MayEffects(r.calls, w.pods, w'.pods)
    requires !r.stage.Finished? && 0 <= victim.ordinal < w.status.currentReplicas
    ensures ComesBack(w', victim.ordinal, old_)
  {
    hide MayEffects, SyncPlan, PhasePlan, UpdateRevision, CurrentRevision, Reads, HealthyBelow, Names.PodName;
    hide Step, Orderly, ReplicaCount, Lists;
    var gone := w'.(pods := w'.pods - {victim.name});
    ReadyToRelapse(w, r, w', victim, old_, update, ord);
    var next, last := OldCreated(gone, victim.ordinal, old_, update, ord);
    RunOfTwo(w', victim.name, gone, next, last);
    var ws, es := [w', gone, last], [PodRemoved(victim.name), Sync(next)];
    assert es[1] == Sync(next);
    assert ComesBackIn(w', ws, es, 1, victim.ordinal, old_);
  }

  lemma RunOfTwo(w: World, name: string, gone: World, r: SyncRecord, last: World)
    requires gone == w.(pods := w.pods - {name}) && Step(gone, Sync(r), last)
    ensures Run([w, gone, last], [PodRemoved(name), Sync(r)])
  {
    var ws, es := [w, gone, last], [PodRemoved(name), Sync(r)];
    assert Step(ws[0], es[0], ws[1]) && Step(ws[1], es[1], ws[2]);
  }

  /** Once the deleted pod is gone, its ordinal is wanted, free and below the stored
      count. */
  lemma ReadyToRelapse(w: World, r: SyncRecord, w': World, victim: Pod, old_: string, update: string, ord: Numbering)
    requires Rolling(w, update) && w.status.currentRevision == old_ && old_ in w.store && old_ != update
    requires Orderly(w.spec.setName, w.pods, ord) && Reads(w.spec.setName, ord)
    requires Step(w, Sync(r), w') && DeleteOutdated(victim) in r.calls && MayEffects(r.calls, w.pods, w'.pods)
    requires !r.stage.Finished? && 0 <= victim.ordinal < w.status.currentReplicas
    ensures Rolling(w', update) && w'.status == w.status && w'.spec == w.spec && old_ in w'.store
    ensures var m := w'.pods - {victim.name};
            var g := GoalOf(w'.spec, w'.status, old_, update);
            && KeyedPods(m) && Orderly(w'.spec.setName, m, ord)
            && (forall n :: n in m ==> m[n].ordinal != victim.ordinal)
            && g.Wants(victim.ordinal) && (g.ordered ==> HealthyBelow(g, m, victim.ordinal))
  {
    hide MayEffects, SyncPlan, PhasePlan, UpdateRevision, CurrentRevision, Reads, HealthyBelow, Names.PodName;
    hide Orderly, ReplicaCount, Lists, KeyedPods;
    RollingAfter(w, r, w', update);
    StoredUnfinished(w, r, w', old_, update);
    OrderlyAfter(w, r, w', w'.pods, ord);
    OrderlyKeyed(w.spec.setName, w.pods, ord);
    OrderlyWithout(w.spec.setName, w'.pods, victim, ord) by {
      VictimName(w, r, victim, ord);
    }
    WantsVictim(w, r, victim);
    GoalResolved(w, r, old_, update);
    if SyncGoal(w.spec, w.status, r).ordered {
      OrderedLeavesHealthy(w, r, w', victim, ord);
    }
  }

  lemma OrderlyKeyed(setName: string, m: PodMap, ord: Numbering)
    requires Orderly(setName, m, ord)
    ensures KeyedPods(m)
  {
  }

  /** Without the pod named after an ordinal, no pod has it. */
  lemma OrderlyWithout(setName: string, m: PodMap, p: Pod, ord: Numbering)
    requires Orderly(setName, m, ord) && p.name == Names.PodName(setName, p.ordinal)
    ensures var rest := m - {p.name};
            Orderly(setName, rest, ord) && KeyedPods(rest) && forall n :: n in rest ==> rest[n].ordinal != p.ordinal
  {
    hide Names.PodName;
  }

  lemma WantsVictim(w: World, r: SyncRecord, victim: Pod)
    requires PodsRan(w.spec, w.status, r) && DeleteOutdated(victim) in r.calls
    ensures SyncGoal(w.spec, w.status, r).Wants(victim.ordinal)
  {
    hide SyncGoal;
    CreationsLicensed(w, r, DeleteOutdated(victim));
  }

  /** Whether the pod deleted for the update, in a call that may have reported an error, can
      come back at the old revision in some run is decided by the sync that deleted it: it
      can if and only if its status was not stored and the stored count is above the pod's
      ordinal. */
  lemma ComesBackExactly(w: World, r: SyncRecord, w': World, victim: Pod, old_: string, update: string, ord: Numbering)
    requires Rolling(w, update) && w.status.currentRevision == old_ && old_ in w.store && old_ != update
    requires Orderly(w.spec.setName, w.pods, ord) && Reads(w.spec.setName, ord)
    requires Step(w, Sync(r), w') && DeleteOutdated(victim) in r.calls && MayEffects(r.calls, w.pods, w'.pods)
    ensures ComesBack(w', victim.ordinal, old_)
            <==> !r.stage.Finished? && victim.ordinal < w.status.currentReplicas
  {
    hide Rolling, Step, Advanced, ComesBack, Orderly, Reads;
    DeletionAdvances(w, r, w', victim, old_, update, ord);
    if !r.stage.Finished? && victim.ordinal < w.status.currentReplicas {
      OldComesBack(w, r, w', victim, old_, update, ord);
    } else {
      AdvancedStays(w', old_, update, victim.ordinal, ord);
    }
  }
}
