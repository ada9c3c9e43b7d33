/** What a whole sync makes of the set's spec: which ordinals it works towards, what it does
    to the pods outside them, and how much history it keeps. */
module Specs {
  import opened Pods
  import opened Planning
  import opened Reconcile
  import opened StepSafety
  import opened Conservation
  import opened Demands
  import opened History
  import opened Cluster
  import opened Machine
  import Names
  import Slots

  /** The bound on the wanted ordinals fits an int32. */
  predicate Fits32(spec: Spec) {
    Slots.MaxCount(spec.replicas, spec.deleteSlots) <= Slots.MAX_INT32
  }

  /** The ordinals the spec asks for. */
  function Ordinals(spec: Spec): set<int> {
    Slots.PodOrdinals(spec.replicas, spec.deleteSlots)
  }

  /** A sync's goal wants exactly the ordinals that the replicas and the delete slots ask
      for, condemns the other natural ones, and takes the rest from spec and status. */
  lemma GoalOrdinals(spec: Spec, stored: Status, current: string, update: string)
    requires Fits32(spec)
    ensures var g := GoalOf(spec, stored, current, update);
            && (forall i :: g.Wants(i) <==> i in Ordinals(spec))
            && (forall i :: 0 <= i ==> (g.Condemns(i) <==> i !in Ordinals(spec)))
            && (forall i :: i < 0 ==> (g.Condemns(i) <==> i in spec.deleteSlots))
            && g.strategy == spec.strategy && g.rollingUpdate == spec.rollingUpdate && g.ordered == spec.ordered
            && g.deleting == spec.deleting && g.setName == spec.setName && g.generation == spec.generation
            && g.current == current && g.update == update
            && g.currentReplicas == stored.currentReplicas && g.collisionCount == stored.collisionCount
  {
    CountNonNegative(spec.replicas, spec.deleteSlots);
    hide Slots.MaxCount;
  }

  /** Without a bound that fits, a sync that gets to its pods panics before any call. */
  lemma WrappedCountPanics(spec: Spec, stored: Status, r: SyncRecord)
    requires !Fits32(spec) && PodsRan(spec, stored, r)
    ensures r.calls == [] && !r.stage.Finished?
    ensures r.stage.PodsOnly? ==> r.outcome.Crashed?
  {
    hide Slots.MaxCount, CondemnedOrder;
    if r.stage.PodsOnly? || r.stage.Finished? {
      var g := SyncGoal(spec, stored, r);
      assert g.replicaCount < 0;
      assert SyncPlan(g, r.listing, r.condemned) == Plan([], Panic);
    }
  }

  /** What a sync may call, in terms of the spec: it creates pods at the ordinals asked for
      and scales down pods at others, and a set that is being deleted is left alone. */
  lemma SyncWithinSpec(spec: Spec, stored: Status, r: SyncRecord, a: Action)
    requires Fits32(spec) && PodsRan(spec, stored, r) && a in r.calls
    ensures !spec.deleting
    ensures a.DeleteCondemned? ==> a.pod in r.listing && a.pod.ordinal !in Ordinals(spec)
    ensures !a.DeleteCondemned? ==> a.pod.ordinal in Ordinals(spec)
    ensures a.Create? && a.pod !in r.listing ==> a.pod.name == Names.PodName(spec.setName, a.pod.ordinal)
    ensures a.DeleteOutdated? ==> !spec.strategy.OnDelete? && a.pod.revision != UpdateOf(spec, r).name
    ensures a.DeleteOutdated? && spec.rollingUpdate.Some? && spec.rollingUpdate.value.Some?
            ==> spec.rollingUpdate.value.value <= a.pod.ordinal
  {
    var g := SyncGoal(spec, stored, r);
    GoalOrdinals(spec, stored, CurrentOf(spec, stored, r).name, UpdateOf(spec, r).name);
    assert a in SyncPlan(g, r.listing, r.condemned).actions;
    assert !g.deleting by {
      PlanWithin(g, r.listing, r.condemned);
      assert g.deleting ==> PhasePlan(g, r.listing, r.condemned).actions == [];
    }
    hide SyncGoal, Slots.MaxCount, CondemnedOrder, SyncPlan, PhasePlan, Names.PodName, UpdateRevision;
    CallsLicensed(g, r.listing, r.condemned, a);
  }

  /** What a sync of a parallel set that returns has called: it has created a pod at every
      ordinal asked for that had none or a failed one, deleted every live pod at a natural
      ordinal not asked for, and repaired every other pod that needed it. */
  lemma ParallelSyncDoes(spec: Spec, stored: Status, r: SyncRecord)
    requires Fits32(spec) && PodsRan(spec, stored, r) && !spec.ordered && !spec.deleting
    requires (r.stage.PodsOnly? || r.stage.Finished?) && r.outcome.Returned?
    ensures forall i :: i in Ordinals(spec) && (forall p :: p in r.listing ==> p.ordinal != i)
                        ==> exists a :: a in r.calls && a.Create? && a.pod.ordinal == i
    ensures forall p :: p in r.listing && 0 <= p.ordinal && p.ordinal !in Ordinals(spec) && !p.terminating
                        ==> DeleteCondemned(p) in r.calls
    ensures forall i :: i in Ordinals(spec) && PodAt(r.listing, i).Some? ==>
              var p := PodAt(r.listing, i).value;
              && (p.phase == Failed ==> DeleteFailed(p) in r.calls && exists a :: a in r.calls && a.Create? && a.pod.ordinal == i)
              && (p.phase != Failed && p.phase != NoPhase && !p.conforms ==> Update(p) in r.calls)
  {
    var g := SyncGoal(spec, stored, r);
    GoalOrdinals(spec, stored, CurrentOf(spec, stored, r).name, UpdateOf(spec, r).name);
    CallsWithin(g, r.listing, r.condemned, r.faults, r.calls, r.outcome);
    hide SyncGoal, Slots.MaxCount, CondemnedOrder, SyncPlan, PhasePlan, Names.PodName;
    forall i | i in Ordinals(spec)
      ensures PodAt(r.listing, i).None? ==> Create(g.NewPod(i)) in r.calls
      ensures PodAt(r.listing, i).Some? ==>
                var p := PodAt(r.listing, i).value;
                && (p.phase == Failed ==> DeleteFailed(p) in r.calls && Create(g.NewPod(i)) in r.calls)
                && (p.phase != Failed && p.phase != NoPhase && !p.conforms ==> Update(p) in r.calls)
    {
      ParallelAt(g, r.listing, r.condemned, i);
    }
    forall i | i in Ordinals(spec) && Create(g.NewPod(i)) in r.calls
      ensures exists a :: a in r.calls && a.Create? && a.pod.ordinal == i
    {
      assert Create(g.NewPod(i)).pod.ordinal == i;
    }
    forall p | p in r.listing && 0 <= p.ordinal && p.ordinal !in Ordinals(spec) && !p.terminating
      ensures DeleteCondemned(p) in r.calls
    {
      CondemnedExactly(g, r.listing, r.condemned, p);
    }
  }

  lemma ParallelAt(g: Goal, pods: seq<Pod>, condemned: seq<Pod>, i: int)
    requires !g.deleting && !g.ordered && !PhasePlan(g, pods, condemned).ending.Panic? && g.Wants(i)
    ensures var actions := PhasePlan(g, pods, condemned).actions;
            match PodAt(pods, i)
            case None => Create(g.NewPod(i)) in actions
            case Some(p) =>
              && (p.phase == Failed ==> DeleteFailed(p) in actions && Create(g.NewPod(i)) in actions)
              && (p.phase != Failed && p.phase != NoPhase && !p.conforms ==> Update(p) in actions)
  {
    hide PhasePlan, Names.PodName;
    CreatedExactly(g, pods, condemned, g.NewPod(i));
    if PodAt(pods, i).Some? {
      var p := PodAt(pods, i).value;
      RepairedExactly(g, pods, condemned, p);
      AskedFor(g, pods, condemned, DeleteFailed(p));
      assert p.phase == Failed ==> Asked(g, pods, i, DeleteFailed(p));
    }
  }

  // ---------------------------------------------------------------------- history

  /** The stored revisions that neither the sync nor a listed pod uses. */
  function Unused(store: Store, pods: seq<Pod>, current: string, update: string): set<string> {
    set n | n in store && n != current && n != update && forall p | p in pods :: p.revision != n
  }

  /** A sync whose truncation comes to its end leaves at most as many unused revisions as the
      spec's history limit, deletes unused ones only, none newer than one it keeps, and
      none at all if the listing is within the limit. */
  lemma SyncTruncates(spec: Spec, stored: Status, store: Store, r: SyncRecord, stored': Status, store': Store)
    requires Ran(spec, stored, store, r, stored', store') && r.stage.Finished?
    requires |DoomedOf(spec, stored, r)| <= r.stage.deleted
    ensures var current, update := CurrentOf(spec, stored, r).name, UpdateOf(spec, r).name;
            && |Unused(store', r.listing, current, update)| <= spec.historyLimit
            && (forall n :: n in store && n !in store' ==> n in Unused(store, r.listing, current, update))
            && (forall n, k :: n in store && n !in store' && k in Unused(store', r.listing, current, update)
                               ==> k in store && store[n].number <= store[k].number)
            && (|r.revisions| <= spec.historyLimit ==> store.Keys <= store'.Keys)
  {
    var update := UpdateOf(spec, r);
    var current := CurrentOf(spec, stored, r).name;
    var doomed := DoomedOf(spec, stored, r);
    assert doomed[..|doomed|] == doomed;
    assert store' == Record(store, update) - RevisionNames(doomed);
    hide UpdateRevision, CurrentRevision, Doomed, Listing, Unused, LiveNames;
    Truncated(store, r.revisions, r.listing, current, update, spec.historyLimit);
  }

  lemma Truncated(store: Store, revisions: seq<Revision>, pods: seq<Pod>, current: string, update: Revision, limit: nat)
    requires Listing(revisions, store)
    ensures var doomed := Doomed(revisions, LiveNames(pods, current, update.name), limit);
            var after := Record(store, update) - RevisionNames(doomed);
            && |Unused(after, pods, current, update.name)| <= limit
            && (forall n :: n in store && n !in after ==> n in Unused(store, pods, current, update.name))
            && (forall n, k :: n in store && n !in after && k in Unused(after, pods, current, update.name)
                               ==> k in store && store[n].number <= store[k].number)
            && (|revisions| <= limit ==> store.Keys <= after.Keys)
  {
    var live := LiveNames(pods, current, update.name);
    var nonLive, doomed := NonLive(revisions, live), Doomed(revisions, live, limit);
    var after := Record(store, update) - RevisionNames(doomed);
    TruncationExact(revisions, live, limit);
    UnusedNames(store, revisions, pods, current, update.name);
    UnusedAfter(store, pods, current, update, RevisionNames(doomed));
    assert forall d :: d in doomed ==> d in nonLive && d in revisions && store[d.name] == d;
    assert |revisions| <= limit ==> doomed == [];
    hide NonLive, Doomed, LiveNames, Unused, Sorted;
    forall n, k | n in store && n !in after && k in Unused(after, pods, current, update.name)
      ensures k in store && store[n].number <= store[k].number
    {
      var d :| d in doomed && d.name == n;
      var e :| e in nonLive && e.name == k;
    }
  }

  lemma UnusedAfter(store: Store, pods: seq<Pod>, current: string, update: Revision, gone: set<string>)
    ensures Unused(Record(store, update) - gone, pods, current, update.name)
            == Unused(store, pods, current, update.name) - gone
  {
  }

  /** The unused revisions are the non-live ones of a complete listing. */
  lemma UnusedNames(store: Store, revisions: seq<Revision>, pods: seq<Pod>, current: string, update: string)
    requires Listing(revisions, store)
    ensures RevisionNames(NonLive(revisions, LiveNames(pods, current, update))) == Unused(store, pods, current, update)
  {
    var live := LiveNames(pods, current, update);
    forall n
      ensures n in RevisionNames(NonLive(revisions, live)) <==> n in Unused(store, pods, current, update)
    {
      if n in store {
        assert store[n] in revisions;
      }
    }
  }
}
