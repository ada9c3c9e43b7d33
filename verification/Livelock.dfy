/** A rolling update without a partition makes progress: the ordinal whose outdated pod
    has been deleted comes back at the update revision.

    Without a partition the code decides by the stored count of current replicas
    which revision a new pod gets, so the point is that this count stays at or below
    the ordinal being updated. */
module Livelock {
  import opened Pods
  import opened Planning
  import opened Reconcile
  import opened StepSafety
  import opened Completion
  import opened Conservation
  import opened History
  import opened Cluster
  import opened Machine
  import Names
  import Slots

  /** A live pod at a revision. */
  predicate LiveAtRevision(p: Pod, revision: string) {
    p.IsCreated() && !p.terminating && p.revision == revision
  }

  /** The rolling update of `w` has a single, stored update revision, and no partition. */
  ghost predicate Rolling(w: World, update: string) {
    && w.spec.strategy.RollingUpdate? && w.spec.rollingUpdate.None? && !w.spec.deleting
    && Keyed(w.store) && update in w.store
    && forall n :: n in w.store ==> (w.store[n].data == w.spec.template <==> n == update)
  }

  /** Every pod still live at the old revision is below `target`. */
  ghost predicate OldBelow(m: PodMap, old_: string, target: nat) {
    forall n :: n in m && LiveAtRevision(m[n], old_) ==> m[n].ordinal < target
  }

  /** A live pod at `target` is at the update revision. */
  ghost predicate TargetUpdated(m: PodMap, target: nat, update: string) {
    forall n :: n in m && m[n].ordinal == target && !m[n].terminating ==> m[n].revision == update
  }

  /** The state a rolling update is in from the deletion at `target` on: either it
      has completed, or the stored count and all old pods are below `target`. */
  ghost predicate Advanced(w: World, old_: string, update: string, target: nat, ord: Numbering) {
    && Rolling(w, update) && Orderly(w.spec.setName, w.pods, ord) && Reads(w.spec.setName, ord)
    && TargetUpdated(w.pods, target, update)
    && (w.status.currentRevision == update
        || (w.status.currentRevision == old_ && old_ in w.store && old_ != update
            && w.status.currentReplicas <= target && OldBelow(w.pods, old_, target)))
  }

  // ------------------------------------------------------------------- counting

  /** Names of ordinals below a bound are no more than the bound. */
  lemma {:induction false} NamesBelow(setName: string, names: set<string>, bound: nat)
    requires forall n :: n in names ==> exists o :: 0 <= o < bound && n == Names.PodName(setName, o)
    ensures |names| <= bound
  {
    if bound == 0 {
      assert names == {};
    } else {
      var top := Names.PodName(setName, bound - 1);
      var rest := names - {top};
      forall n | n in rest
        ensures exists o :: 0 <= o < bound - 1 && n == Names.PodName(setName, o)
      {
        var o :| 0 <= o < bound && n == Names.PodName(setName, o);
      }
      NamesBelow(setName, rest, bound - 1);
      assert names <= rest + {top};
      Slots.SubsetSize(names, rest + {top});
    }
  }

  lemma OldCount(setName: string, m: PodMap, ord: Numbering, old_: string, target: nat)
    requires Orderly(setName, m, ord) && OldBelow(m, old_, target)
    ensures |Counted(LiveAt(old_), m)| <= target
  {
    var names := Counted(LiveAt(old_), m);
    forall n | n in names
      ensures exists o :: 0 <= o < target && n == Names.PodName(setName, o)
    {
      assert 0 <= m[n].ordinal < target;
    }
    NamesBelow(setName, names, target);
  }

  // --------------------------------------------------------------------- a sync

  /** The effect of calls that fit is one of the effects they may have. */
  lemma {:induction false} EffectsPossible(g: Goal, calls: seq<Action>, m: PodMap)
    requires FitAll(g, calls, m)
    ensures MayEffects(calls, m, Effects(calls, m))
    decreases |calls|
  {
    if calls != [] {
      EffectsPossible(g, calls[1..], Effect(calls[0], m));
      assert MayEffect(calls[0], m, Effect(calls[0], m));
    }
  }

  /** Pods a sync leaves behind are orderly again. */
  lemma OrderlyAfter(w: World, r: SyncRecord, w': World, m': PodMap, ord: Numbering)
    requires Step(w, Sync(r), w') && MayEffectsOf(r, w.pods, m')
    requires Orderly(w.spec.setName, w.pods, ord) && Reads(w.spec.setName, ord)
    ensures Orderly(w.spec.setName, m', ord)
  {
    SyncOrigins(r, w.pods, m');
    CreatedAfter(r, w.pods, m');
    forall n | n in m'
      ensures m'[n].ordinal == ord(n) && 0 <= m'[n].ordinal
      ensures n == Names.PodName(w.spec.setName, m'[n].ordinal)
    {
      var q := m'[n];
      if !(q.name in w.pods && Descends(w.pods[q.name], q)) {
        var a :| a in r.calls && a.Create? && Descends(a.pod, q);
        CreationsLicensed(w, r, a);
        NewNotListed(w, r, a, ord);
      }
    }
  }

  ghost predicate MayEffectsOf(r: SyncRecord, m: PodMap, m': PodMap) {
    PodsAfter(r, m, m')
  }

  /** In an orderly cluster every created pod is a new one, at its wanted ordinal. */
  lemma NewNotListed(w: World, r: SyncRecord, a: Action, ord: Numbering)
    requires PodsRan(w.spec, w.status, r) && Lists(r.listing, w.pods) && a in r.calls && a.Create?
    requires Orderly(w.spec.setName, w.pods, ord)
    ensures var g := SyncGoal(w.spec, w.status, r);
            && a.pod == g.NewPod(a.pod.ordinal) && g.Wants(a.pod.ordinal)
            && (PodAt(r.listing, a.pod.ordinal).Some? ==> PodAt(r.listing, a.pod.ordinal).value.IsFailed())
    ensures a.pod.ordinal <= Slots.MAX_INT32
  {
    CreationsLicensed(w, r, a);
    forall p | p in r.listing
      ensures p.IsCreated()
    {
      assert w.pods[p.name] == p;
    }
  }

  lemma {:induction false} AllCreated(calls: seq<Action>, m: PodMap, m': PodMap)
    requires MayEffects(calls, m, m')
    requires forall n :: n in m ==> m[n].IsCreated()
    ensures forall n :: n in m' ==> m'[n].IsCreated()
    decreases |calls|
  {
    if calls != [] {
      var mid :| MayEffect(calls[0], m, mid) && MayEffects(calls[1..], mid, m');
      AllCreated(calls[1..], mid, m');
    }
  }

  lemma CreatedAfter(r: SyncRecord, m: PodMap, m': PodMap)
    requires PodsAfter(r, m, m') && forall n :: n in m ==> m[n].IsCreated()
    ensures forall n :: n in m' ==> m'[n].IsCreated()
  {
    if MayEffects(r.calls, m, m') {
      AllCreated(r.calls, m, m');
    } else {
      AllCreated(r.calls[..|r.calls| - 1], m, m');
    }
  }

  /** The sync of a rolling update resolves to the old and the update revision. */
  lemma RollingRevisions(w: World, r: SyncRecord, update: string)
    requires Rolling(w, update) && Listing(r.revisions, w.store) && r.newName !in w.store
    requires w.status.currentRevision in w.store
    ensures UpdateOf(w.spec, r).name == update
    ensures CurrentOf(w.spec, w.status, r).name == w.status.currentRevision
  {
    CurrentResolved(w, r);
    RevisionReused(r.revisions, w.store, w.spec.template, r.newName);
    RecordedData(r.revisions, w.store, w.spec.template, r.newName);
  }

  lemma RollingAfter(w: World, r: SyncRecord, w': World, update: string)
    requires Rolling(w, update) && Step(w, Sync(r), w') && w.status.currentRevision in w.store
    ensures Rolling(w', update)
    ensures w.status.currentRevision in w'.store
  {
    RollingRevisions(w, r, update);
    StoreAfterSync(w, r, w');
    assert update in KeptNames(w, r) && w.status.currentRevision in KeptNames(w, r);
  }

  /** After a sync old pods are still below the target and a live pod at the target is
      at the update revision. */
  lemma PodsAdvanced(w: World, r: SyncRecord, w': World, m': PodMap,
                     old_: string, update: string, target: nat, ord: Numbering)
    requires Advanced(w, old_, update, target, ord) && Step(w, Sync(r), w')
    requires MayEffectsOf(r, w.pods, m')
    ensures TargetUpdated(m', target, update)
    ensures w.status.currentRevision == old_ != update ==> OldBelow(m', old_, target)
  {
    hide MayEffects, UpdateRevision, CurrentRevision, SyncPlan, PhasePlan, Names.PodName, PodsAfter;
    RollingRevisions(w, r, update);
    SyncOrigins(r, w.pods, m');
    forall n | n in m' && !m'[n].terminating
      ensures m'[n].ordinal == target ==> m'[n].revision == update
      ensures w.status.currentRevision == old_ != update && LiveAtRevision(m'[n], old_)
              ==> m'[n].ordinal < target
    {
      var q := m'[n];
      if q.name in w.pods && Descends(w.pods[q.name], q) {
        assert w.pods[q.name].IsCreated();
      } else {
        var a :| a in r.calls && a.Create? && Descends(a.pod, q);
        NewNotListed(w, r, a, ord);
      }
    }
  }

  /** The status a finished sync stores keeps the count at or below the target. */
  lemma StatusAdvanced(w: World, r: SyncRecord, w': World,
                       old_: string, update: string, target: nat, ord: Numbering)
    requires Rolling(w, update) && w.status.currentRevision == old_ && old_ in w.store && old_ != update
    requires Orderly(w.spec.setName, w.pods, ord) && Reads(w.spec.setName, ord)
    requires Step(w, Sync(r), w') && r.stage.Finished?
    requires forall m' :: MayEffectsOf(r, w.pods, m') ==> OldBelow(m', old_, target)
    ensures w'.status.currentRevision == update
            || (w'.status.currentRevision == old_ && w'.status.currentReplicas <= target)
  {
    var g := SyncGoal(w.spec, w.status, r);
    RollingRevisions(w, r, update);
    SettleNames(g, Observe(g, r.listing), r.calls);
    FinishedCount(w, r);
    OrderlySnapshot(g, r.listing, w.pods, ord);
    SyncFits(g, ord, r.listing, w.pods, r.condemned);
    SyncConserves(g, ord, r.listing, w.pods, r.condemned, r.faults, r.calls);
    EffectsPossible(g, r.calls, w.pods);
    var after := Effects(r.calls, w.pods);
    assert MayEffectsOf(r, w.pods, after);
    OrderlyAfter(w, r, w', after, ord);
    OldCount(w.spec.setName, after, ord, old_, target);
  }

  lemma FinishedCount(w: World, r: SyncRecord)
    requires PodsRan(w.spec, w.status, r) && r.stage.Finished?
    ensures 0 <= ReplicaCount(w.spec)
  {
  }

  lemma AdvancedSync(w: World, r: SyncRecord, w': World,
                     old_: string, update: string, target: nat, ord: Numbering)
    requires Advanced(w, old_, update, target, ord) && Step(w, Sync(r), w')
    ensures Advanced(w', old_, update, target, ord)
  {
    RollingAfter(w, r, w', update);
    OrderlyAfter(w, r, w', w'.pods, ord);
    forall m' | MayEffectsOf(r, w.pods, m')
      ensures TargetUpdated(m', target, update)
      ensures w.status.currentRevision == old_ != update ==> OldBelow(m', old_, target)
    {
      PodsAdvanced(w, r, w', m', old_, update, target, ord);
    }
    assert MayEffectsOf(r, w.pods, w'.pods);
    if r.stage.Finished? {
      if w.status.currentRevision == update {
        RollingRevisions(w, r, update);
        StatusRevisions(w, r, w');
      } else {
        StatusAdvanced(w, r, w', old_, update, target, ord);
      }
    }
  }

  /** Edits of the spec that keep the template and a rolling update without a partition:
      replicas, slots, policy and history limit may change. */
  ghost predicate KeepsRolling(spec: Spec, spec': Spec) {
    spec'.strategy.RollingUpdate? && spec'.rollingUpdate.None? && !spec'.deleting && spec'.template == spec.template
  }

  ghost predicate Steady(ws: seq<World>, es: seq<Event>, i: nat)
    requires i <= |es| <= |ws|
  {
    forall j :: 0 <= j < i && es[j].SpecEdited? ==> KeepsRolling(ws[j].spec, es[j].spec)
  }

  lemma AdvancedStep(w: World, e: Event, w': World,
                     old_: string, update: string, target: nat, ord: Numbering)
    requires Advanced(w, old_, update, target, ord) && Step(w, e, w')
    requires e.SpecEdited? ==> KeepsRolling(w.spec, e.spec)
    ensures Advanced(w', old_, update, target, ord)
  {
    hide MayEffects, UpdateRevision, CurrentRevision, SyncPlan, PhasePlan, Names.PodName, Reads;
    if e.Sync? {
      AdvancedSync(w, e.r, w', old_, update, target, ord);
    }
  }

  /** No livelock: from an advanced state on, in every run whose spec edits keep template
      and strategy, the stored count stays at or below the target until the update completes, and
      whenever a live pod exists at the target it is at the update revision. */
  lemma {:induction false} NoLivelock(ws: seq<World>, es: seq<Event>, i: nat,
                                      old_: string, update: string, target: nat, ord: Numbering)
    requires Run(ws, es) && i < |ws|
    requires Advanced(ws[0], old_, update, target, ord)
    requires Steady(ws, es, i)
    ensures Advanced(ws[i], old_, update, target, ord)
    ensures forall n :: n in ws[i].pods && ws[i].pods[n].ordinal == target && !ws[i].pods[n].terminating
                        ==> ws[i].pods[n].revision == update
    ensures ws[i].status.currentRevision == update || ws[i].status.currentReplicas <= target
  {
    if i > 0 {
      NoLivelock(ws, es, i - 1, old_, update, target, ord);
      AdvancedStep(ws[i - 1], es[i - 1], ws[i], old_, update, target, ord);
    }
  }

  // --------------------------------------------- how an advanced state comes about

  /** A deleted pod is gone or terminating as long as only deletions follow. */
  lemma {:induction false} StaysGone(calls: seq<Action>, m: PodMap, m': PodMap, n: string)
    requires MayEffects(calls, m, m') && forall a :: a in calls ==> !a.Create?
    requires n !in m || m[n].terminating
    ensures n !in m' || m'[n].terminating
    decreases |calls|
  {
    if calls != [] {
      var mid :| MayEffect(calls[0], m, mid) && MayEffects(calls[1..], mid, m');
      StaysGone(calls[1..], mid, m', n);
    }
  }

  predicate Deletes(a: Action) {
    !a.Create? && !a.Update?
  }

  lemma {:induction false} GoneAfter(calls: seq<Action>, m: PodMap, m': PodMap, k: nat)
    requires MayEffects(calls, m, m') && k < |calls| && Deletes(calls[k])
    requires forall j :: k <= j < |calls| ==> !calls[j].Create?
    ensures var n := calls[k].pod.name; n !in m' || m'[n].terminating
    decreases |calls|
  {
    var mid :| MayEffect(calls[0], m, mid) && MayEffects(calls[1..], mid, m');
    if k == 0 {
      StaysGone(calls[1..], mid, m', calls[0].pod.name);
    } else {
      GoneAfter(calls[1..], mid, m', k - 1);
    }
  }

  lemma {:induction false} ScaleDownAll(g: Goal, condemned: seq<Pod>, first: Option<Pod>, n: nat, i: nat)
    requires !g.ordered && i < n <= |condemned| && !condemned[i].terminating
    ensures DeleteCondemned(condemned[i]) in ScaleDownPlan(g, condemned, first, n).actions
  {
    if i < n - 1 {
      ScaleDownAll(g, condemned, first, n - 1, i);
    }
  }

  /** A parallel sync that comes to an update deletion has deleted all condemned pods. */
  lemma CondemnedAllDeleted(g: Goal, pods: seq<Pod>, condemned: seq<Pod>, k: nat, p: Pod)
    requires CondemnedOrder(g, pods, condemned) && !g.ordered
    requires k < |PhasePlan(g, pods, condemned).actions|
    requires PhasePlan(g, pods, condemned).actions[k].DeleteOutdated?
    requires p in pods && g.Condemns(p.ordinal) && !p.terminating
    ensures DeleteCondemned(p) in PhasePlan(g, pods, condemned).actions
  {
    var reps := Replicas(g, pods);
    var first := FirstUnhealthy(Present(reps) + condemned);
    var middle := ScaleDownPlan(g, condemned, first, |condemned|);
    CondemnedMember(g, pods, condemned, p);
    var i :| 0 <= i < |condemned| && condemned[i] == p;
    ScaleDownAll(g, condemned, first, |condemned|, i);
    ReplicaPhaseEnd(g, reps, 0);
    PlanShape(g, pods, condemned);
    MiddleIncluded(ReplicaPlan(g, reps, 0), middle, UpdatePlan(g, Recreated(g, reps)), DeleteCondemned(p));
  }

  /** A sync that comes to an update deletion makes all calls of its plan, even if this last
      one reports an error. */
  lemma PlanComplete(w: World, r: SyncRecord, k: nat)
    requires PodsRan(w.spec, w.status, r) && k < |r.calls| && r.calls[k].DeleteOutdated?
    ensures r.calls == PhasePlan(SyncGoal(w.spec, w.status, r), r.listing, r.condemned).actions
  {
    hide SyncGoal, SyncPlan, PhasePlan, CondemnedOrder;
    var g := SyncGoal(w.spec, w.status, r);
    CallsWithin(g, r.listing, r.condemned, r.faults, r.calls, r.outcome);
    OutdatedIsLast(g, r.listing, r.condemned, k);
  }

  /** Every deletion of a condemned or an outdated pod takes lasting effect. */
  lemma DeletionLasts(w: World, r: SyncRecord, m': PodMap, k: nat, a: Action)
    requires PodsRan(w.spec, w.status, r) && MayEffects(r.calls, w.pods, m')
    requires k < |r.calls| && r.calls[k].DeleteOutdated?
    requires a in r.calls && (a.DeleteCondemned? || a.DeleteOutdated?)
    ensures a.pod.name !in m' || m'[a.pod.name].terminating
  {
    var g := SyncGoal(w.spec, w.status, r);
    PlanComplete(w, r, k);
    var head, tail := PlanParts(g, r.listing, r.condemned);
    var i := DeletionIndex(r.calls, head, tail, a);
    GoneAfter(r.calls, w.pods, m', i);
  }

  /** Nothing is created after the first deletion of a condemned or outdated pod. */
  lemma DeletionIndex(calls: seq<Action>, head: seq<Action>, tail: seq<Action>, a: Action) returns (k: nat)
    requires calls == head + tail && a in calls && (a.DeleteCondemned? || a.DeleteOutdated?)
    requires forall b :: b in head ==> !b.DeleteCondemned? && !b.DeleteOutdated?
    requires forall b :: b in tail ==> b.DeleteCondemned? || b.DeleteOutdated?
    ensures k < |calls| && calls[k] == a && forall j :: k <= j < |calls| ==> !calls[j].Create?
  {
    k :| 0 <= k < |calls| && calls[k] == a;
    assert forall j :: 0 <= j < |head| ==> calls[j] == head[j] && head[j] in head;
    forall j | |head| <= j < |calls|
      ensures !calls[j].Create?
    {
      assert calls[j] == tail[j - |head|] && tail[j - |head|] in tail;
    }
    assert |head| <= k by {
      assert forall j :: 0 <= j < |head| ==> !calls[j].DeleteCondemned? && !calls[j].DeleteOutdated?;
    }
  }

  /** What is left of the old revision after an update deletion at `victim`. */
  lemma OldBelowVictim(w: World, r: SyncRecord, w': World, m': PodMap, victim: Pod,
                       old_: string, update: string, ord: Numbering)
    requires Rolling(w, update) && w.status.currentRevision == old_ && old_ in w.store && old_ != update
    requires Orderly(w.spec.setName, w.pods, ord)
    requires Step(w, Sync(r), w') && DeleteOutdated(victim) in r.calls && MayEffects(r.calls, w.pods, m')
    ensures 0 <= victim.ordinal
    ensures OldBelow(m', old_, victim.ordinal) && TargetUpdated(m', victim.ordinal, update)
  {
    hide MayEffects, UpdateRevision, CurrentRevision, SyncPlan, PhasePlan, CondemnedOrder, Names.PodName, Orderly;
    var k :| 0 <= k < |r.calls| && r.calls[k] == DeleteOutdated(victim);
    RollingRevisions(w, r, update);
    SyncOrigins(r, w.pods, m');
    VictimWanted(w, r, victim);
    forall n | n in m' && !m'[n].terminating
      ensures m'[n].ordinal == victim.ordinal ==> m'[n].revision == update
      ensures LiveAtRevision(m'[n], old_) ==> m'[n].ordinal < victim.ordinal
    {
      var q := m'[n];
      if q.name in w.pods && Descends(w.pods[q.name], q) {
        ListedAfterDeletion(w, r, m', k, q.name, ord);
      } else {
        var a :| a in r.calls && a.Create? && Descends(a.pod, q);
        CreatedBelow(w, r, m', k, a, q, ord);
      }
    }
  }

  lemma VictimWanted(w: World, r: SyncRecord, victim: Pod)
    requires PodsRan(w.spec, w.status, r) && DeleteOutdated(victim) in r.calls
    ensures 0 <= victim.ordinal
  {
    hide SyncGoal;
    CreationsLicensed(w, r, DeleteOutdated(victim));
  }

  /** A pod created by a sync with an update deletion and still live is below the victim:
      above it every wanted pod was healthy, and one at the victim's ordinal was deleted. */
  lemma CreatedBelow(w: World, r: SyncRecord, m': PodMap, k: nat, a: Action, q: Pod, ord: Numbering)
    requires Orderly(w.spec.setName, w.pods, ord)
    requires PodsRan(w.spec, w.status, r) && Lists(r.listing, w.pods)
    requires MayEffects(r.calls, w.pods, m')
    requires k < |r.calls| && r.calls[k].DeleteOutdated?
    requires a in r.calls && a.Create? && Descends(a.pod, q) && q.name in m' && m'[q.name] == q && !q.terminating
    ensures q.ordinal < r.calls[k].pod.ordinal
  {
    hide MayEffects, SyncPlan, PhasePlan, CondemnedOrder, Names.PodName;
    var g := SyncGoal(w.spec, w.status, r);
    RollingStepSafety(g, r.listing, r.condemned, r.faults, r.calls, r.outcome);
    NewNotListed(w, r, a, ord);
    VictimName(w, r, r.calls[k].pod, ord);
    DeletionLasts(w, r, m', k, r.calls[k]);
    hide SyncGoal;
    assert a.pod.ordinal != r.calls[k].pod.ordinal;
    FailedNotHealthy(r.listing, a.pod.ordinal);
  }

  lemma FailedNotHealthy(pods: seq<Pod>, ordinal: int)
    requires PodAt(pods, ordinal).Some? ==> PodAt(pods, ordinal).value.IsFailed()
    ensures !HealthyAt(pods, ordinal)
  {
  }

  /** The deleted pod has the generated name of its ordinal. */
  lemma VictimName(w: World, r: SyncRecord, victim: Pod, ord: Numbering)
    requires Orderly(w.spec.setName, w.pods, ord)
    requires PodsRan(w.spec, w.status, r) && Lists(r.listing, w.pods) && DeleteOutdated(victim) in r.calls
    ensures victim.name == Names.PodName(w.spec.setName, victim.ordinal)
  {
    CreationsLicensed(w, r, DeleteOutdated(victim));
    assert victim in r.listing ==> victim.name in w.pods && w.pods[victim.name] == victim;
  }

  lemma NotAtVictim(w: World, r: SyncRecord, m': PodMap, k: nat, n: string, ord: Numbering)
    requires Orderly(w.spec.setName, w.pods, ord)
    requires PodsRan(w.spec, w.status, r) && Lists(r.listing, w.pods)
    requires MayEffects(r.calls, w.pods, m')
    requires k < |r.calls| && r.calls[k].DeleteOutdated?
    requires n in w.pods && n in m' && !m'[n].terminating
    ensures w.pods[n].ordinal != r.calls[k].pod.ordinal
  {
    VictimName(w, r, r.calls[k].pod, ord);
    DeletionLasts(w, r, m', k, r.calls[k]);
  }

  /** A listed pod that is still live after an update deletion. */
  lemma ListedAfterDeletion(w: World, r: SyncRecord, m': PodMap, k: nat, n: string, ord: Numbering)
    requires Orderly(w.spec.setName, w.pods, ord)
    requires PodsRan(w.spec, w.status, r) && Lists(r.listing, w.pods)
    requires MayEffects(r.calls, w.pods, m')
    requires k < |r.calls| && r.calls[k].DeleteOutdated?
    requires n in w.pods && n in m' && !m'[n].terminating && !w.pods[n].terminating
    ensures var t := r.calls[k].pod.ordinal;
            w.pods[n].ordinal < t
            || (t < w.pods[n].ordinal && w.pods[n].revision == UpdateOf(w.spec, r).name)
  {
    NotAtVictim(w, r, m', k, n, ord);
    var p := w.pods[n];
    assert p in r.listing && p.name == n;
    if SyncGoal(w.spec, w.status, r).Condemns(p.ordinal) {
      CondemnedGone(w, r, m', k, p);
    } else if r.calls[k].pod.ordinal < p.ordinal {
      AboveVictim(w, r, k, p, ord);
    }
  }

  lemma AboveVictim(w: World, r: SyncRecord, k: nat, p: Pod, ord: Numbering)
    requires Orderly(w.spec.setName, w.pods, ord) && Lists(r.listing, w.pods) && p in r.listing
    requires PodsRan(w.spec, w.status, r)
    requires k < |r.calls| && r.calls[k].DeleteOutdated?
    requires r.calls[k].pod.ordinal < p.ordinal && SyncGoal(w.spec, w.status, r).Wants(p.ordinal)
    ensures p.revision == SyncGoal(w.spec, w.status, r).update
  {
    var g := SyncGoal(w.spec, w.status, r);
    RollingStepSafety(g, r.listing, r.condemned, r.faults, r.calls, r.outcome);
    OnlyPodAt(w, r.listing, p, ord);
    assert HealthyAt(r.listing, p.ordinal);
  }

  lemma OnlyPodAt(w: World, listing: seq<Pod>, p: Pod, ord: Numbering)
    requires Orderly(w.spec.setName, w.pods, ord) && Lists(listing, w.pods) && p in listing
    ensures PodAt(listing, p.ordinal) == Some(p)
  {
    var top := PodAt(listing, p.ordinal).value;
    assert top.name in w.pods && w.pods[top.name] == top;
    assert w.pods[p.name] == p;
  }

  lemma CondemnedGone(w: World, r: SyncRecord, m': PodMap, k: nat, p: Pod)
    requires PodsRan(w.spec, w.status, r) && MayEffects(r.calls, w.pods, m')
    requires k < |r.calls| && r.calls[k].DeleteOutdated?
    requires p in r.listing && !p.terminating && SyncGoal(w.spec, w.status, r).Condemns(p.ordinal)
    ensures p.name !in m' || m'[p.name].terminating
  {
    var g := SyncGoal(w.spec, w.status, r);
    RollingStepSafety(g, r.listing, r.condemned, r.faults, r.calls, r.outcome);
    PlanComplete(w, r, k);
    if !g.ordered {
      CondemnedAllDeleted(g, r.listing, r.condemned, k, p);
      DeletionLasts(w, r, m', k, DeleteCondemned(p));
    }
  }

  /** After an update deletion that took effect, whatever its reply, the state is advanced
      exactly when the sync's status is stored or the stored count was low enough before. */
  lemma DeletionAdvances(w: World, r: SyncRecord, w': World, victim: Pod,
                         old_: string, update: string, ord: Numbering)
    requires Rolling(w, update) && w.status.currentRevision == old_ && old_ in w.store && old_ != update
    requires Orderly(w.spec.setName, w.pods, ord) && Reads(w.spec.setName, ord)
    requires Step(w, Sync(r), w') && DeleteOutdated(victim) in r.calls && MayEffects(r.calls, w.pods, w'.pods)
    ensures 0 <= victim.ordinal
    ensures Advanced(w', old_, update, victim.ordinal, ord)
            <==> r.stage.Finished? || w.status.currentReplicas <= victim.ordinal
  {
    forall m' | MayEffects(r.calls, w.pods, m')
      ensures 0 <= victim.ordinal
      ensures OldBelow(m', old_, victim.ordinal) && TargetUpdated(m', victim.ordinal, update)
    {
      OldBelowVictim(w, r, w', m', victim, old_, update, ord);
    }
    RollingAfter(w, r, w', update);
    OrderlyAfter(w, r, w', w'.pods, ord);
    if r.stage.Finished? {
      StatusAdvanced(w, r, w', old_, update, victim.ordinal, ord);
    } else {
      StoredUnfinished(w, r, w', old_, update);
    }
  }

  /** A sync that makes calls but does not store its status leaves the old one, and the
      old revision stored. */
  lemma StoredUnfinished(w: World, r: SyncRecord, w': World, old_: string, update: string)
    requires Rolling(w, update) && w.status.currentRevision == old_ && old_ in w.store && old_ != update
    requires Step(w, Sync(r), w') && !r.stage.Finished?
    ensures w'.status == w.status && old_ in w'.store
  {
    hide UpdateRevision;
  }
}
