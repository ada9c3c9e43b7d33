/** When a rolling update is declared complete, it is. */
module Completion {
  import opened Pods
  import opened Planning
  import opened Reconcile
  import opened StepSafety

  // ------------------------------------------------- the counters, as totals

  function Creations(calls: seq<Action>): nat {
    if calls == [] then 0
    else Creations(calls[..|calls| - 1]) + if calls[|calls| - 1].Create? then 1 else 0
  }

  function FailedDeletions(calls: seq<Action>): nat {
    if calls == [] then 0
    else FailedDeletions(calls[..|calls| - 1]) + if calls[|calls| - 1].DeleteFailed? then 1 else 0
  }

  /** What the calls add to the count of pods at a revision. */
  function Gain(revision: string, calls: seq<Action>): int {
    if calls == [] then 0
    else
      var a := calls[|calls| - 1];
      Gain(revision, calls[..|calls| - 1])
      + if a.pod.revision != revision then 0
        else if a.Create? then 1
        else if a.DeleteFailed? || a.DeleteCondemned? then -1
        else 0
  }

  lemma {:induction false} SettleTotals(g: Goal, s: Status, calls: seq<Action>)
    ensures Settle(g, s, calls).replicas == s.replicas + Creations(calls) - FailedDeletions(calls)
    ensures Settle(g, s, calls).readyReplicas == s.readyReplicas
    ensures Settle(g, s, calls).updatedReplicas == s.updatedReplicas + Gain(g.update, calls)
    ensures Settle(g, s, calls).currentRevision == s.currentRevision
    ensures Settle(g, s, calls).updateRevision == s.updateRevision
  {
    if calls != [] {
      SettleTotals(g, s, calls[..|calls| - 1]);
    }
  }

  lemma {:induction false} TotalsConcat(revision: string, a: seq<Action>, b: seq<Action>)
    ensures Creations(a + b) == Creations(a) + Creations(b)
    ensures FailedDeletions(a + b) == FailedDeletions(a) + FailedDeletions(b)
    ensures Gain(revision, a + b) == Gain(revision, a) + Gain(revision, b)
  {
    if b == [] {
      assert a + b == a;
    } else {
      assert (a + b)[..|a + b| - 1] == a + b[..|b| - 1];
      TotalsConcat(revision, a, b[..|b| - 1]);
    }
  }

  /** Without failed pods and creations the count can only fall, and it stays the
      same only if no pod at that revision is deleted. */
  lemma {:induction false} QuietTotals(revision: string, calls: seq<Action>)
    ensures Creations(calls) == 0 <==> forall a :: a in calls ==> !a.Create?
    ensures FailedDeletions(calls) == 0 <==> forall a :: a in calls ==> !a.DeleteFailed?
    ensures (forall a :: a in calls ==> !a.Create?) ==> Gain(revision, calls) <= 0
    ensures (forall a :: a in calls ==> !a.Create?) && Gain(revision, calls) == 0 ==>
              forall a :: a in calls && (a.DeleteFailed? || a.DeleteCondemned?) ==> a.pod.revision != revision
  {
    if calls != [] {
      var front, a := calls[..|calls| - 1], calls[|calls| - 1];
      assert calls == front + [a];
      QuietTotals(revision, front);
    }
  }

  /** Every failed pod that is deleted is created anew. */
  lemma {:induction false} RecreationsPaired(g: Goal, reps: seq<Option<Pod>>, i: nat)
    requires i <= |reps|
    ensures Creations(ReplicaPlan(g, reps, i).actions) >= FailedDeletions(ReplicaPlan(g, reps, i).actions)
    decreases |reps| - i
  {
    if i < |reps| {
      RecreationsPaired(g, reps, i + 1);
      if reps[i].Some? {
        var acts, rest := ReplicaActions(g, reps[i].value, i), ReplicaPlan(g, reps, i + 1).actions;
        PairedActions(g, reps[i].value, i);
        TotalsConcat("", acts, rest);
        assert Creations([]) == FailedDeletions([]) == 0;
        hide ReplicaActions, Creations, FailedDeletions;
        assert ReplicaPlan(g, reps, i).actions in {acts + rest, acts, []};
      }
    }
  }

  lemma PairedActions(g: Goal, pod: Pod, i: nat)
    ensures Creations(ReplicaActions(g, pod, i)) >= FailedDeletions(ReplicaActions(g, pod, i))
  {
    var acts := ReplicaActions(g, pod, i);
    if pod.IsFailed() {
      assert acts[..1] == [DeleteFailed(pod)];
      assert acts[..1][..0] == [];
      assert Creations(acts[..1]) == 0 && FailedDeletions(acts[..1]) == 1;
    } else if |acts| == 1 {
      assert acts[..0] == [];
    }
  }

  /** The listed pods never outnumber the replicas a successful sync reports. */
  lemma ReplicasNeverShrink(g: Goal, pods: seq<Pod>, condemned: seq<Pod>, faults: set<nat>, calls: seq<Action>)
    requires Executes(SyncPlan(g, pods, condemned), faults, calls, Returned)
    ensures Settle(g, Observe(g, pods), calls).replicas >= |pods|
  {
    hide PhasePlan, SyncPlan, Settle;
    CallsWithin(g, pods, condemned, faults, calls, Returned);
    PhaseNeverShrinks(g, pods, condemned);
    SettleTotals(g, Observe(g, pods), calls);
  }

  lemma PhaseNeverShrinks(g: Goal, pods: seq<Pod>, condemned: seq<Pod>)
    ensures var calls := PhasePlan(g, pods, condemned).actions;
            Creations(calls) >= FailedDeletions(calls)
  {
    var head, tail := PlanParts(g, pods, condemned);
    if head != [] {
      RecreationsPaired(g, Replicas(g, pods), 0);
    }
    QuietTotals("", tail);
    TotalsConcat("", head, tail);
  }

  // ------------------------------------------------------------ the completion

  /** All listed pods are live, ready and at the update revision. */
  ghost predicate AllUpdated(g: Goal, pods: seq<Pod>) {
    forall p :: p in pods ==> p.IsHealthy() && p.revision == g.update
  }

  /** Counting alone: a completed status means the sync created and scaled down
      nothing and found every listed pod up to date. */
  lemma CompletionCounts(g: Goal, pods: seq<Pod>, condemned: seq<Pod>)
    requires CondemnedOrder(g, pods, condemned)
    requires Completes(g.strategy, Settle(g, Observe(g, pods), PhasePlan(g, pods, condemned).actions))
    ensures AllUpdated(g, pods)
    ensures forall a :: a in PhasePlan(g, pods, condemned).actions ==> a.Update?
  {
    var calls := PhasePlan(g, pods, condemned).actions;
    SettleTotals(g, Observe(g, pods), calls);
    PhaseNeverShrinks(g, pods, condemned);
    TallyFull(Ready, pods);
    NoFailedDeletions(g, pods, condemned);
    QuietTotals(g.update, calls);
    TallyFull(LiveAt(g.update), pods);
    assert forall p :: p in pods ==> Counts(Ready, p) && Counts(LiveAt(g.update), p);
    var head, tail := PlanParts(g, pods, condemned);
    forall a | a in calls
      ensures Licensed(g, pods, a)
    {
      PhaseLicensed(g, pods, condemned, a);
    }
    OnlyUpdates(g, pods, head, tail);
  }

  lemma NoFailedDeletions(g: Goal, pods: seq<Pod>, condemned: seq<Pod>)
    requires CondemnedOrder(g, pods, condemned)
    requires forall p :: p in pods ==> Counts(Ready, p)
    ensures forall a :: a in PhasePlan(g, pods, condemned).actions ==> !a.DeleteFailed?
  {
    forall a | a in PhasePlan(g, pods, condemned).actions
      ensures !a.DeleteFailed?
    {
      PhaseLicensed(g, pods, condemned, a);
    }
  }

  lemma OnlyUpdates(g: Goal, pods: seq<Pod>, head: seq<Action>, tail: seq<Action>)
    requires AllUpdated(g, pods)
    requires forall a :: a in head + tail ==> Licensed(g, pods, a)
    requires forall a :: a in head + tail ==>
               !a.Create? && !a.DeleteFailed? && (a.DeleteCondemned? ==> a.pod.revision != g.update)
    requires forall a :: a in head ==> !a.DeleteOutdated?
    requires forall a :: a in tail && a.DeleteOutdated? && !a.pod.IsCreated() ==> Create(a.pod) in head
    ensures forall a :: a in head + tail ==> a.Update?
  {
    forall a | a in head + tail
      ensures a.Update?
    {
      OnlyUpdate(g, pods, a);
    }
  }

  lemma OnlyUpdate(g: Goal, pods: seq<Pod>, a: Action)
    requires Licensed(g, pods, a) && AllUpdated(g, pods)
    requires !a.Create? && !a.DeleteFailed? && (a.DeleteCondemned? ==> a.pod.revision != g.update)
    requires a.DeleteOutdated? ==> a.pod.IsCreated()
    ensures a.Update?
  {
  }

  lemma UncreatedIsCreated(g: Goal, reps: seq<Option<Pod>>, i: nat)
    requires i < |reps|
    ensures reps[i].Some? && !reps[i].value.IsCreated() && !reps[i].value.IsFailed()
            ==> Create(reps[i].value) in ReplicaPlan(g, reps, i).actions
  {
  }

  /** If nothing is created although all listed pods are healthy, none is missing. */
  lemma {:induction false} NothingMissing(g: Goal, reps: seq<Option<Pod>>, i: nat)
    requires i <= |reps|
    requires forall j :: i <= j < |reps| && reps[j].Some? ==> reps[j].value.IsHealthy() || !reps[j].value.IsCreated()
    requires forall a :: a in ReplicaPlan(g, reps, i).actions ==> !a.Create?
    ensures HealthySome(reps, i, |reps|)
    decreases |reps| - i
  {
    if i < |reps| {
      UncreatedIsCreated(g, reps, i);
      assert forall a :: a in ReplicaPlan(g, reps, i + 1).actions ==> a in ReplicaPlan(g, reps, i).actions;
      NothingMissing(g, reps, i + 1);
    }
  }

  /** Sound completion: when a sync of a set that is not being deleted succeeds and
      completes the rolling update, the listed pods are exactly the wanted ones (pods
      without an ordinal aside), all of them live, ready and at the update revision,
      and the sync itself created and deleted nothing. */
  lemma CompletionSound(g: Goal, pods: seq<Pod>, condemned: seq<Pod>,
                        faults: set<nat>, calls: seq<Action>)
    requires CondemnedOrder(g, pods, condemned) && !g.deleting
    requires Executes(SyncPlan(g, pods, condemned), faults, calls, Returned)
    requires Completes(g.strategy, Settle(g, Observe(g, pods), calls))
    ensures AllUpdated(g, pods)
    ensures forall a :: a in calls ==> a.Update?
    ensures forall j :: g.Wants(j) <==> exists p :: p in pods && p.ordinal == j && (0 <= j || j in g.slots)
  {
    CallsWithin(g, pods, condemned, faults, calls, Returned);
    CompletionCounts(g, pods, condemned);
    NothingWantedMissing(g, pods, condemned);
    NothingCondemned(g, pods, condemned);
    forall j | g.Wants(j)
      ensures exists p :: p in pods && p.ordinal == j && (0 <= j || j in g.slots)
    {
      assert HealthyAt(pods, j);
      assert PodAt(pods, j).value in pods;
    }
  }

  /** What a sync that is neither deleting nor crashing goes on with. */
  lemma PlanContinues(g: Goal, pods: seq<Pod>, condemned: seq<Pod>)
    requires !g.deleting && CondemnedOrder(g, pods, condemned)
    requires !PhasePlan(g, pods, condemned).ending.Panic?
    ensures 0 <= g.replicaCount
    ensures var reps := Replicas(g, pods);
            PhasePlan(g, pods, condemned)
            == Then(ReplicaPlan(g, reps, 0),
                    Then(ScaleDownPlan(g, condemned, FirstUnhealthy(Present(reps) + condemned), |condemned|),
                         UpdatePlan(g, Recreated(g, reps))))
  {
  }

  lemma NothingWantedMissing(g: Goal, pods: seq<Pod>, condemned: seq<Pod>)
    requires !g.deleting && CondemnedOrder(g, pods, condemned)
    requires AllUpdated(g, pods)
    requires forall a :: a in PhasePlan(g, pods, condemned).actions ==> a.Update?
    requires !PhasePlan(g, pods, condemned).ending.Panic?
    ensures 0 <= g.replicaCount && HealthySome(Replicas(g, pods), 0, g.replicaCount)
    ensures HealthyBetween(g, pods, 0, g.replicaCount)
  {
    PlanContinues(g, pods, condemned);
    var reps := Replicas(g, pods);
    assert forall j :: 0 <= j < |reps| ==> reps[j] == Replica(g, pods, j);
    assert forall a :: a in ReplicaPlan(g, reps, 0).actions ==> a in PhasePlan(g, pods, condemned).actions;
    NothingMissing(g, reps, 0);
    AllWantedHealthy(g, pods, 0, g.replicaCount);
  }

  lemma NothingCondemned(g: Goal, pods: seq<Pod>, condemned: seq<Pod>)
    requires 0 <= g.replicaCount && !g.deleting && CondemnedOrder(g, pods, condemned)
    requires AllUpdated(g, pods) && HealthySome(Replicas(g, pods), 0, g.replicaCount)
    requires forall a :: a in PhasePlan(g, pods, condemned).actions ==> a.Update?
    requires !PhasePlan(g, pods, condemned).ending.Panic?
    ensures forall p :: p in pods ==> !g.Condemns(p.ordinal)
  {
    PlanContinues(g, pods, condemned);
    var reps := Replicas(g, pods);
    var first := FirstUnhealthy(Present(reps) + condemned);
    ReplicaPhaseEnd(g, reps, 0);
    forall p
      ensures p in condemned <==> p in pods && g.Condemns(p.ordinal)
    {
      CondemnedMember(g, pods, condemned, p);
    }
    var middle := ScaleDownPlan(g, condemned, first, |condemned|);
    assert forall a :: a in middle.actions ==> a in PhasePlan(g, pods, condemned).actions;
    TopIsDeleted(g, pods, condemned, first);
  }

  lemma TopIsDeleted(g: Goal, pods: seq<Pod>, condemned: seq<Pod>, first: Option<Pod>)
    requires forall p :: p in condemned ==> p in pods
    requires forall p :: p in pods ==> p.IsHealthy()
    ensures condemned != [] ==>
              DeleteCondemned(condemned[|condemned| - 1])
              in ScaleDownPlan(g, condemned, first, |condemned|).actions
  {
    if condemned != [] {
      assert condemned[|condemned| - 1] in condemned;
    }
  }
}
