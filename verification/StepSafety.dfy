/** What a single sync may and may not do, for every snapshot and every pattern of
    API failures. */
module StepSafety {
  import opened Pods
  import opened Planning
  import opened Reconcile
  import Names
  import Slots

  ghost predicate HealthyAt(pods: seq<Pod>, ordinal: int) {
    PodAt(pods, ordinal).Some? && PodAt(pods, ordinal).value.IsHealthy()
  }

  /** Every wanted ordinal satisfying a bound has a healthy pod. */
  ghost predicate HealthyBetween(g: Goal, pods: seq<Pod>, lo: int, hi: int) {
    forall j :: lo <= j < hi && g.Wants(j) ==> HealthyAt(pods, j)
  }

  // --------------------------------------------------- the shape of the phases

  /** Each action of the replica phase belongs to a replica, and in an ordered set
      every replica before it is healthy. */
  lemma {:induction false} ReplicaPhase(g: Goal, reps: seq<Option<Pod>>, i: nat, a: Action)
    requires i <= |reps| && a in ReplicaPlan(g, reps, i).actions
    ensures exists k :: i <= k < |reps| && reps[k].Some? && a in ReplicaActions(g, reps[k].value, k)
                        && (g.ordered ==> HealthySome(reps, i, k))
                        && (g.ordered && !a.Update? ==> !reps[k].value.IsHealthy())
    decreases |reps| - i
  {
    if reps[i].None? || a !in ReplicaActions(g, reps[i].value, i) {
      ReplicaPhase(g, reps, i + 1, a);
      var k :| i + 1 <= k < |reps| && reps[k].Some? && a in ReplicaActions(g, reps[k].value, k)
               && (g.ordered ==> HealthySome(reps, i + 1, k))
               && (g.ordered && !a.Update? ==> !reps[k].value.IsHealthy());
      assert g.ordered ==> HealthySome(reps, i, k);
    } else {
      assert HealthySome(reps, i, i);
    }
  }

  ghost predicate HealthySome(reps: seq<Option<Pod>>, lo: nat, hi: nat)
    requires hi <= |reps|
  {
    forall j :: lo <= j < hi && reps[j].Some? ==> reps[j].value.IsHealthy()
  }

  /** A parallel set always gets through the replicas, an ordered set only if all
      of them are healthy; then it has only issued updates. */
  lemma {:induction false} ReplicaPhaseEnd(g: Goal, reps: seq<Option<Pod>>, i: nat)
    requires i <= |reps|
    ensures !ReplicaPlan(g, reps, i).ending.Panic?
    ensures ReplicaPlan(g, reps, i).ending.Through? <==> !g.ordered || HealthySome(reps, i, |reps|)
    ensures HealthySome(reps, i, |reps|) ==>
              forall a :: a in ReplicaPlan(g, reps, i).actions ==> a.Update?
    decreases |reps| - i
  {
    if i < |reps| {
      ReplicaPhaseEnd(g, reps, i + 1);
    }
  }

  lemma {:induction false} ScaleDownPhase(g: Goal, condemned: seq<Pod>, first: Option<Pod>, n: nat)
    requires n <= |condemned|
    ensures !ScaleDownPlan(g, condemned, first, n).ending.Panic?
    ensures ScaleDownPlan(g, condemned, first, n).ending.Through? <==> !g.ordered || n == 0
    ensures forall a :: a in ScaleDownPlan(g, condemned, first, n).actions ==>
              a.DeleteCondemned? && a.pod in condemned && !a.pod.terminating
    ensures g.ordered ==>
              forall a :: a in ScaleDownPlan(g, condemned, first, n).actions ==>
                n > 0 && a.pod == condemned[n - 1]
                && (a.pod.IsRunningAndReady() || first == Some(a.pod))
    ensures g.ordered ==> |ScaleDownPlan(g, condemned, first, n).actions| <= 1
  {
    if n > 0 {
      ScaleDownPhase(g, condemned, first, n - 1);
    }
  }

  lemma {:induction false} RollingPhase(g: Goal, reps: seq<Option<Pod>>, n: nat)
    requires n <= |reps|
    ensures !RollingPlan(g, reps, n).ending.Through?
    ensures |RollingPlan(g, reps, n).actions| <= 1
    ensures forall a :: a in RollingPlan(g, reps, n).actions ==>
              a.DeleteOutdated?
              && exists t :: g.UpdateMin() <= t < n && 0 <= t && reps[t] == Some(a.pod)
                        && a.pod.revision != g.update && !a.pod.terminating
                        && UpdatedSome(g, reps, t + 1, n)
  {
    if n > 0 && n > g.UpdateMin() {
      RollingPhase(g, reps, n - 1);
      if reps[n - 1].Some? && reps[n - 1].value.revision != g.update && !reps[n - 1].value.terminating {
        assert UpdatedSome(g, reps, n, n);
      } else {
        forall a | a in RollingPlan(g, reps, n).actions
          ensures exists t :: g.UpdateMin() <= t < n && 0 <= t && reps[t] == Some(a.pod)
                        && a.pod.revision != g.update && !a.pod.terminating
                        && UpdatedSome(g, reps, t + 1, n)
        {
          var t :| g.UpdateMin() <= t < n - 1 && 0 <= t && reps[t] == Some(a.pod)
                        && a.pod.revision != g.update && !a.pod.terminating
                        && UpdatedSome(g, reps, t + 1, n - 1);
          assert UpdatedSome(g, reps, t + 1, n);
        }
      }
    }
  }

  ghost predicate UpdatedSome(g: Goal, reps: seq<Option<Pod>>, lo: nat, hi: nat)
    requires hi <= |reps|
  {
    forall j :: lo <= j < hi && reps[j].Some? ==>
      reps[j].value.IsHealthy() && reps[j].value.revision == g.update
  }

  // ------------------------------------------------- every call has its licence

  /** Why the controller may make a call. */
  ghost predicate Licensed(g: Goal, pods: seq<Pod>, a: Action) {
    match a
    case Create(p) =>
      g.Wants(p.ordinal) && !p.IsCreated()
      && (p in pods
          || (p == g.NewPod(p.ordinal)
              && (PodAt(pods, p.ordinal).Some? ==> PodAt(pods, p.ordinal).value.IsFailed())))
    case Update(p) =>
      g.Wants(p.ordinal) && p in pods && p.IsCreated() && !p.IsFailed() && !p.conforms
    case DeleteFailed(p) =>
      g.Wants(p.ordinal) && p in pods && p.IsFailed()
    case DeleteCondemned(p) =>
      g.Condemns(p.ordinal) && p in pods && !p.terminating
    case DeleteOutdated(p) =>
      g.Wants(p.ordinal) && g.UpdateMin() <= p.ordinal && !g.strategy.OnDelete?
      && p.revision != g.update && !p.terminating
      && (p == g.NewPod(p.ordinal) || (p in pods && !p.IsFailed()))
  }

  /** Which phase an action of the plan comes from. */
  lemma PlanCases(g: Goal, pods: seq<Pod>, condemned: seq<Pod>, a: Action)
    requires a in PhasePlan(g, pods, condemned).actions
    ensures 0 <= g.replicaCount
    ensures var reps := Replicas(g, pods);
            var first := FirstUnhealthy(Present(reps) + condemned);
            || a in ReplicaPlan(g, reps, 0).actions
            || a in ScaleDownPlan(g, condemned, first, |condemned|).actions
            || (!g.strategy.OnDelete? && a in RollingPlan(g, Recreated(g, reps), |reps|).actions)
  {
  }

  /** The plan's actions: those of the replica phase, then deletions of condemned
      pods and of one outdated pod. A pod created by the first is outdated only if
      the plan created it. */
  lemma PlanParts(g: Goal, pods: seq<Pod>, condemned: seq<Pod>)
    returns (head: seq<Action>, tail: seq<Action>)
    ensures PhasePlan(g, pods, condemned).actions == head + tail
    ensures head == [] || (0 <= g.replicaCount && head == ReplicaPlan(g, Replicas(g, pods), 0).actions)
    ensures forall a :: a in head ==> !a.DeleteCondemned? && !a.DeleteOutdated?
    ensures forall a :: a in tail ==> a.DeleteCondemned? || a.DeleteOutdated?
    ensures forall a :: a in tail && a.DeleteOutdated? && !a.pod.IsCreated() ==> Create(a.pod) in head
  {
    hide FirstUnhealthy, Present, ReplicaPlan, ScaleDownPlan, RollingPlan, PhasePlan, Replicas, Recreated;
    head, tail := [], [];
    if PhasePlan(g, pods, condemned).actions != [] {
      PlanShape(g, pods, condemned);
      var reps := Replicas(g, pods);
      var first := FirstUnhealthy(Present(reps) + condemned);
      var plan := ReplicaPlan(g, reps, 0);
      head := plan.actions;
      forall a | a in head
        ensures !a.DeleteCondemned? && !a.DeleteOutdated?
      {
        ReplicaLicensed(g, pods, a);
      }
      if plan.ending.Through? {
        tail := Then(ScaleDownPlan(g, condemned, first, |condemned|), UpdatePlan(g, Recreated(g, reps))).actions;
        forall a | a in tail
          ensures a.DeleteCondemned? || a.DeleteOutdated?
          ensures a.DeleteOutdated? && !a.pod.IsCreated() ==> Create(a.pod) in head
        {
          TailAction(g, condemned, first, reps, a);
        }
      }
    }
  }

  /** An action after the replica phase. */
  lemma TailAction(g: Goal, condemned: seq<Pod>, first: Option<Pod>, reps: seq<Option<Pod>>, a: Action)
    requires ReplicaPlan(g, reps, 0).ending.Through?
    requires a in Then(ScaleDownPlan(g, condemned, first, |condemned|), UpdatePlan(g, Recreated(g, reps))).actions
    ensures a.DeleteCondemned? || a.DeleteOutdated?
    ensures a.DeleteOutdated? && !a.pod.IsCreated() ==> Create(a.pod) in ReplicaPlan(g, reps, 0).actions
  {
    hide ReplicaPlan, ScaleDownPlan, RollingPlan, Recreated;
    ScaleDownPhase(g, condemned, first, |condemned|);
    RollingPhase(g, Recreated(g, reps), |reps|);
    if a.DeleteOutdated? && !a.pod.IsCreated() {
      OutdatedCreated(g, reps, a);
    }
  }

  lemma OutdatedCreated(g: Goal, reps: seq<Option<Pod>>, a: Action)
    requires a in RollingPlan(g, Recreated(g, reps), |reps|).actions && !a.pod.IsCreated()
    requires ReplicaPlan(g, reps, 0).ending.Through?
    ensures Create(a.pod) in ReplicaPlan(g, reps, 0).actions
  {
    hide RollingPlan, ReplicaPlan;
    RollingPhase(g, Recreated(g, reps), |reps|);
    var t :| 0 <= t < |reps| && Recreated(g, reps)[t] == Some(a.pod);
    AllIncluded(g, reps, 0, t);
  }

  /** A replica phase that gets through has made every action of every replica. */
  lemma {:induction false} AllIncluded(g: Goal, reps: seq<Option<Pod>>, i: nat, k: nat)
    requires i <= k < |reps| && reps[k].Some?
    requires ReplicaPlan(g, reps, i).ending.Through?
    ensures forall a :: a in ReplicaActions(g, reps[k].value, k) ==> a in ReplicaPlan(g, reps, i).actions
    decreases k - i
  {
    if i < k {
      AllIncluded(g, reps, i + 1, k);
    }
  }

  /** The phases of a sync that makes any call at all. */
  lemma PlanShape(g: Goal, pods: seq<Pod>, condemned: seq<Pod>)
    requires PhasePlan(g, pods, condemned).actions != []
    ensures 0 <= g.replicaCount
    ensures var reps := Replicas(g, pods);
            PhasePlan(g, pods, condemned)
            == Then(ReplicaPlan(g, reps, 0),
                    Then(ScaleDownPlan(g, condemned, FirstUnhealthy(Present(reps) + condemned), |condemned|),
                         UpdatePlan(g, Recreated(g, reps))))
  {
  }

  lemma MiddleIncluded(head: Plan, middle: Plan, last: Plan, a: Action)
    requires head.ending.Through? && a in middle.actions
    ensures a in Then(head, Then(middle, last)).actions
  {
  }

  lemma ReplicaLicensed(g: Goal, pods: seq<Pod>, a: Action)
    requires 0 <= g.replicaCount && a in ReplicaPlan(g, Replicas(g, pods), 0).actions
    ensures Licensed(g, pods, a) && !a.DeleteCondemned? && !a.DeleteOutdated?
  {
    var reps := Replicas(g, pods);
    ReplicaPhase(g, reps, 0, a);
    var k :| 0 <= k < |reps| && reps[k].Some? && a in ReplicaActions(g, reps[k].value, k);
    assert reps[k] == Replica(g, pods, k);
  }

  lemma RollingLicensed(g: Goal, pods: seq<Pod>, a: Action)
    requires 0 <= g.replicaCount && !g.strategy.OnDelete?
    requires a in RollingPlan(g, Recreated(g, Replicas(g, pods)), g.replicaCount).actions
    ensures a.DeleteOutdated? && Licensed(g, pods, a)
  {
    var reps := Replicas(g, pods);
    RollingPhase(g, Recreated(g, reps), |reps|);
    var t :| g.UpdateMin() <= t < |reps| && 0 <= t && Recreated(g, reps)[t] == Some(a.pod)
             && a.pod.revision != g.update && !a.pod.terminating;
    assert reps[t] == Replica(g, pods, t);
  }

  /** A sync makes the calls of its phases up to a point, and all of them unless it
      panics. */
  lemma PlanWithin(g: Goal, pods: seq<Pod>, condemned: seq<Pod>)
    ensures SyncPlan(g, pods, condemned).actions <= PhasePlan(g, pods, condemned).actions
    ensures !SyncPlan(g, pods, condemned).ending.Panic? ==> SyncPlan(g, pods, condemned) == PhasePlan(g, pods, condemned)
  {
    hide PhasePlan;
  }

  lemma CallsWithin(g: Goal, pods: seq<Pod>, condemned: seq<Pod>, faults: set<nat>, calls: seq<Action>, outcome: Outcome)
    requires Executes(SyncPlan(g, pods, condemned), faults, calls, outcome)
    ensures calls <= PhasePlan(g, pods, condemned).actions
    ensures outcome.Returned? ==> Executes(PhasePlan(g, pods, condemned), faults, calls, outcome)
  {
    hide PhasePlan, SyncPlan;
    PlanWithin(g, pods, condemned);
  }

  lemma CallsLicensed(g: Goal, pods: seq<Pod>, condemned: seq<Pod>, a: Action)
    requires CondemnedOrder(g, pods, condemned)
    requires a in SyncPlan(g, pods, condemned).actions
    ensures Licensed(g, pods, a)
  {
    hide CondemnedOrder, PhasePlan, SyncPlan, Licensed;
    PlanWithin(g, pods, condemned);
    PhaseLicensed(g, pods, condemned, a);
  }

  lemma PhaseLicensed(g: Goal, pods: seq<Pod>, condemned: seq<Pod>, a: Action)
    requires CondemnedOrder(g, pods, condemned)
    requires a in PhasePlan(g, pods, condemned).actions
    ensures Licensed(g, pods, a)
  {
    PlanCases(g, pods, condemned, a);
    var reps := Replicas(g, pods);
    var first := FirstUnhealthy(Present(reps) + condemned);
    if a in ReplicaPlan(g, reps, 0).actions {
      ReplicaLicensed(g, pods, a);
    } else if a in ScaleDownPlan(g, condemned, first, |condemned|).actions {
      ScaleDownPhase(g, condemned, first, |condemned|);
      CondemnedMember(g, pods, condemned, a.pod);
    } else {
      RollingLicensed(g, pods, a);
    }
  }

  lemma CondemnedMember(g: Goal, pods: seq<Pod>, condemned: seq<Pod>, p: Pod)
    requires CondemnedOrder(g, pods, condemned)
    ensures p in condemned <==> p in pods && g.Condemns(p.ordinal)
  {
    assert p in condemned <==> p in multiset(condemned);
    assert p in CondemnedPods(g, pods) <==> p in multiset(CondemnedPods(g, pods));
  }

  // ------------------------------------------------------------- ordered steps

  lemma AllWantedHealthy(g: Goal, pods: seq<Pod>, lo: nat, hi: nat)
    requires 0 <= g.replicaCount && hi <= g.replicaCount
    requires HealthySome(Replicas(g, pods), lo, hi)
    ensures HealthyBetween(g, pods, lo, hi)
  {
    forall j | lo <= j < hi && g.Wants(j)
      ensures HealthyAt(pods, j)
    {
      assert Replicas(g, pods)[j] == Replica(g, pods, j);
    }
  }

  /** An ordered set creates and deletes at one ordinal at most. It creates only
      when all wanted pods below are healthy. It scales down only when all wanted
      pods are healthy, at the highest condemned ordinal, and when that pod is not
      ready it is the only unhealthy pod. */
  lemma OrderedStepSafety(g: Goal, pods: seq<Pod>, condemned: seq<Pod>,
                          faults: set<nat>, calls: seq<Action>, outcome: Outcome)
    requires g.ordered && CondemnedOrder(g, pods, condemned)
    requires Executes(SyncPlan(g, pods, condemned), faults, calls, outcome)
    ensures forall a, b :: a in calls && b in calls && !a.Update? && !b.Update?
                           ==> a.pod.ordinal == b.pod.ordinal
    ensures forall a :: a in calls && a.Create? ==> HealthyBetween(g, pods, 0, a.pod.ordinal)
    ensures forall a :: a in calls && a.DeleteCondemned? ==>
              && HealthyBetween(g, pods, 0, g.replicaCount)
              && a.pod in pods && g.Condemns(a.pod.ordinal) && !a.pod.terminating
              && (forall p :: p in pods && g.Condemns(p.ordinal) ==> p.ordinal <= a.pod.ordinal)
              && (!a.pod.IsRunningAndReady() ==>
                    forall p :: p in pods && g.Condemns(p.ordinal) && !p.IsHealthy()
                                ==> p.ordinal == a.pod.ordinal)
  {
    CallsWithin(g, pods, condemned, faults, calls, outcome);
    if calls != [] {
      var reps := Replicas(g, pods);
      var whole := PhasePlan(g, pods, condemned);
      assert forall a :: a in calls ==> a in whole.actions;
      ReplicaPhaseEnd(g, reps, 0);
      if HealthySome(reps, 0, |reps|) {
        OrderedTail(g, pods, condemned, whole);
      } else {
        assert whole == ReplicaPlan(g, reps, 0);
        OrderedHead(g, pods, 0);
      }
    }
  }

  /** The replica phase of an ordered set touches one ordinal. */
  lemma OrderedHead(g: Goal, pods: seq<Pod>, i: nat)
    requires g.ordered && i <= g.replicaCount
    ensures var acts := ReplicaPlan(g, Replicas(g, pods), i).actions;
            && (forall a, b :: a in acts && b in acts && !a.Update? && !b.Update?
                               ==> a.pod.ordinal == b.pod.ordinal)
            && (forall a :: a in acts && a.Create? ==> HealthyBetween(g, pods, i, a.pod.ordinal))
            && (forall a :: a in acts ==> !a.DeleteCondemned? && !a.DeleteOutdated?)
  {
    var reps := Replicas(g, pods);
    var acts := ReplicaPlan(g, reps, i).actions;
    forall a | a in acts && !a.Update?
      ensures i <= a.pod.ordinal < |reps| && HealthySome(reps, i, a.pod.ordinal)
      ensures reps[a.pod.ordinal].Some? && !reps[a.pod.ordinal].value.IsHealthy()
      ensures HealthyBetween(g, pods, i, a.pod.ordinal)
      ensures !a.DeleteCondemned? && !a.DeleteOutdated?
    {
      ReplicaPhase(g, reps, i, a);
      AllWantedHealthy(g, pods, i, a.pod.ordinal);
    }
  }

  /** After a healthy replica phase an ordered set makes at most one deletion. */
  lemma OrderedTail(g: Goal, pods: seq<Pod>, condemned: seq<Pod>, whole: Plan)
    requires g.ordered && CondemnedOrder(g, pods, condemned) && 0 <= g.replicaCount
    requires HealthySome(Replicas(g, pods), 0, g.replicaCount)
    requires whole == PhasePlan(g, pods, condemned)
    ensures forall a, b :: a in whole.actions && b in whole.actions && !a.Update? && !b.Update? ==> a == b
    ensures forall a :: a in whole.actions ==> !a.Create? && !a.DeleteFailed?
    ensures HealthyBetween(g, pods, 0, g.replicaCount)
    ensures forall a :: a in whole.actions && a.DeleteOutdated? ==> condemned == []
    ensures forall a :: a in whole.actions && a.DeleteCondemned? ==>
              && a.pod in pods && g.Condemns(a.pod.ordinal) && !a.pod.terminating
              && (forall p :: p in pods && g.Condemns(p.ordinal) ==> p.ordinal <= a.pod.ordinal)
              && (!a.pod.IsRunningAndReady() ==>
                    forall p :: p in pods && g.Condemns(p.ordinal) && !p.IsHealthy()
                                ==> p.ordinal == a.pod.ordinal)
  {
    hide CondemnedOrder, PhasePlan, HealthyBetween, FirstUnhealthy, Present, Recreated, RollingPlan, Replicas;
    AllWantedHealthy(g, pods, 0, g.replicaCount);
    forall a | a in whole.actions
      ensures a.Update? || OrderedDeletion(g, pods, condemned, a)
    {
      OrderedTailAction(g, pods, condemned, a);
    }
    forall a | a in whole.actions && a.DeleteCondemned?
      ensures a.pod in pods && g.Condemns(a.pod.ordinal) && !a.pod.terminating
      ensures forall p :: p in pods && g.Condemns(p.ordinal) ==> p.ordinal <= a.pod.ordinal
      ensures !a.pod.IsRunningAndReady() ==>
                forall p :: p in pods && g.Condemns(p.ordinal) && !p.IsHealthy() ==> p.ordinal == a.pod.ordinal
    {
      OrderedVictim(g, pods, condemned, a);
    }
  }

  /** The one deletion an ordered sync makes once its wanted pods are healthy. */
  ghost predicate OrderedDeletion(g: Goal, pods: seq<Pod>, condemned: seq<Pod>, a: Action)
    requires 0 <= g.replicaCount
  {
    var reps := Replicas(g, pods);
    if condemned == [] then RollingPlan(g, Recreated(g, reps), |reps|).actions == [a] && a.DeleteOutdated?
    else
      var last := condemned[|condemned| - 1];
      && a == DeleteCondemned(last) && !last.terminating
      && (last.IsRunningAndReady() || FirstUnhealthy(Present(reps) + condemned) == Some(last))
  }

  lemma OrderedTailAction(g: Goal, pods: seq<Pod>, condemned: seq<Pod>, a: Action)
    requires g.ordered && 0 <= g.replicaCount
    requires HealthySome(Replicas(g, pods), 0, g.replicaCount)
    requires a in PhasePlan(g, pods, condemned).actions
    ensures a.Update? || OrderedDeletion(g, pods, condemned, a)
  {
    hide FirstUnhealthy, Present, Recreated;
    var reps := Replicas(g, pods);
    var first := FirstUnhealthy(Present(reps) + condemned);
    PlanCases(g, pods, condemned, a);
    PlanShape(g, pods, condemned);
    ReplicaPhaseEnd(g, reps, 0);
    ScaleDownPhase(g, condemned, first, |condemned|);
    RollingPhase(g, Recreated(g, reps), |reps|);
  }

  lemma OrderedVictim(g: Goal, pods: seq<Pod>, condemned: seq<Pod>, a: Action)
    requires 0 <= g.replicaCount && CondemnedOrder(g, pods, condemned)
    requires OrderedDeletion(g, pods, condemned, a) && a.DeleteCondemned?
    ensures a.pod in pods && g.Condemns(a.pod.ordinal) && !a.pod.terminating
    ensures forall p :: p in pods && g.Condemns(p.ordinal) ==> p.ordinal <= a.pod.ordinal
    ensures !a.pod.IsRunningAndReady() ==>
              forall p :: p in pods && g.Condemns(p.ordinal) && !p.IsHealthy() ==> p.ordinal == a.pod.ordinal
  {
    hide Present, FirstUnhealthy, RollingPlan, Recreated, Replicas;
    var all := Present(Replicas(g, pods)) + condemned;
    CondemnedMember(g, pods, condemned, a.pod);
    forall p | p in pods && g.Condemns(p.ordinal)
      ensures p in all && p.ordinal <= a.pod.ordinal
    {
      CondemnedMember(g, pods, condemned, p);
    }
  }

  // ------------------------------------------------------------- rolling steps

  /** A sync makes at most one update deletion, as its last call, never below the
      partition, and only when every wanted pod above the victim is healthy and at
      the update revision. In an ordered set no condemned pod is left by then and
      every wanted pod is healthy. */
  lemma RollingStepSafety(g: Goal, pods: seq<Pod>, condemned: seq<Pod>,
                          faults: set<nat>, calls: seq<Action>, outcome: Outcome)
    requires CondemnedOrder(g, pods, condemned)
    requires Executes(SyncPlan(g, pods, condemned), faults, calls, outcome)
    ensures forall k :: 0 <= k < |calls| && calls[k].DeleteOutdated? ==>
              var victim := calls[k].pod;
              && k == |calls| - 1
              && !g.strategy.OnDelete? && g.UpdateMin() <= victim.ordinal && g.Wants(victim.ordinal)
              && victim.revision != g.update && !victim.terminating
              && (forall j :: g.Wants(j) && victim.ordinal < j ==>
                    HealthyAt(pods, j) && PodAt(pods, j).value.revision == g.update)
              && (g.ordered ==>
                    && (forall p :: p in pods ==> !g.Condemns(p.ordinal))
                    && HealthyBetween(g, pods, 0, g.replicaCount))
  {
    hide CondemnedOrder, PhasePlan, SyncPlan, HealthyBetween, PodAt;
    CallsWithin(g, pods, condemned, faults, calls, outcome);
    var actions := PhasePlan(g, pods, condemned).actions;
    forall k | 0 <= k < |calls| && calls[k].DeleteOutdated?
      ensures k == |calls| - 1 && Licensed(g, pods, calls[k])
      ensures forall j :: g.Wants(j) && calls[k].pod.ordinal < j ==>
                    HealthyAt(pods, j) && PodAt(pods, j).value.revision == g.update
      ensures g.ordered ==>
                    && (forall p :: p in pods ==> !g.Condemns(p.ordinal))
                    && HealthyBetween(g, pods, 0, g.replicaCount)
    {
      assert calls[k] == actions[k] && actions[k] in actions;
      PhaseLicensed(g, pods, condemned, calls[k]);
      OutdatedIsLast(g, pods, condemned, k);
      RollingAbove(g, pods, calls[k]);
      if g.ordered {
        OrderedRolling(g, pods, condemned, calls[k]);
      }
    }
  }

  lemma OrderedRolling(g: Goal, pods: seq<Pod>, condemned: seq<Pod>, a: Action)
    requires g.ordered && CondemnedOrder(g, pods, condemned) && 0 <= g.replicaCount
    requires HealthySome(Replicas(g, pods), 0, g.replicaCount)
    requires a in PhasePlan(g, pods, condemned).actions && a.DeleteOutdated?
    ensures forall p :: p in pods ==> !g.Condemns(p.ordinal)
    ensures HealthyBetween(g, pods, 0, g.replicaCount)
  {
    hide CondemnedOrder, PhasePlan, HealthySome, HealthyBetween, Replicas;
    OrderedTail(g, pods, condemned, PhasePlan(g, pods, condemned));
    forall p | p in pods
      ensures !g.Condemns(p.ordinal)
    {
      CondemnedMember(g, pods, condemned, p);
    }
  }

  /** An update deletion comes from the rolling phase, whose only action it is. */
  lemma OutdatedIsLast(g: Goal, pods: seq<Pod>, condemned: seq<Pod>, k: nat)
    requires CondemnedOrder(g, pods, condemned)
    requires k < |PhasePlan(g, pods, condemned).actions|
    requires PhasePlan(g, pods, condemned).actions[k].DeleteOutdated?
    ensures k == |PhasePlan(g, pods, condemned).actions| - 1
    ensures PhasePlan(g, pods, condemned).actions[k]
            in RollingPlan(g, Recreated(g, Replicas(g, pods)), g.replicaCount).actions
    ensures g.ordered ==> HealthySome(Replicas(g, pods), 0, g.replicaCount)
  {
    var reps := Replicas(g, pods);
    var first := FirstUnhealthy(Present(reps) + condemned);
    var whole := PhasePlan(g, pods, condemned);
    var head := ReplicaPlan(g, reps, 0);
    var middle := ScaleDownPlan(g, condemned, first, |condemned|);
    var last := RollingPlan(g, Recreated(g, reps), |reps|);
    ReplicaPhaseEnd(g, reps, 0);
    ScaleDownPhase(g, condemned, first, |condemned|);
    RollingPhase(g, Recreated(g, reps), |reps|);
    forall b | b in head.actions
      ensures !b.DeleteOutdated?
    {
      ReplicaLicensed(g, pods, b);
    }
    Split3(whole.actions, head.actions, middle.actions,
           if head.ending.Through? && middle.ending.Through? && !g.strategy.OnDelete? then last.actions else [],
           k);
  }

  /** Where an update deletion sits in three stretches of actions. */
  lemma Split3(whole: seq<Action>, head: seq<Action>, middle: seq<Action>, last: seq<Action>, k: nat)
    requires k < |whole| && whole[k].DeleteOutdated?
    requires whole == head + (middle + last) || (whole == head && last == [])
    requires forall a :: a in head || a in middle ==> !a.DeleteOutdated?
    requires |last| <= 1
    ensures k == |whole| - 1 && last == [whole[k]]
  {
    assert forall j :: 0 <= j < |head| ==> whole[j] == head[j];
    assert forall j :: 0 <= j < |middle| ==> middle[j] in middle;
  }

  lemma RollingAbove(g: Goal, pods: seq<Pod>, a: Action)
    requires 0 <= g.replicaCount
    requires a in RollingPlan(g, Recreated(g, Replicas(g, pods)), g.replicaCount).actions
    ensures forall j :: g.Wants(j) && a.pod.ordinal < j ==>
              HealthyAt(pods, j) && PodAt(pods, j).value.revision == g.update
  {
    var reps := Recreated(g, Replicas(g, pods));
    RollingPhase(g, reps, |reps|);
    var t :| g.UpdateMin() <= t < |reps| && 0 <= t && reps[t] == Some(a.pod)
             && UpdatedSome(g, reps, t + 1, |reps|);
    assert Replicas(g, pods)[t] == Replica(g, pods, t);
    forall j | g.Wants(j) && a.pod.ordinal < j
      ensures HealthyAt(pods, j) && PodAt(pods, j).value.revision == g.update
    {
      assert reps[j].Some?;
      assert Replicas(g, pods)[j] == Replica(g, pods, j);
    }
  }

  // ---------------------------------------------------------- policy refinement

  /** On one snapshot, what an ordered sync does is the beginning of what a
      parallel sync does, whatever API calls fail. */
  lemma OrderedRefinesParallel(g: Goal, pods: seq<Pod>, condemned: seq<Pod>, faults: set<nat>,
                               calls: seq<Action>, outcome: Outcome,
                               burstCalls: seq<Action>, burstOutcome: Outcome)
    requires g.ordered
    requires Executes(SyncPlan(g, pods, condemned), faults, calls, outcome)
    requires Executes(SyncPlan(g.(ordered := false), pods, condemned), faults, burstCalls, burstOutcome)
    ensures calls <= burstCalls
  {
    hide PhasePlan;
    var b := g.(ordered := false);
    PlanPrefix(g, pods, condemned);
    CutPrefix(PhasePlan(g, pods, condemned), PhasePlan(b, pods, condemned));
    assert Incomplete(b, pods) <==> Incomplete(g, pods) by {
      assert forall i :: b.Wants(i) <==> g.Wants(i);
    }
    var plan, burstPlan := SyncPlan(g, pods, condemned), SyncPlan(b, pods, condemned);
    assert calls <= burstPlan.actions && burstCalls <= burstPlan.actions;
    assert !burstOutcome.Errored? ==> burstCalls == burstPlan.actions;
  }

  lemma {:induction false} CutPrefix(a: Plan, b: Plan)
    requires a.actions <= b.actions
    ensures Cut(a).actions <= Cut(b).actions
    decreases |a.actions|
  {
    if a.actions != [] && !a.actions[0].DeleteFailed? {
      CutPrefix(Plan(a.actions[1..], a.ending), Plan(b.actions[1..], b.ending));
    }
  }

  lemma SamePods(g: Goal, pods: seq<Pod>)
    requires 0 <= g.replicaCount
    ensures var b := g.(ordered := false);
            Replicas(b, pods) == Replicas(g, pods)
            && Recreated(b, Replicas(b, pods)) == Recreated(g, Replicas(g, pods))
  {
    var b := g.(ordered := false);
    assert forall i :: b.Wants(i) <==> g.Wants(i);
    assert forall i :: b.NewPod(i) == g.NewPod(i);
    assert forall i :: Replica(b, pods, i) == Replica(g, pods, i);
  }

  lemma PlanPrefix(g: Goal, pods: seq<Pod>, condemned: seq<Pod>)
    requires g.ordered
    ensures PhasePlan(g, pods, condemned).actions
            <= PhasePlan(g.(ordered := false), pods, condemned).actions
  {
    var b := g.(ordered := false);
    if 0 <= g.replicaCount {
      hide FirstUnhealthy, Present, Recreated, RollingPlan, ReplicaPlan, ScaleDownPlan, HealthySome;
      SamePods(g, pods);
      var reps := Replicas(g, pods);
      var first := FirstUnhealthy(Present(reps) + condemned);
      ReplicaPrefix(g, reps, 0);
      ScaleDownPrefix(g, condemned, first, |condemned|);
      assert ScaleDownPlan(g, condemned, first, 0) == ScaleDownPlan(b, condemned, first, 0) by {
        ScaleDownNone(g, condemned, first);
        ScaleDownNone(b, condemned, first);
      }
      var last := UpdatePlan(g, Recreated(g, reps));
      var middle, burst := ScaleDownPlan(g, condemned, first, |condemned|), ScaleDownPlan(b, condemned, first, |condemned|);
      hide Then, UpdatePlan;
      ThenPrefix(middle, burst, last, last);
      ThenPrefix(ReplicaPlan(g, reps, 0), ReplicaPlan(b, reps, 0), Then(middle, last), Then(burst, last));
      SameUpdate(g, Recreated(g, reps));
    }
  }

  lemma ScaleDownNone(g: Goal, condemned: seq<Pod>, first: Option<Pod>)
    ensures ScaleDownPlan(g, condemned, first, 0) == Plan([], Through)
  {
  }

  lemma SameUpdate(g: Goal, reps: seq<Option<Pod>>)
    ensures UpdatePlan(g.(ordered := false), reps) == UpdatePlan(g, reps)
  {
    RollingSame(g, reps, |reps|);
  }

  lemma ThenPrefix(a: Plan, b: Plan, rest: Plan, burst: Plan)
    requires a.actions <= b.actions && (a.ending.Through? ==> a == b) && rest.actions <= burst.actions
    ensures Then(a, rest).actions <= Then(b, burst).actions
  {
  }

  lemma {:induction false} ReplicaPrefix(g: Goal, reps: seq<Option<Pod>>, i: nat)
    requires g.ordered && i <= |reps|
    ensures var b := g.(ordered := false);
            ReplicaPlan(g, reps, i).actions <= ReplicaPlan(b, reps, i).actions
            && (ReplicaPlan(g, reps, i).ending.Through? ==> ReplicaPlan(g, reps, i) == ReplicaPlan(b, reps, i))
    decreases |reps| - i
  {
    if i < |reps| {
      if reps[i].Some? {
        SameActions(g, reps[i].value, i);
      }
      hide ReplicaActions;
      ReplicaPrefix(g, reps, i + 1);
    }
  }

  lemma SameActions(g: Goal, p: Pod, i: int)
    ensures ReplicaActions(g.(ordered := false), p, i) == ReplicaActions(g, p, i)
  {
  }

  lemma ScaleDownPrefix(g: Goal, condemned: seq<Pod>, first: Option<Pod>, n: nat)
    requires g.ordered && n <= |condemned|
    ensures var b := g.(ordered := false);
            ScaleDownPlan(g, condemned, first, n).actions <= ScaleDownPlan(b, condemned, first, n).actions
            && (ScaleDownPlan(g, condemned, first, n).ending.Through? ==> n == 0)
  {
  }

  lemma {:induction false} RollingSame(g: Goal, reps: seq<Option<Pod>>, n: nat)
    requires n <= |reps|
    ensures RollingPlan(g, reps, n) == RollingPlan(g.(ordered := false), reps, n)
  {
    if n > 0 {
      RollingSame(g, reps, n - 1);
    }
  }

  // ------------------------------------------------------------------- crashes

  ghost predicate UpdatedBetween(g: Goal, pods: seq<Pod>, lo: int, hi: int) {
    forall j :: lo <= j < hi && g.Wants(j) ==>
      HealthyAt(pods, j) && PodAt(pods, j).value.revision == g.update
  }

  /** The scan for the first unhealthy pod finds none although there is one. */
  ghost predicate BlindSpot(g: Goal, pods: seq<Pod>) {
    && HealthyBetween(g, pods, 0, g.replicaCount)
    && (exists p :: p in pods && g.Condemns(p.ordinal) && !p.IsHealthy())
    && (forall p :: p in pods && g.Condemns(p.ordinal) && !p.IsHealthy() ==> Slots.MAX_INT32 <= p.ordinal)
  }

  /** A negative partition is reached with nothing left to do. */
  ghost predicate PartitionUnderrun(g: Goal, pods: seq<Pod>) {
    && !g.deleting && !g.strategy.OnDelete?
    && g.UpdateMin() < 0
    && UpdatedBetween(g, pods, 0, g.replicaCount)
    && (g.ordered ==> forall p :: p in pods ==> !g.Condemns(p.ordinal))
  }

  /** A wanted failed pod that the replica phase gets to. */
  ghost predicate FailedReached(g: Goal, pods: seq<Pod>, p: Pod) {
    exists j :: g.Wants(j) && PodAt(pods, j) == Some(p) && p.IsFailed() && (g.ordered ==> HealthyBetween(g, pods, 0, j))
  }

  /** The sync gets as far as the rolling update. */
  ghost predicate UpdateReached(g: Goal, pods: seq<Pod>) {
    && !g.deleting && !g.strategy.OnDelete?
    && (g.ordered ==> HealthyBetween(g, pods, 0, g.replicaCount) && forall p :: p in pods ==> !g.Condemns(p.ordinal))
  }

  /** A block without a partition is read: to build a pod that is missing or replaces a
      failed one, or to find where the rolling update starts. */
  ghost predicate PartitionMissing(g: Goal, pods: seq<Pod>) {
    && g.LacksPartition()
    && (Incomplete(g, pods)
        || (!g.deleting && exists p :: p in pods && FailedReached(g, pods, p))
        || UpdateReached(g, pods))
  }

  /** A sync without API failures crashes exactly when the replica count has wrapped
      around, when the only unhealthy pods have the largest ordinal, when a negative
      partition meets a set that is completely up to date, or when it needs a partition
      that its block lacks. */
  lemma CrashExactly(g: Goal, pods: seq<Pod>, condemned: seq<Pod>)
    requires CondemnedOrder(g, pods, condemned) && g.replicaCount <= Slots.MAX_INT32
    ensures SyncPlan(g, pods, condemned).ending.Panic?
            <==> g.replicaCount < 0 || BlindSpot(g, pods) || PartitionUnderrun(g, pods) || PartitionMissing(g, pods)
  {
    hide CondemnedOrder, PhasePlan, BlindSpot, PartitionUnderrun, FailedReached, UpdateReached;
    PhaseCrash(g, pods, condemned);
    if g.LacksPartition() {
      CutPanics(PhasePlan(g, pods, condemned));
      forall p
        ensures DeleteFailed(p) in PhasePlan(g, pods, condemned).actions
                <==> 0 <= g.replicaCount && !g.deleting && p in pods && FailedReached(g, pods, p)
      {
        FailedDeleted(g, pods, condemned, p);
      }
    }
  }

  /** A set of the given size whose RollingUpdate block is `block`. */
  function SmallGoal(size: nat, strategy: Strategy, block: Option<Option<int>>): Goal {
    Goal("web", size, {}, strategy, block, true, false, "a", "a", size, 1, 0)
  }

  /** Scaled to zero, the set panics while its pod with the largest ordinal is pending. */
  lemma LargestOrdinalPanics(p: Pod)
    requires p.name == Names.PodName("web", Slots.MAX_INT32) && p.ordinal == Names.Ordinal(p.name)
    requires p.phase == Pending
    ensures SyncPlan(SmallGoal(0, RollingUpdate, Some(Some(0))), [p], [p]).ending.Panic?
  {
    Names.ParsePodName("web", Slots.MAX_INT32);
    UnhealthyAtLargestPanics(SmallGoal(0, RollingUpdate, Some(Some(0))), p);
  }

  lemma UnhealthyAtLargestPanics(g: Goal, p: Pod)
    requires g.replicaCount == 0 && p.ordinal == Slots.MAX_INT32 && !p.IsHealthy()
    ensures SyncPlan(g, [p], [p]).ending.Panic?
  {
    hide SyncPlan, PhasePlan, PartitionUnderrun, PartitionMissing;
    assert CondemnedPods(g, [p]) == [p] by {
      assert CondemnedPods(g, []) == [] && [p][..0] == [];
    }
    assert p in [p] && g.Condemns(p.ordinal);
    CrashExactly(g, [p], [p]);
  }

  /** An empty set with partition -1 panics. */
  lemma NegativePartitionPanics()
    ensures SyncPlan(SmallGoal(0, RollingUpdate, Some(Some(-1))), [], []).ending.Panic?
  {
    var g := SmallGoal(0, RollingUpdate, Some(Some(-1)));
    assert CondemnedPods(g, []) == [];
    assert PartitionUnderrun(g, []);
    CrashExactly(g, [], []);
  }

  /** With strategy OnDelete and an empty RollingUpdate block, which defaulting leaves as
      it is, the first pod cannot be built. */
  lemma EmptyBlockPanics()
    ensures SyncPlan(SmallGoal(1, OnDelete, Some(None)), [], []) == Plan([], Panic)
  {
    var g := SmallGoal(1, OnDelete, Some(None));
    assert g.Wants(0) && PodAt([], 0).None?;
    assert Incomplete(g, []);
  }

  /** A pod that a set with strategy OnDelete builds is at the update revision unless its
      ordinal is below the partition of a block that this strategy has no use for. */
  lemma OnDeleteBuilds(g: Goal, pods: seq<Pod>, condemned: seq<Pod>, a: Action)
    requires CondemnedOrder(g, pods, condemned) && g.strategy.OnDelete? && g.current != g.update
    requires a in SyncPlan(g, pods, condemned).actions && a.Create? && a.pod !in pods
    ensures a.pod.revision == g.update <==> g.Partition().None? || g.Partition().value <= a.pod.ordinal
  {
    hide CondemnedOrder, SyncPlan, Names.PodName;
    CallsLicensed(g, pods, condemned, a);
  }

  /** With strategy OnDelete and partition 1 the first pod is built at the old revision. */
  lemma OnDeletePartitioned()
    ensures var g := SmallGoal(1, OnDelete, Some(Some(1))).(update := "b");
            SyncPlan(g, [], []) == Plan([Create(g.NewPod(0))], Stop) && g.NewPod(0).revision == "a"
  {
    var g := SmallGoal(1, OnDelete, Some(Some(1))).(update := "b");
    var new_ := g.NewPod(0);
    hide Names.PodName;
    assert Replicas(g, []) == [Some(new_)];
    assert Some(new_) in [Some(new_)];
    assert new_ in Present([Some(new_)]) + [];
  }

  lemma {:induction false} CutPanics(plan: Plan)
    ensures Cut(plan).ending.Panic? <==> plan.ending.Panic? || exists p :: DeleteFailed(p) in plan.actions
    decreases |plan.actions|
  {
    if plan.actions != [] {
      var first, rest := plan.actions[0], Plan(plan.actions[1..], plan.ending);
      CutPanics(rest);
      assert plan.actions == [first] + rest.actions;
      if first.DeleteFailed? {
        assert DeleteFailed(first.pod) in plan.actions;
      }
    }
  }

  /** A failed pod is deleted exactly when the sync gets to it. */
  lemma FailedDeleted(g: Goal, pods: seq<Pod>, condemned: seq<Pod>, p: Pod)
    requires g.replicaCount <= Slots.MAX_INT32 || !PhasePlan(g, pods, condemned).ending.Panic?
    ensures DeleteFailed(p) in PhasePlan(g, pods, condemned).actions
            <==> 0 <= g.replicaCount && !g.deleting && p in pods && FailedReached(g, pods, p)
  {
    hide PhasePlan, FailedReached;
    if DeleteFailed(p) in PhasePlan(g, pods, condemned).actions {
      FailedOfReplica(g, pods, condemned, p);
    } else if 0 <= g.replicaCount && !g.deleting && p in pods && FailedReached(g, pods, p) {
      FailedIncluded(g, pods, condemned, p);
    }
  }

  lemma FailedOfReplica(g: Goal, pods: seq<Pod>, condemned: seq<Pod>, p: Pod)
    requires DeleteFailed(p) in PhasePlan(g, pods, condemned).actions
    ensures 0 <= g.replicaCount && !g.deleting && p in pods && FailedReached(g, pods, p)
  {
    hide PhasePlan, ReplicaPlan, HealthyBetween, HealthySome, ReplicaActions, Replicas;
    FromReplicaPhase(g, pods, condemned, p);
    var reps := Replicas(g, pods);
    ReplicaPhase(g, reps, 0, DeleteFailed(p));
    var k :| 0 <= k < |reps| && reps[k].Some? && DeleteFailed(p) in ReplicaActions(g, reps[k].value, k)
             && (g.ordered ==> HealthySome(reps, 0, k));
    DeletedReplica(g, pods, k, p);
    if g.ordered {
      AllWantedHealthy(g, pods, 0, k);
    }
    assert g.Wants(k) && PodAt(pods, k) == Some(p) && p.IsFailed() && (g.ordered ==> HealthyBetween(g, pods, 0, k));
  }

  lemma DeletedReplica(g: Goal, pods: seq<Pod>, k: nat, p: Pod)
    requires k < g.replicaCount && Replicas(g, pods)[k].Some?
    requires DeleteFailed(p) in ReplicaActions(g, Replicas(g, pods)[k].value, k)
    ensures g.Wants(k) && PodAt(pods, k) == Some(p) && p.IsFailed() && p in pods
  {
    assert Replicas(g, pods)[k] == Replica(g, pods, k);
  }

  lemma FromReplicaPhase(g: Goal, pods: seq<Pod>, condemned: seq<Pod>, p: Pod)
    requires DeleteFailed(p) in PhasePlan(g, pods, condemned).actions
    ensures 0 <= g.replicaCount && !g.deleting
    ensures DeleteFailed(p) in ReplicaPlan(g, Replicas(g, pods), 0).actions
  {
    hide FirstUnhealthy, Present, ReplicaPlan, ScaleDownPlan, RollingPlan, Replicas, Recreated;
    var reps := Replicas(g, pods);
    var first := FirstUnhealthy(Present(reps) + condemned);
    PlanCases(g, pods, condemned, DeleteFailed(p));
    ScaleDownPhase(g, condemned, first, |condemned|);
    RollingPhase(g, Recreated(g, reps), |reps|);
  }

  lemma FailedIncluded(g: Goal, pods: seq<Pod>, condemned: seq<Pod>, p: Pod)
    requires g.replicaCount <= Slots.MAX_INT32 || !PhasePlan(g, pods, condemned).ending.Panic?
    requires 0 <= g.replicaCount && !g.deleting && p in pods && FailedReached(g, pods, p)
    ensures DeleteFailed(p) in PhasePlan(g, pods, condemned).actions
  {
    hide FirstUnhealthy, Present, ReplicaPlan, ScaleDownPlan, RollingPlan, HealthyBetween;
    var reps := Replicas(g, pods);
    var all := Present(reps) + condemned;
    var j :| g.Wants(j) && PodAt(pods, j) == Some(p) && p.IsFailed() && (g.ordered ==> HealthyBetween(g, pods, 0, j));
    assert reps[j] == Some(p) && p in Present(reps) && p in all;
    assert g.replicaCount <= Slots.MAX_INT32 ==> p.ordinal < Slots.MAX_INT32;
    assert SomeUnhealthy(all);
    WantedHealthy(g, pods, j);
    FailedInPhase(g, reps, 0, j);
  }

  /** The replica phase gets to a failed replica with healthy ones before it. */
  lemma {:induction false} FailedInPhase(g: Goal, reps: seq<Option<Pod>>, i: nat, k: nat)
    requires i <= k < |reps| && reps[k].Some? && reps[k].value.IsFailed()
    requires g.ordered ==> HealthySome(reps, i, k)
    ensures DeleteFailed(reps[k].value) in ReplicaPlan(g, reps, i).actions
    decreases k - i
  {
    if i < k {
      FailedInPhase(g, reps, i + 1, k);
    }
  }

  /** The replica phase builds a pod at a wanted ordinal without one. */
  lemma MissingCreated(g: Goal, pods: seq<Pod>, condemned: seq<Pod>, t: nat)
    requires g.Wants(t) && PodAt(pods, t).None? && !g.deleting
    requires g.ordered ==> HealthyBetween(g, pods, 0, t)
    requires !PhasePlan(g, pods, condemned).ending.Panic?
    ensures Create(g.NewPod(t)) in PhasePlan(g, pods, condemned).actions
  {
    hide FirstUnhealthy, Present, ReplicaPlan, ScaleDownPlan, RollingPlan, HealthyBetween;
    var reps := Replicas(g, pods);
    var all := Present(reps) + condemned;
    assert reps[t] == Some(g.NewPod(t)) && g.NewPod(t) in Present(reps) && g.NewPod(t) in all;
    assert SomeUnhealthy(all);
    WantedHealthy(g, pods, t);
    MissingInPhase(g, reps, 0, t);
  }

  lemma {:induction false} MissingInPhase(g: Goal, reps: seq<Option<Pod>>, i: nat, k: nat)
    requires i <= k < |reps| && reps[k].Some? && !reps[k].value.IsCreated() && !reps[k].value.IsFailed()
    requires g.ordered ==> HealthySome(reps, i, k)
    ensures Create(reps[k].value) in ReplicaPlan(g, reps, i).actions
    decreases k - i
  {
    if i < k {
      MissingInPhase(g, reps, i + 1, k);
    }
  }

  /** The pod that the rolling update deletes: outdated, live, at or above the partition,
      and with every wanted pod above it updated. */
  ghost predicate OutdatedAt(g: Goal, pods: seq<Pod>, t: nat, p: Pod) {
    && g.Wants(t) && g.UpdateMin() <= t && Recreated(g, Replicas(g, pods))[t] == Some(p)
    && p.revision != g.update && !p.terminating
    && UpdatedBetween(g, pods, t + 1, g.replicaCount)
  }

  /** A pod is deleted for the update exactly when a sync that does not crash gets to it. */
  lemma OutdatedDeleted(g: Goal, pods: seq<Pod>, condemned: seq<Pod>, p: Pod)
    requires CondemnedOrder(g, pods, condemned) && !PhasePlan(g, pods, condemned).ending.Panic?
    ensures DeleteOutdated(p) in PhasePlan(g, pods, condemned).actions
            <==> UpdateReached(g, pods) && exists t: nat :: OutdatedAt(g, pods, t, p)
  {
    hide CondemnedOrder, PhasePlan, UpdateReached, OutdatedAt;
    if DeleteOutdated(p) in PhasePlan(g, pods, condemned).actions {
      OutdatedFromUpdate(g, pods, condemned, p);
    }
    if UpdateReached(g, pods) && exists t: nat :: OutdatedAt(g, pods, t, p) {
      var t: nat :| OutdatedAt(g, pods, t, p);
      OutdatedIncluded(g, pods, condemned, t, p);
    }
  }

  lemma OutdatedFromUpdate(g: Goal, pods: seq<Pod>, condemned: seq<Pod>, p: Pod)
    requires CondemnedOrder(g, pods, condemned)
    requires DeleteOutdated(p) in PhasePlan(g, pods, condemned).actions
    ensures UpdateReached(g, pods) && exists t: nat :: OutdatedAt(g, pods, t, p)
  {
    var actions := PhasePlan(g, pods, condemned).actions;
    var k :| 0 <= k < |actions| && actions[k] == DeleteOutdated(p);
    assert !g.deleting && 0 <= g.replicaCount;
    hide CondemnedOrder, PhasePlan, HealthyBetween, OutdatedAt, RollingPlan, UpdatePlan, Replicas, Recreated;
    PhaseLicensed(g, pods, condemned, actions[k]);
    OutdatedIsLast(g, pods, condemned, k);
    if g.ordered {
      OrderedRolling(g, pods, condemned, actions[k]);
    }
    OutdatedOfRolling(g, pods, p);
  }

  lemma OutdatedOfRolling(g: Goal, pods: seq<Pod>, p: Pod)
    requires 0 <= g.replicaCount
    requires DeleteOutdated(p) in RollingPlan(g, Recreated(g, Replicas(g, pods)), g.replicaCount).actions
    ensures exists t: nat :: OutdatedAt(g, pods, t, p)
  {
    var reps := Recreated(g, Replicas(g, pods));
    hide RollingPlan, Recreated, Replicas, UpdatedSome, UpdatedBetween;
    RollingPhase(g, reps, |reps|);
    var t :| g.UpdateMin() <= t < |reps| && 0 <= t && reps[t] == Some(p)
             && p.revision != g.update && !p.terminating && UpdatedSome(g, reps, t + 1, |reps|);
    RecreatedWanted(g, pods, t);
    WantedUpdated(g, pods, t + 1);
    assert OutdatedAt(g, pods, t, p);
  }

  lemma RecreatedWanted(g: Goal, pods: seq<Pod>, t: nat)
    requires t < g.replicaCount
    ensures var reps := Recreated(g, Replicas(g, pods));
            reps[t].Some? <==> g.Wants(t)
  {
    assert Replicas(g, pods)[t] == Replica(g, pods, t);
  }

  lemma OutdatedIncluded(g: Goal, pods: seq<Pod>, condemned: seq<Pod>, t: nat, p: Pod)
    requires CondemnedOrder(g, pods, condemned) && !PhasePlan(g, pods, condemned).ending.Panic?
    requires UpdateReached(g, pods) && OutdatedAt(g, pods, t, p)
    ensures DeleteOutdated(p) in PhasePlan(g, pods, condemned).actions
  {
    hide CondemnedOrder, FirstUnhealthy, Present, Recreated, Replicas, ReplicaPlan, ScaleDownPlan, RollingPlan;
    hide HealthySome, HealthyBetween, UpdatedSome, UpdatedBetween, SomeUnhealthy;
    var reps := Replicas(g, pods);
    var first := FirstUnhealthy(Present(reps) + condemned);
    ReplicaPhaseEnd(g, reps, 0);
    ScaleDownPhase(g, condemned, first, |condemned|);
    NoneCondemned(g, pods, condemned);
    WantedHealthy(g, pods, g.replicaCount);
    WantedUpdated(g, pods, t + 1);
    OutdatedInRolling(g, Recreated(g, reps), |reps|, t);
  }

  /** The rolling update finds the highest outdated replica. */
  lemma {:induction false} OutdatedInRolling(g: Goal, reps: seq<Option<Pod>>, n: nat, t: nat)
    requires t < n <= |reps| && g.UpdateMin() <= t && reps[t].Some? && UpdatedSome(g, reps, t + 1, n)
    requires reps[t].value.revision != g.update && !reps[t].value.terminating
    ensures RollingPlan(g, reps, n).actions == [DeleteOutdated(reps[t].value)]
  {
    if t < n - 1 {
      OutdatedInRolling(g, reps, n - 1, t);
    }
  }

  /** When the phases of a sync crash. */
  lemma PhaseCrash(g: Goal, pods: seq<Pod>, condemned: seq<Pod>)
    requires CondemnedOrder(g, pods, condemned) && g.replicaCount <= Slots.MAX_INT32
    ensures PhasePlan(g, pods, condemned).ending.Panic?
            <==> g.replicaCount < 0 || BlindSpot(g, pods) || PartitionUnderrun(g, pods)
                 || (g.LacksPartition() && UpdateReached(g, pods))
  {
    if 0 <= g.replicaCount {
      var reps := Replicas(g, pods);
      var all := Present(reps) + condemned;
      var first := FirstUnhealthy(all);
      hide CondemnedOrder, FirstUnhealthy, Present, Recreated, Replicas, ReplicaPlan, ScaleDownPlan, RollingPlan;
      hide HealthySome, HealthyBetween, UpdatedSome, UpdatedBetween, SomeUnhealthy, BlindSpot;
      ScanMisses(g, pods, condemned);
      ReplicaPhaseEnd(g, reps, 0);
      ScaleDownPhase(g, condemned, first, |condemned|);
      RollingPanic(g, Recreated(g, reps), |reps|);
      WantedUpdated(g, pods, 0);
      WantedHealthy(g, pods, g.replicaCount);
      UpdatedIsHealthy(g, pods);
      NoneCondemned(g, pods, condemned);
    }
  }

  lemma UpdatedIsHealthy(g: Goal, pods: seq<Pod>)
    ensures UpdatedBetween(g, pods, 0, g.replicaCount) ==> HealthyBetween(g, pods, 0, g.replicaCount)
  {
  }

  lemma NoneCondemned(g: Goal, pods: seq<Pod>, condemned: seq<Pod>)
    requires CondemnedOrder(g, pods, condemned)
    ensures condemned == [] <==> forall p :: p in pods ==> !g.Condemns(p.ordinal)
  {
    forall p
      ensures p in condemned <==> p in pods && g.Condemns(p.ordinal)
    {
      CondemnedMember(g, pods, condemned, p);
    }
    assert condemned != [] ==> condemned[0] in condemned;
  }

  lemma ScanMisses(g: Goal, pods: seq<Pod>, condemned: seq<Pod>)
    requires CondemnedOrder(g, pods, condemned) && 0 <= g.replicaCount <= Slots.MAX_INT32
    ensures var all := Present(Replicas(g, pods)) + condemned;
            SomeUnhealthy(all) && FirstUnhealthy(all).None? <==> BlindSpot(g, pods)
  {
    hide CondemnedOrder, FirstUnhealthy, Present, HealthyBetween, Replicas;
    var present := Present(Replicas(g, pods));
    var all := present + condemned;
    forall p
      ensures p in condemned <==> p in pods && g.Condemns(p.ordinal)
    {
      CondemnedMember(g, pods, condemned, p);
    }
    PresentHealthy(g, pods);
    if !HealthyBetween(g, pods, 0, g.replicaCount) {
      var p :| p in present && !p.IsHealthy();
      assert p in all && p.ordinal < Slots.MAX_INT32;
    } else {
      assert forall p :: p in all && !p.IsHealthy() ==> p in condemned;
      assert forall p :: p in condemned ==> p in all;
    }
  }

  /** The wanted pods of the scan. */
  lemma PresentHealthy(g: Goal, pods: seq<Pod>)
    requires 0 <= g.replicaCount <= Slots.MAX_INT32
    ensures var present := Present(Replicas(g, pods));
            && (HealthyBetween(g, pods, 0, g.replicaCount) <==> forall p :: p in present ==> p.IsHealthy())
            && forall p :: p in present ==> p.ordinal < Slots.MAX_INT32
  {
    var reps := Replicas(g, pods);
    WantedHealthy(g, pods, g.replicaCount);
    forall p | p in Present(reps)
      ensures p.ordinal < Slots.MAX_INT32
      ensures HealthySome(reps, 0, |reps|) ==> p.IsHealthy()
    {
      var i :| 0 <= i < |reps| && reps[i] == Some(p);
      assert reps[i] == Replica(g, pods, i);
    }
    if !HealthySome(reps, 0, |reps|) {
      var i :| 0 <= i < |reps| && reps[i].Some? && !reps[i].value.IsHealthy();
      assert reps[i].value in Present(reps);
    }
  }

  lemma WantedHealthy(g: Goal, pods: seq<Pod>, hi: nat)
    requires hi <= g.replicaCount
    ensures HealthySome(Replicas(g, pods), 0, hi) <==> HealthyBetween(g, pods, 0, hi)
  {
    assert forall j :: 0 <= j < g.replicaCount ==> Replicas(g, pods)[j] == Replica(g, pods, j);
    if HealthySome(Replicas(g, pods), 0, hi) {
      AllWantedHealthy(g, pods, 0, hi);
    }
  }

  lemma WantedUpdated(g: Goal, pods: seq<Pod>, lo: nat)
    requires 0 <= g.replicaCount
    ensures UpdatedSome(g, Recreated(g, Replicas(g, pods)), lo, g.replicaCount)
            <==> UpdatedBetween(g, pods, lo, g.replicaCount)
  {
    var reps := Recreated(g, Replicas(g, pods));
    assert forall j :: 0 <= j < g.replicaCount ==> Replicas(g, pods)[j] == Replica(g, pods, j);
    if UpdatedSome(g, reps, lo, g.replicaCount) {
      forall j | lo <= j < g.replicaCount && g.Wants(j)
        ensures HealthyAt(pods, j) && PodAt(pods, j).value.revision == g.update
      {
        assert reps[j].Some?;
      }
    }
  }

  lemma {:induction false} RollingPanic(g: Goal, reps: seq<Option<Pod>>, n: nat)
    requires n <= |reps|
    ensures RollingPlan(g, reps, n).ending.Panic? <==> g.UpdateMin() < 0 && UpdatedSome(g, reps, 0, n)
  {
    if n > 0 {
      RollingPanic(g, reps, n - 1);
    }
  }
}
