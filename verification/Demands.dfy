/** What a sync has to do: the calls of a sync that does not panic are exactly those that
    the snapshot asks for, in this order. */
module Demands {
  import opened Pods
  import opened Planning
  import opened StepSafety
  import opened Completion
  import opened Conservation
  import opened Reconcile
  import Names
  import Slots

  /** The sync gets to this wanted ordinal: it is parallel, or all wanted pods below are
      healthy. */
  ghost predicate Reached(g: Goal, pods: seq<Pod>, j: int) {
    g.Wants(j) && (g.ordered ==> HealthyBetween(g, pods, 0, j))
  }

  // ------------------------------------------------------------- the replica loop

  /** A reached replica gets its calls; an unhealthy one of an ordered set no update. */
  lemma {:induction false} ReachedIncluded(g: Goal, reps: seq<Option<Pod>>, i: nat, k: nat, a: Action)
    requires i <= k < |reps| && reps[k].Some? && a in ReplicaActions(g, reps[k].value, k)
    requires g.ordered ==> HealthySome(reps, i, k) && (a.Update? ==> reps[k].value.IsHealthy())
    ensures a in ReplicaPlan(g, reps, i).actions
    decreases k - i
  {
    if i < k {
      ReachedIncluded(g, reps, i + 1, k, a);
    }
  }

  lemma {:induction false} FromReached(g: Goal, reps: seq<Option<Pod>>, i: nat, a: Action)
    requires i <= |reps| && a in ReplicaPlan(g, reps, i).actions
    ensures exists k :: i <= k < |reps| && reps[k].Some? && a in ReplicaActions(g, reps[k].value, k)
                        && (g.ordered ==> HealthySome(reps, i, k) && (a.Update? ==> reps[k].value.IsHealthy()))
    decreases |reps| - i
  {
    if reps[i].None? || a !in ReplicaActions(g, reps[i].value, i) {
      FromReached(g, reps, i + 1, a);
      var k :| i + 1 <= k < |reps| && reps[k].Some? && a in ReplicaActions(g, reps[k].value, k)
               && (g.ordered ==> HealthySome(reps, i + 1, k) && (a.Update? ==> reps[k].value.IsHealthy()));
      assert g.ordered ==> HealthySome(reps, i, k);
    } else {
      assert HealthySome(reps, i, i);
    }
  }

  /** The calls of the replica loop, on the snapshot. */
  ghost predicate Asked(g: Goal, pods: seq<Pod>, j: int, a: Action) {
    && Reached(g, pods, j) && a in ReplicaActions(g, Replica(g, pods, j).value, j)
    && (g.ordered && a.Update? ==> HealthyAt(pods, j))
  }

  lemma AskedFor(g: Goal, pods: seq<Pod>, condemned: seq<Pod>, a: Action)
    requires !g.deleting && !PhasePlan(g, pods, condemned).ending.Panic?
    requires a.Create? || a.Update? || a.DeleteFailed?
    ensures a in PhasePlan(g, pods, condemned).actions <==> exists j :: Asked(g, pods, j, a)
  {
    hide PhasePlan, ReplicaPlan, Asked, ReplicaActions, Replica;
    HeadIs(g, pods, condemned, a);
    if a in PhasePlan(g, pods, condemned).actions {
      AskedBack(g, pods, a);
    }
    if exists j :: Asked(g, pods, j, a) {
      var j :| Asked(g, pods, j, a);
      AskedForth(g, pods, j, a);
    }
  }

  lemma HeadIs(g: Goal, pods: seq<Pod>, condemned: seq<Pod>, a: Action)
    requires !g.deleting && !PhasePlan(g, pods, condemned).ending.Panic?
    requires a.Create? || a.Update? || a.DeleteFailed?
    ensures 0 <= g.replicaCount
    ensures a in PhasePlan(g, pods, condemned).actions <==> a in ReplicaPlan(g, Replicas(g, pods), 0).actions
  {
    var reps := Replicas(g, pods);
    var first := FirstUnhealthy(Present(reps) + condemned);
    hide FirstUnhealthy, Present, ReplicaPlan, ScaleDownPlan, RollingPlan, Replicas, Recreated, SomeUnhealthy;
    ScaleDownPhase(g, condemned, first, |condemned|);
    RollingPhase(g, Recreated(g, reps), |reps|);
  }

  lemma AskedBack(g: Goal, pods: seq<Pod>, a: Action)
    requires 0 <= g.replicaCount && a in ReplicaPlan(g, Replicas(g, pods), 0).actions
    ensures exists j :: Asked(g, pods, j, a)
  {
    var reps := Replicas(g, pods);
    FromReached(g, reps, 0, a);
    hide ReplicaPlan, HealthySome, HealthyBetween, ReplicaActions, PodAt;
    var k :| 0 <= k < |reps| && reps[k].Some? && a in ReplicaActions(g, reps[k].value, k)
             && (g.ordered ==> HealthySome(reps, 0, k) && (a.Update? ==> reps[k].value.IsHealthy()));
    if g.ordered {
      AllWantedHealthy(g, pods, 0, k);
    }
    assert reps[k] == Replica(g, pods, k);
    assert Asked(g, pods, k, a);
  }

  lemma AskedForth(g: Goal, pods: seq<Pod>, j: int, a: Action)
    requires 0 <= g.replicaCount && Asked(g, pods, j, a)
    ensures a in ReplicaPlan(g, Replicas(g, pods), 0).actions
  {
    hide ReplicaPlan, HealthySome, HealthyBetween, ReplicaActions, PodAt;
    assert Replicas(g, pods)[j] == Replica(g, pods, j);
    WantedHealthy(g, pods, j);
    ReachedIncluded(g, Replicas(g, pods), 0, j, a);
  }

  /** A pod is repaired exactly if it is the pod of a wanted ordinal the sync gets to, lives,
      has not failed and lacks the set's identity or storage; an ordered sync repairs it only
      if it is healthy. */
  lemma RepairedExactly(g: Goal, pods: seq<Pod>, condemned: seq<Pod>, p: Pod)
    requires !g.deleting && !PhasePlan(g, pods, condemned).ending.Panic?
    ensures Update(p) in PhasePlan(g, pods, condemned).actions
            <==> exists j :: g.Wants(j) && PodAt(pods, j) == Some(p)
                             && p.phase != NoPhase && p.phase != Failed && !p.conforms
                             && (g.ordered ==> HealthyBetween(g, pods, 0, j + 1))
  {
    hide PhasePlan, HealthyBetween;
    AskedFor(g, pods, condemned, Update(p));
    forall j
      ensures Asked(g, pods, j, Update(p))
              <==> g.Wants(j) && PodAt(pods, j) == Some(p)
                   && p.phase != NoPhase && p.phase != Failed && !p.conforms
                   && (g.ordered ==> HealthyBetween(g, pods, 0, j + 1))
    {
      if g.Wants(j) {
        OneFurther(g, pods, j);
      }
    }
  }

  lemma OneFurther(g: Goal, pods: seq<Pod>, j: int)
    requires g.Wants(j)
    ensures HealthyBetween(g, pods, 0, j + 1) <==> HealthyBetween(g, pods, 0, j) && HealthyAt(pods, j)
  {
  }

  /** A pod is created exactly at a wanted ordinal the sync gets to: the new pod of that
      ordinal where none is listed or a failed one, or the listed one if it is yet to be
      created. */
  lemma CreatedExactly(g: Goal, pods: seq<Pod>, condemned: seq<Pod>, p: Pod)
    requires !g.deleting && !PhasePlan(g, pods, condemned).ending.Panic?
    ensures Create(p) in PhasePlan(g, pods, condemned).actions
            <==> exists j :: g.Wants(j) && (g.ordered ==> HealthyBetween(g, pods, 0, j))
                             && match PodAt(pods, j)
                                case None => p == g.NewPod(j)
                                case Some(q) => if q.phase == Failed then p == g.NewPod(j)
                                                else q.phase == NoPhase && p == q
  {
    hide PhasePlan, HealthyBetween, Names.PodName;
    AskedFor(g, pods, condemned, Create(p));
    forall j
      ensures Asked(g, pods, j, Create(p))
              <==> g.Wants(j) && (g.ordered ==> HealthyBetween(g, pods, 0, j))
                   && match PodAt(pods, j)
                      case None => p == g.NewPod(j)
                      case Some(q) => if q.phase == Failed then p == g.NewPod(j) else q.phase == NoPhase && p == q
    {
    }
  }

  // ------------------------------------------------------------------ scaling down

  /** The condemned pod an ordered sync deletes: the last in their order, once all wanted
      pods are healthy, if it is not terminating, and if it is ready or every condemned pod
      before it is healthy. */
  ghost predicate NextToGo(g: Goal, pods: seq<Pod>, condemned: seq<Pod>, p: Pod) {
    && HealthyBetween(g, pods, 0, g.replicaCount)
    && condemned != [] && p == condemned[|condemned| - 1] && !p.terminating
    && ((p.phase == Running && p.ready)
        || exists i :: 0 <= i < |condemned| && condemned[i] == p && AllHealthy(condemned[..i]))
  }

  ghost predicate AllHealthy(pods: seq<Pod>) {
    forall q :: q in pods ==> q.phase == Running && q.ready && !q.terminating
  }

  /** A condemned pod is deleted exactly if the sync is parallel and it is not terminating,
      or if it is the next to go. */
  lemma CondemnedExactly(g: Goal, pods: seq<Pod>, condemned: seq<Pod>, p: Pod)
    requires !g.deleting && CondemnedOrder(g, pods, condemned) && !PhasePlan(g, pods, condemned).ending.Panic?
    ensures DeleteCondemned(p) in PhasePlan(g, pods, condemned).actions
            <==> if g.ordered then NextToGo(g, pods, condemned, p)
                 else p in pods && g.Condemns(p.ordinal) && !p.terminating
  {
    var reps := Replicas(g, pods);
    var first := FirstUnhealthy(Present(reps) + condemned);
    MiddleIs(g, pods, condemned, p);
    hide PhasePlan, ScaleDownPlan, FirstUnhealthy, Present, CondemnedOrder, HealthyBetween, HealthySome, Replicas;
    ReplicaPhaseEnd(g, reps, 0);
    WantedHealthy(g, pods, g.replicaCount);
    CondemnedMember(g, pods, condemned, p);
    if !g.ordered {
      ScaleDownAllOf(g, condemned, first, |condemned|, p);
    } else if HealthyBetween(g, pods, 0, g.replicaCount) {
      TopExactly(g, pods, condemned, p);
    }
  }

  lemma MiddleIs(g: Goal, pods: seq<Pod>, condemned: seq<Pod>, p: Pod)
    requires !g.deleting && !PhasePlan(g, pods, condemned).ending.Panic?
    ensures 0 <= g.replicaCount
    ensures var first := FirstUnhealthy(Present(Replicas(g, pods)) + condemned);
            DeleteCondemned(p) in PhasePlan(g, pods, condemned).actions
            <==> ReplicaPlan(g, Replicas(g, pods), 0).ending.Through?
                 && DeleteCondemned(p) in ScaleDownPlan(g, condemned, first, |condemned|).actions
  {
    var reps := Replicas(g, pods);
    var first := FirstUnhealthy(Present(reps) + condemned);
    hide FirstUnhealthy, Present, ReplicaPlan, ScaleDownPlan, RollingPlan, Replicas, Recreated, SomeUnhealthy;
    RollingPhase(g, Recreated(g, reps), |reps|);
    if DeleteCondemned(p) in ReplicaPlan(g, reps, 0).actions {
      ReplicaLicensed(g, pods, DeleteCondemned(p));
    }
  }

  lemma {:induction false} ScaleDownAllOf(g: Goal, condemned: seq<Pod>, first: Option<Pod>, n: nat, p: Pod)
    requires !g.ordered && n <= |condemned|
    ensures DeleteCondemned(p) in ScaleDownPlan(g, condemned, first, n).actions
            <==> p in condemned[..n] && !p.terminating
  {
    if n > 0 {
      ScaleDownAllOf(g, condemned, first, n - 1, p);
      assert condemned[..n] == condemned[..n - 1] + [condemned[n - 1]];
    } else {
      assert condemned[..0] == [];
    }
    assert n == |condemned| ==> condemned[..n] == condemned;
  }

  lemma TopExactly(g: Goal, pods: seq<Pod>, condemned: seq<Pod>, p: Pod)
    requires g.ordered && !g.deleting && CondemnedOrder(g, pods, condemned) && 0 <= g.replicaCount
    requires !PhasePlan(g, pods, condemned).ending.Panic? && HealthyBetween(g, pods, 0, g.replicaCount)
    ensures var first := FirstUnhealthy(Present(Replicas(g, pods)) + condemned);
            DeleteCondemned(p) in ScaleDownPlan(g, condemned, first, |condemned|).actions
            <==> NextToGo(g, pods, condemned, p)
  {
    var present := Present(Replicas(g, pods));
    WantedHealthy(g, pods, g.replicaCount);
    AllPresentHealthy(Replicas(g, pods));
    NoBlindSpot(g, pods, condemned);
    assert Planning.Ascending(condemned);
    hide PhasePlan, FirstUnhealthy, Present, HealthyBetween, Replicas, CondemnedOrder, AllHealthy;
    if condemned != [] {
      var top := condemned[|condemned| - 1];
      if !top.IsHealthy() && !top.terminating {
        FirstOfCondemned(present, condemned);
      }
    }
  }

  lemma AllPresentHealthy(reps: seq<Option<Pod>>)
    requires HealthySome(reps, 0, |reps|)
    ensures forall p :: p in Present(reps) ==> p.IsHealthy()
  {
    forall p | p in Present(reps)
      ensures p.IsHealthy()
    {
      var i :| 0 <= i < |reps| && reps[i] == Some(p);
    }
  }

  lemma NoBlindSpot(g: Goal, pods: seq<Pod>, condemned: seq<Pod>)
    requires 0 <= g.replicaCount && !PhasePlan(g, pods, condemned).ending.Panic?
    ensures var all := Present(Replicas(g, pods)) + condemned;
            SomeUnhealthy(all) ==> FirstUnhealthy(all).Some?
  {
  }

  lemma FirstUnhealthyAt(pods: seq<Pod>) returns (k: nat)
    requires SomeUnhealthy(pods)
    ensures k < |pods| && !pods[k].IsHealthy() && forall i :: 0 <= i < k ==> pods[i].IsHealthy()
  {
    k := 0;
    while pods[k].IsHealthy()
      invariant k < |pods| && forall i :: 0 <= i < k ==> pods[i].IsHealthy()
      invariant exists i :: k <= i < |pods| && !pods[i].IsHealthy()
      decreases |pods| - k
    {
      k := k + 1;
    }
  }

  /** With healthy pods before it, an ascending list's first unhealthy pod is the one found. */
  lemma FirstOfCondemned(present: seq<Pod>, condemned: seq<Pod>)
    requires condemned != [] && Planning.Ascending(condemned) && forall p :: p in present ==> p.IsHealthy()
    requires SomeUnhealthy(present + condemned) ==> FirstUnhealthy(present + condemned).Some?
    requires !condemned[|condemned| - 1].IsHealthy()
    ensures var top := condemned[|condemned| - 1];
            FirstUnhealthy(present + condemned) == Some(top)
            <==> exists i :: 0 <= i < |condemned| && condemned[i] == top && AllHealthy(condemned[..i])
  {
    var all, top := present + condemned, condemned[|condemned| - 1];
    assert top in condemned && top in all;
    var k := FirstUnhealthyAt(condemned);
    var found := FirstUnhealthy(all).value;
    assert found in condemned;
    var h :| 0 <= h < |condemned| && condemned[h] == found;
    assert k <= h;
    FirstAt(present, condemned, k);
    forall i | 0 <= i < |condemned|
      ensures condemned[i] == top && AllHealthy(condemned[..i]) ==> i == k
    {
      if k < i {
        assert condemned[..i][k] == condemned[k];
      }
    }
    assert AllHealthy(condemned[..k]);
  }

  lemma FirstAt(present: seq<Pod>, condemned: seq<Pod>, k: nat)
    requires k < |condemned| && Planning.Ascending(condemned) && forall p :: p in present ==> p.IsHealthy()
    requires !condemned[k].IsHealthy() && forall i :: 0 <= i < k ==> condemned[i].IsHealthy()
    requires condemned[k].ordinal < Slots.MAX_INT32
    ensures FirstUnhealthy(present + condemned) == Some(condemned[k])
  {
    hide FirstUnhealthy;
    var all, n := present + condemned, |present| + k;
    assert all[n] == condemned[k];
    assert forall j :: 0 <= j < |present| ==> all[j] in present;
    forall j | |present| <= j < |all| && !all[j].IsHealthy()
      ensures n <= j && all[n].ordinal <= all[j].ordinal
    {
      assert all[j] == condemned[j - |present|];
    }
    FirstFoundWins(all, n);
  }

  // --------------------------------------------------------------- the rolling update

  /** The pod at a wanted ordinal once the replica loop is through. */
  function Standing(g: Goal, pods: seq<Pod>, j: int): Pod {
    if PodAt(pods, j).Some? && PodAt(pods, j).value.phase != Failed then PodAt(pods, j).value else g.NewPod(j)
  }

  /** A wanted ordinal is done: its pod is running, ready, not terminating and updated. */
  ghost predicate DoneAt(g: Goal, pods: seq<Pod>, j: int) {
    && PodAt(pods, j).Some?
    && var p := PodAt(pods, j).value;
       p.phase == Running && p.ready && !p.terminating && p.revision == g.update
  }

  /** The ordinal whose pod the rolling update deletes: at or above the partition, not at
      the update revision, not terminating, and with all wanted ordinals above done. */
  ghost predicate DueAt(g: Goal, pods: seq<Pod>, t: int) {
    && g.Wants(t) && (g.rollingUpdate.Some? && g.rollingUpdate.value.Some? ==> g.rollingUpdate.value.value <= t)
    && Standing(g, pods, t).revision != g.update && !Standing(g, pods, t).terminating
    && forall j :: t < j && g.Wants(j) ==> DoneAt(g, pods, j)
  }

  /** A pod is deleted for the update exactly if the strategy is not OnDelete, its ordinal is
      due, and, in an ordered set, all wanted pods are healthy and none is condemned. */
  lemma OutdatedExactly(g: Goal, pods: seq<Pod>, condemned: seq<Pod>, p: Pod)
    requires !g.deleting && CondemnedOrder(g, pods, condemned) && !PhasePlan(g, pods, condemned).ending.Panic?
    ensures DeleteOutdated(p) in PhasePlan(g, pods, condemned).actions
            <==> !g.strategy.OnDelete? && (exists t :: DueAt(g, pods, t) && p == Standing(g, pods, t))
                 && (g.ordered ==> HealthyBetween(g, pods, 0, g.replicaCount)
                                   && forall q :: q in pods ==> !g.Condemns(q.ordinal))
  {
    PlanContinues(g, pods, condemned);
    hide CondemnedOrder, PhasePlan, HealthyBetween, OutdatedAt, DueAt, Names.PodName;
    OutdatedDeleted(g, pods, condemned, p);
    forall t: nat
      ensures OutdatedAt(g, pods, t, p) <==> DueAt(g, pods, t) && p == Standing(g, pods, t)
    {
      DueMeans(g, pods, t, p);
    }
    forall t | DueAt(g, pods, t)
      ensures 0 <= t
    {
      DueWanted(g, pods, t);
    }
  }

  lemma DueWanted(g: Goal, pods: seq<Pod>, t: int)
    requires DueAt(g, pods, t)
    ensures 0 <= t
  {
  }

  lemma DueMeans(g: Goal, pods: seq<Pod>, t: nat, p: Pod)
    requires 0 <= g.replicaCount
    ensures OutdatedAt(g, pods, t, p) <==> DueAt(g, pods, t) && p == Standing(g, pods, t)
  {
    hide Names.PodName;
    if g.Wants(t) {
      assert Replicas(g, pods)[t] == Replica(g, pods, t);
    }
    forall j | t < j && g.Wants(j)
      ensures DoneAt(g, pods, j) <==> HealthyAt(pods, j) && PodAt(pods, j).value.revision == g.update
    {
    }
  }

  // --------------------------------------------------------------------- the order

  function Phase(a: Action): nat {
    match a
    case DeleteCondemned(_) => 1
    case DeleteOutdated(_) => 2
    case _ => 0
  }

  /** Wanted ordinals upwards, a failed pod's deletion before its successor's creation; then
      condemned ordinals downwards; then the update. */
  ghost predicate Precedes(a: Action, b: Action) {
    || Phase(a) < Phase(b)
    || (Phase(a) == Phase(b) == 0
        && (a.pod.ordinal < b.pod.ordinal || (a.pod.ordinal == b.pod.ordinal && a.DeleteFailed? && b.Create?)))
    || (Phase(a) == Phase(b) == 1 && a.pod.ordinal >= b.pod.ordinal)
  }

  ghost predicate InOrder(calls: seq<Action>) {
    forall i, j :: 0 <= i < j < |calls| ==> Precedes(calls[i], calls[j])
  }

  lemma ConcatInOrder(a: seq<Action>, b: seq<Action>)
    requires InOrder(a) && InOrder(b) && forall x, y :: x in a && y in b ==> Precedes(x, y)
    ensures InOrder(a + b)
  {
    hide Precedes;
    var all := a + b;
    forall i, j | 0 <= i < j < |all|
      ensures Precedes(all[i], all[j])
    {
      assert i < |a| ==> all[i] in a;
      assert j >= |a| ==> all[j] in b;
      assert j < |a| ==> Precedes(a[i], a[j]);
      assert i >= |a| ==> Precedes(b[i - |a|], b[j - |a|]);
    }
  }

  /** The calls of one replica are about its ordinal. */
  lemma OneReplicaInOrder(g: Goal, pods: seq<Pod>, i: nat)
    requires g.Wants(i)
    ensures var acts := ReplicaActions(g, Replica(g, pods, i).value, i);
            InOrder(acts) && forall a :: a in acts ==> Phase(a) == 0 && a.pod.ordinal == i
  {
  }

  lemma {:induction false} ReplicasInOrder(g: Goal, pods: seq<Pod>, i: nat)
    requires i <= g.replicaCount
    ensures var acts := ReplicaPlan(g, Replicas(g, pods), i).actions;
            InOrder(acts) && forall a :: a in acts ==> Phase(a) == 0 && i <= a.pod.ordinal
    decreases g.replicaCount - i
  {
    hide ReplicaActions, ReplicaPlan, InOrder, Replicas;
    NothingAfter(g, Replicas(g, pods));
    assert InOrder([]) by {
      EmptyInOrder();
    }
    if i < g.replicaCount {
      ReplicasInOrder(g, pods, i + 1);
      var rest := ReplicaPlan(g, Replicas(g, pods), i + 1).actions;
      if g.Wants(i) {
        OneReplicaInOrder(g, pods, i);
        ConcatInOrder(ReplicaActions(g, Replica(g, pods, i).value, i), rest);
        if !g.ordered || Replica(g, pods, i).value.IsHealthy() {
          ReplicaFirst(g, pods, i);
        } else {
          ReplicaStops(g, pods, i);
        }
      } else {
        NoReplica(g, pods, i);
        SkippedSlot(g, Replicas(g, pods), i);
      }
    }
  }

  lemma EmptyInOrder()
    ensures InOrder([])
  {
  }

  lemma {:induction false} ScaleDownInOrder(g: Goal, condemned: seq<Pod>, first: Option<Pod>, n: nat)
    requires n <= |condemned| && Planning.Ascending(condemned)
    ensures var acts := ScaleDownPlan(g, condemned, first, n).actions;
            InOrder(acts) && forall a :: a in acts ==> Phase(a) == 1 && n > 0 && a.pod.ordinal <= condemned[n - 1].ordinal
  {
    if n > 0 {
      var pod := condemned[n - 1];
      var rest := ScaleDownPlan(g, condemned, first, n - 1).actions;
      ScaleDownInOrder(g, condemned, first, n - 1);
      ConcatInOrder([DeleteCondemned(pod)], rest);
    }
  }

  /** The calls of a sync come in this order. */
  lemma CallsInOrder(g: Goal, pods: seq<Pod>, condemned: seq<Pod>)
    requires CondemnedOrder(g, pods, condemned)
    ensures InOrder(SyncPlan(g, pods, condemned).actions)
  {
    var actions := PhasePlan(g, pods, condemned).actions;
    PlanWithin(g, pods, condemned);
    if actions == [] {
      EmptyInOrder();
    } else {
      PlanShape(g, pods, condemned);
      var reps := Replicas(g, pods);
      var first := FirstUnhealthy(Present(reps) + condemned);
      assert Planning.Ascending(condemned);
      hide CondemnedOrder, SyncPlan, PhasePlan, ReplicaPlan, ScaleDownPlan, RollingPlan, Replicas, Present, FirstUnhealthy;
      hide InOrder, Recreated;
      var last := UpdatePlan(g, Recreated(g, reps)).actions;
      ReplicasInOrder(g, pods, 0);
      ScaleDownInOrder(g, condemned, first, |condemned|);
      RollingInOrder(g, Recreated(g, reps));
      var middle := ScaleDownPlan(g, condemned, first, |condemned|).actions;
      ConcatInOrder(middle, last);
      ConcatInOrder(ReplicaPlan(g, reps, 0).actions, middle);
      ConcatInOrder(ReplicaPlan(g, reps, 0).actions, middle + last);
    }
    PrefixInOrder(SyncPlan(g, pods, condemned).actions, actions);
  }

  lemma RollingInOrder(g: Goal, reps: seq<Option<Pod>>)
    ensures var acts := UpdatePlan(g, reps).actions;
            InOrder(acts) && forall a :: a in acts ==> Phase(a) == 2
  {
    RollingPhase(g, reps, |reps|);
  }

  lemma PrefixInOrder(some: seq<Action>, all: seq<Action>)
    requires some <= all && InOrder(all)
    ensures InOrder(some)
  {
    forall i, j | 0 <= i < j < |some|
      ensures Precedes(some[i], some[j])
    {
      assert some[i] == all[i] && some[j] == all[j];
    }
  }

  // -------------------------------------------------------------------- completion

  /** All listed pods are running, ready, not terminating and at the update revision. */
  ghost predicate EveryPodUpdated(g: Goal, pods: seq<Pod>) {
    forall p :: p in pods ==> p.phase == Running && p.ready && !p.terminating && p.revision == g.update
  }

  /** Every wanted ordinal has a listed pod and no condemned one has. */
  ghost predicate WantedOnly(g: Goal, pods: seq<Pod>) {
    && (forall j :: g.Wants(j) ==> exists p :: p in pods && p.ordinal == j)
    && (forall p :: p in pods ==> !g.Condemns(p.ordinal))
  }

  lemma {:induction false} UpdatesKeepStatus(g: Goal, s: Status, calls: seq<Action>)
    requires forall a :: a in calls ==> a.Update?
    ensures Settle(g, s, calls) == s
  {
    if calls != [] {
      assert calls[|calls| - 1] in calls;
      UpdatesKeepStatus(g, s, calls[..|calls| - 1]);
    }
  }

  lemma NothingToCreate(g: Goal, pods: seq<Pod>, p: Pod)
    requires EveryPodUpdated(g, pods) && WantedOnly(g, pods)
    ensures !Licensed(g, pods, Create(p))
  {
    assert g.Wants(p.ordinal) ==> PodAt(pods, p.ordinal).Some?;
  }

  /** With the wanted pods only, all updated, a sync does nothing but repair pods. */
  lemma NothingToDo(g: Goal, pods: seq<Pod>, condemned: seq<Pod>, a: Action)
    requires CondemnedOrder(g, pods, condemned) && EveryPodUpdated(g, pods) && WantedOnly(g, pods)
    requires a in PhasePlan(g, pods, condemned).actions
    ensures a.Update?
  {
    hide CondemnedOrder, PhasePlan, Names.PodName;
    var head, tail := PlanParts(g, pods, condemned);
    PhaseLicensed(g, pods, condemned, a);
    NothingToCreate(g, pods, a.pod);
    if Create(a.pod) in PhasePlan(g, pods, condemned).actions {
      PhaseLicensed(g, pods, condemned, Create(a.pod));
      assert false;
    }
    assert forall b :: b in head ==> b in head + tail;
    assert a in head || a in tail;
  }

  /** A sync completes the rolling update exactly if every listed pod is live, ready and
      updated, and, unless the set is being deleted, the pods are the wanted ones. */
  lemma CompletesExactly(g: Goal, pods: seq<Pod>, condemned: seq<Pod>, faults: set<nat>, calls: seq<Action>)
    requires CondemnedOrder(g, pods, condemned) && Executes(SyncPlan(g, pods, condemned), faults, calls, Returned)
    ensures Completes(g.strategy, Settle(g, Observe(g, pods), calls))
            <==> g.strategy.RollingUpdate? && EveryPodUpdated(g, pods) && (g.deleting || WantedOnly(g, pods))
  {
    CallsWithin(g, pods, condemned, faults, calls, Returned);
    TallyFull(Ready, pods);
    TallyFull(LiveAt(g.update), pods);
    if g.deleting {
      assert calls == [];
    } else {
      hide CondemnedOrder, PhasePlan, SyncPlan, Settle, Names.PodName;
      if Completes(g.strategy, Settle(g, Observe(g, pods), calls)) {
        CompletionSound(g, pods, condemned, faults, calls);
        UpdatesKeepStatus(g, Observe(g, pods), calls);
        NoneCondemnedAtGoal(g, pods);
      }
      if EveryPodUpdated(g, pods) && WantedOnly(g, pods) {
        forall a | a in calls
          ensures a.Update?
        {
          NothingToDo(g, pods, condemned, a);
        }
        UpdatesKeepStatus(g, Observe(g, pods), calls);
      }
    }
  }

  /** Pods whose ordinals are wanted exactly if they are not negative are not condemned. */
  lemma NoneCondemnedAtGoal(g: Goal, pods: seq<Pod>)
    requires 0 <= g.replicaCount
    requires forall j :: g.Wants(j) <==> exists p :: p in pods && p.ordinal == j && (0 <= j || j in g.slots)
    ensures WantedOnly(g, pods)
  {
    forall p | p in pods
      ensures !g.Condemns(p.ordinal)
    {
      var j := p.ordinal;
      assert 0 <= j || j in g.slots ==> g.Wants(j);
    }
  }
}
