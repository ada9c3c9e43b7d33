/** A pod named after the set whose number is too large: no sync touches it, but it counts. */
module Outsider {
  import opened Pods
  import opened Planning
  import opened StepSafety
  import opened Conservation
  import opened Convergence
  import opened Unpartitioned
  import Names

  /** A set of one that updates from "a" to "b" with this stored count. */
  function RollingGoal(currentReplicas: int): Goal {
    Goal("web", 1, {}, RollingUpdate, None, true, false, "a", "b", currentReplicas, 1, 0)
  }

  /** The number of "web-4294967296" does not fit an int32. The pod is neither wanted nor
      condemned but counts as a current replica, so the stored count never falls to zero:
      the update deletes "web-0" and the next sync builds it at the old revision, for ever. */
  lemma IgnoredPodLivelocks(p: Pod, q: Pod)
    requires p == Pod(Names.PodName("web", 0), 0, "a", Running, true, false, true)
    requires q == Pod(Names.PodName("web", 0x1_0000_0000), -1, "a", Running, true, false, true)
    ensures Names.Ordinal(p.name) == p.ordinal && Names.Ordinal(q.name) == q.ordinal && p.name != q.name
    ensures var g, g' := RollingGoal(2), RollingGoal(1);
            var m, m' := map[p.name := p, q.name := q], map[q.name := q];
            var first, second := [DeleteOutdated(p)], [Create(g'.NewPod(0))];
            && WellKept(m, Names.Ordinal) && !Orderly("web", m, Names.Ordinal)
            && Round(g, m, m', [p, q], [], first) && Next(g, g', [p, q], first)
            && Round(g', m', m, [q], [], second) && Next(g', g, [q], second)
  {
    Names.ParsePodName("web", 0);
    Names.ParsePodName("web", 0x1_0000_0000);
    hide Names.PodName, Names.Ordinal, Round, Next, Orderly;
    DeletesOutdated(p, q);
    BuildsOld(p, q);
    PairKept(p, q, Names.Ordinal);
  }

  /** The plan of a set of one whose pod is outdated. */
  lemma PlanOfOutdated(pods: seq<Pod>, p: Pod)
    requires PodAt(pods, 0) == Some(p) && p.IsHealthy() && p.conforms && p.revision == "a"
    requires forall q :: q in pods ==> q.ordinal <= 0
    ensures CondemnedOrder(RollingGoal(2), pods, [])
    ensures SyncPlan(RollingGoal(2), pods, []) == Plan([DeleteOutdated(p)], Stop)
  {
    var g := RollingGoal(2);
    var reps := Replicas(g, pods);
    NothingToCondemn(g, pods);
    assert reps == [Some(p)];
    assert Present(reps) == [p] by {
      assert reps[..0] == [] && Present(reps[..0]) == [];
    }
    OutdatedPhases(g, p);
    hide ReplicaPlan, RollingPlan, Present, Replicas, Recreated, FirstUnhealthy, ReplicaActions;
    assert PhasePlan(g, pods, []) == Plan([DeleteOutdated(p)], Stop);
  }

  lemma OutdatedPhases(g: Goal, p: Pod)
    requires g == RollingGoal(2) && p.IsHealthy() && p.conforms && p.revision == "a"
    ensures ReplicaPlan(g, [Some(p)], 0) == Plan([], Through)
    ensures Recreated(g, [Some(p)]) == [Some(p)]
    ensures RollingPlan(g, [Some(p)], 1) == Plan([DeleteOutdated(p)], Stop)
  {
    assert ReplicaActions(g, p, 0) == [];
    assert ReplicaPlan(g, [Some(p)], 1) == Plan([], Through);
  }

  /** The plan of a set of one without a pod. */
  lemma PlanOfMissing(pods: seq<Pod>)
    requires PodAt(pods, 0) == None && forall q :: q in pods ==> q.ordinal <= 0
    ensures CondemnedOrder(RollingGoal(1), pods, [])
    ensures SyncPlan(RollingGoal(1), pods, []) == Plan([Create(RollingGoal(1).NewPod(0))], Stop)
  {
    var g := RollingGoal(1);
    var new_ := g.NewPod(0);
    hide Names.PodName;
    var reps := Replicas(g, pods);
    NothingToCondemn(g, pods);
    assert reps == [Some(new_)];
    assert Present(reps) == [new_] by {
      assert reps[..0] == [] && Present(reps[..0]) == [];
    }
    assert ReplicaPlan(g, reps, 0) == Plan([Create(new_)], Stop);
    assert new_ in Present(reps) + [] && new_.ordinal == 0;
    assert FirstUnhealthy(Present(reps) + []).Some?;
    hide ReplicaPlan, Present, Replicas, Recreated, FirstUnhealthy, RollingPlan;
    assert PhasePlan(g, pods, []) == Plan([Create(new_)], Stop);
  }

  lemma TallyOne(what: Trait, q: Pod)
    ensures Tally(what, [q]) == if Counts(what, q) then 1 else 0
  {
    assert [q][..0] == [];
  }

  lemma TallyTwo(what: Trait, p: Pod, q: Pod)
    ensures Tally(what, [p, q]) == Tally(what, [p]) + if Counts(what, q) then 1 else 0
  {
    assert [p, q][..1] == [p];
  }

  lemma PairKept(p: Pod, q: Pod, ord: Numbering)
    requires p.name != q.name && ord(p.name) == p.ordinal && ord(q.name) == q.ordinal == -1
    requires p.IsCreated() && q.IsCreated()
    ensures var m := map[p.name := p, q.name := q];
            WellKept(m, ord) && !Orderly("web", m, ord)
  {
    var m := map[p.name := p, q.name := q];
    assert q.name in m && m[q.name] == q;
  }

  lemma Pair(p: Pod, q: Pod)
    requires p.name != q.name
    ensures Lists([p, q], map[p.name := p, q.name := q])
    ensures Lists([q], map[q.name := q])
  {
    var m := map[p.name := p, q.name := q];
    assert m[p.name] == p && m[q.name] == q;
  }

  lemma DeletesOutdated(p: Pod, q: Pod)
    requires p == Pod(Names.PodName("web", 0), 0, "a", Running, true, false, true) && p.name != q.name
    requires q == Pod(q.name, -1, "a", Running, true, false, true)
    ensures var calls := [DeleteOutdated(p)];
            && Round(RollingGoal(2), map[p.name := p, q.name := q], map[q.name := q], [p, q], [], calls)
            && Next(RollingGoal(2), RollingGoal(1), [p, q], calls)
  {
    hide Names.PodName;
    var g, pods, calls := RollingGoal(2), [p, q], [DeleteOutdated(p)];
    var m := map[p.name := p, q.name := q];
    assert pods[..1] == [p] && [p][..0] == [];
    assert PodAt(pods, 0) == Some(p);
    PlanOfOutdated(pods, p);
    Pair(p, q);
    hide SyncPlan, PhasePlan, CondemnedOrder, Lists, PodAt, Tally, Counts;
    PairObserved(g, p, q);
    DeletionLeaves(m, p, q);
    assert calls[..0] == [];
    assert Settle(g, Observe(g, pods), calls) == Account(g, Observe(g, pods), calls[0]);
  }

  lemma PairObserved(g: Goal, p: Pod, q: Pod)
    requires g == RollingGoal(g.currentReplicas)
    requires p.phase == q.phase == Running && p.ready && q.ready && !p.terminating && !q.terminating
    requires p.revision == q.revision == "a"
    ensures Observe(g, [p, q]) == Status(1, 2, 2, 2, 0, "a", "b", 0)
    ensures Observe(g, [q]) == Status(1, 1, 1, 1, 0, "a", "b", 0)
  {
    forall what: Trait
      ensures Tally(what, [q]) == if Counts(what, q) then 1 else 0
      ensures Tally(what, [p, q]) == (if Counts(what, p) then 1 else 0) + if Counts(what, q) then 1 else 0
    {
      TallyOne(what, p);
      TallyOne(what, q);
      TallyTwo(what, p, q);
    }
    hide Tally;
    assert forall r :: r == p || r == q ==> Counts(Ready, r) && Counts(LiveAt("a"), r) && !Counts(LiveAt("b"), r);
  }

  lemma DeletionLeaves(m: PodMap, p: Pod, q: Pod)
    requires p.name != q.name && m == map[p.name := p, q.name := q]
    requires p.phase == q.phase == Running && p.ready && q.ready && !q.terminating
    ensures Rest(Effects([DeleteOutdated(p)], m)) == map[q.name := q]
  {
    FitOne(RollingGoal(2), DeleteOutdated(p), m);
    assert Effect(DeleteOutdated(p), m) == m[p.name := p.(terminating := true)];
  }

  lemma CreationLeaves(m: PodMap, p: Pod, q: Pod, new_: Pod)
    requires p.name != q.name && m == map[q.name := q] && Issued(new_).(phase := Running, ready := true) == p
    requires q.phase == Running && q.ready && !q.terminating && !p.terminating
    ensures Rest(Effects([Create(new_)], m)) == map[p.name := p, q.name := q]
  {
    FitOne(RollingGoal(1), Create(new_), m);
    assert Effect(Create(new_), m) == m[p.name := Issued(new_)];
  }

  lemma BuildsOld(p: Pod, q: Pod)
    requires p == Pod(Names.PodName("web", 0), 0, "a", Running, true, false, true) && p.name != q.name
    requires q == Pod(q.name, -1, "a", Running, true, false, true)
    ensures var calls := [Create(RollingGoal(1).NewPod(0))];
            && Round(RollingGoal(1), map[q.name := q], map[p.name := p, q.name := q], [q], [], calls)
            && Next(RollingGoal(1), RollingGoal(2), [q], calls)
  {
    hide Names.PodName;
    var g, pods := RollingGoal(1), [q];
    var m := map[q.name := q];
    var new_ := g.NewPod(0);
    var calls := [Create(new_)];
    assert pods[..0] == [] && PodAt(pods, 0) == None;
    PlanOfMissing(pods);
    Pair(p, q);
    hide SyncPlan, PhasePlan, CondemnedOrder, Lists, PodAt;
    PairObserved(g, p, q);
    CreationLeaves(m, p, q, new_);
    hide Observe, Effects;
    assert calls[..0] == [];
    assert Settle(g, Observe(g, pods), calls) == Account(g, Observe(g, pods), calls[0]);
  }
}
