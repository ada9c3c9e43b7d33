/** Convergence of a rolling update without a RollingUpdate block. New pods get the
    revision that the stored count of current replicas selects, so a missing pod may first
    come back at the old revision and need an update later. The measure counts such a pod
    three times. */
module Unpartitioned {
  import opened Pods
  import opened Planning
  import opened Reconcile
  import opened StepSafety
  import opened Completion
  import opened Conservation
  import opened Convergence
  import Cluster
  import History
  import Livelock
  import Machine
  import Names
  import Relapse
  import Slots

  ghost predicate Rolls(g: Goal) {
    Moving(g) && g.strategy.RollingUpdate? && g.rollingUpdate.None?
  }

  function Old(g: Goal, m: PodMap): set<string> {
    set n | n in m && m[n].revision == g.current
  }

  /** The stored count of current replicas is not too high. */
  ghost predicate Moderate(g: Goal, m: PodMap) {
    g.current != g.update ==> g.currentReplicas <= |Old(g, m)|
  }

  /** What can be relied on between two rounds. */
  ghost predicate Underway(g: Goal, m: PodMap, ord: Numbering) {
    Rolls(g) && Settled(g, m, ord) && Moderate(g, m)
  }

  // ------------------------------------------------------------------ the measure

  function Under(names: set<string>, ord: Numbering, bound: int): set<string> {
    set n | n in names && ord(n) < bound
  }

  /** The missing pods that may come back at the old revision: even if all the others did
      so first, there would be no more pods at the old revision than the bound. */
  function Heavy(g: Goal, m: PodMap, ord: Numbering): set<string> {
    if g.current == g.update then {} else Under(Missing(g, m), ord, |Old(g, m)| + |Missing(g, m)| - 1)
  }

  function Cost(g: Goal, m: PodMap, ord: Numbering): nat {
    Distance(g, m) + 2 * |Heavy(g, m, ord)|
  }

  // -------------------------------------------------------------- a round's calls

  /** A missing pod is built. */
  ghost predicate Builds(g: Goal, m: PodMap, p: Pod) {
    p == g.NewPod(p.ordinal) && g.Wants(p.ordinal) && p.name in Missing(g, m)
  }

  /** The calls of a round: updates and creations, then deletions. */
  ghost predicate Phased(g: Goal, m: PodMap, head: seq<Action>, tail: seq<Action>) {
    && (forall a :: a in head ==> a.Update? || (a.Create? && Builds(g, m, a.pod)))
    && (forall a :: a in tail ==> a.DeleteCondemned? || a.DeleteOutdated?)
  }

  lemma RoundPhases(g: Goal, m: PodMap, ord: Numbering, pods: seq<Pod>, condemned: seq<Pod>)
    returns (head: seq<Action>, tail: seq<Action>)
    requires Rolls(g) && Settled(g, m, ord) && Lists(pods, m) && CondemnedOrder(g, pods, condemned)
    ensures SyncPlan(g, pods, condemned).actions == head + tail && Phased(g, m, head, tail)
    ensures Executes(SyncPlan(g, pods, condemned), {}, head + tail, Planning.Returned)
    ensures SyncPlan(g, pods, condemned) == PhasePlan(g, pods, condemned)
  {
    AllListedHealthy(g, m, pods);
    SettledPlan(g, pods, condemned);
    PlanWithin(g, pods, condemned);
    hide SyncPlan, PhasePlan, CondemnedOrder, Builds;
    head, tail := PlanParts(g, pods, condemned);
    forall a | a in head
      ensures a.Update? || (a.Create? && Builds(g, m, a.pod))
    {
      assert a in head + tail;
      PhaseLicensed(g, pods, condemned, a);
      HeadAction(g, m, ord, pods, a);
    }
  }

  lemma HeadAction(g: Goal, m: PodMap, ord: Numbering, pods: seq<Pod>, a: Action)
    requires Rolls(g) && Settled(g, m, ord) && Lists(pods, m) && (forall p :: p in pods ==> p.IsHealthy())
    requires Licensed(g, pods, a) && !a.DeleteCondemned? && !a.DeleteOutdated?
    ensures a.Update? || (a.Create? && Builds(g, m, a.pod))
  {
    if a.Create? {
      var p := a.pod;
      assert p == g.NewPod(p.ordinal) && PodAt(pods, p.ordinal).None?;
      forall n | n in m
        ensures m[n].ordinal != p.ordinal
      {
        assert m[n] in pods;
      }
      assert ord(p.name) == p.ordinal;
    }
  }

  // ------------------------------------------------------- a round, name by name

  ghost predicate NameAfter(g: Goal, m: PodMap, m': PodMap, ord: Numbering, calls: seq<Action>, n: string) {
    && (n in m' <==> (n in m || n in Created(calls)) && n !in Deleted(calls))
    && (n in m' && n in m ==> m'[n].ordinal == m[n].ordinal && m'[n].revision == m[n].revision)
    && (n in m' && n !in m ==> m'[n].revision == g.NewPod(ord(n)).revision && g.Wants(ord(n)))
    && (n in m' ==> InPlace(g.setName, m'[n], ord, n))
  }

  lemma PhaseSets(g: Goal, m: PodMap, head: seq<Action>, tail: seq<Action>)
    requires Phased(g, m, head, tail)
    ensures Created(head + tail) == Created(head) <= Missing(g, m) && Created(tail) == {}
    ensures Deleted(head + tail) == Deleted(tail) && Deleted(head) == {}
    ensures forall a :: a in head + tail ==> !a.DeleteFailed? && (a.Create? ==> !a.pod.terminating)
  {
    assert forall a :: a in head + tail <==> a in head || a in tail;
  }

  /** A pod of the cluster before. */
  lemma OldNameAfter(g: Goal, m: PodMap, ord: Numbering, head: seq<Action>, tail: seq<Action>, n: string)
    requires Settled(g, m, ord) && Phased(g, m, head, tail) && n in m
    ensures NameAfter(g, m, Rest(Effects(head + tail, m)), ord, head + tail, n)
  {
    PhaseSets(g, m, head, tail);
    assert n !in Missing(g, m);
    hide Phased, Missing, Created, Deleted, Effects, Names.PodName;
    assert forall a :: a in head ==> a in head + tail;
    assert forall a :: a in tail ==> a in head + tail;
    FitConcat(g, head, tail, m);
    EffectsAt(head, m, n);
    EffectsAt(tail, Effects(head, m), n);
  }

  /** A pod the round builds. */
  lemma NewNameAfter(g: Goal, m: PodMap, ord: Numbering, head: seq<Action>, tail: seq<Action>, n: string)
    requires Rolls(g) && Settled(g, m, ord) && Phased(g, m, head, tail) && n !in m && n in Created(head)
    ensures NameAfter(g, m, Rest(Effects(head + tail, m)), ord, head + tail, n)
  {
    PhaseSets(g, m, head, tail);
    var p := BuiltPod(g, m, ord, head, tail, n);
    hide Phased, Missing, Created, Deleted, Effects, Names.PodName, Builds;
    assert forall a :: a in head ==> a in head + tail;
    assert forall a :: a in tail ==> a in head + tail;
    FitConcat(g, head, tail, m);
    EffectsNew(head, m, p);
    EffectsAt(tail, Effects(head, m), n);
  }

  lemma BuiltPod(g: Goal, m: PodMap, ord: Numbering, head: seq<Action>, tail: seq<Action>, n: string) returns (p: Pod)
    requires Rolls(g) && Settled(g, m, ord) && Phased(g, m, head, tail) && n in Created(head)
    ensures Create(p) in head && p == g.NewPod(ord(n)) && p.name == n && p.ordinal == ord(n) && g.Wants(ord(n))
    ensures n == Names.PodName(g.setName, p.ordinal)
    ensures forall a :: a in head && a.Create? && a.pod.name == n ==> a.pod == p
  {
    hide Missing, Names.PodName;
    var c :| c in head && c.Create? && c.pod.name == n;
    p := c.pod;
    assert ord(n) == p.ordinal;
    forall b | b in head && b.Create? && b.pod.name == n
      ensures b.pod == p
    {
      assert ord(b.pod.name) == b.pod.ordinal;
    }
  }

  lemma NamesAfter(g: Goal, m: PodMap, ord: Numbering, head: seq<Action>, tail: seq<Action>, n: string)
    requires Rolls(g) && Settled(g, m, ord) && Phased(g, m, head, tail)
    ensures NameAfter(g, m, Rest(Effects(head + tail, m)), ord, head + tail, n)
  {
    PhaseSets(g, m, head, tail);
    if n in m {
      OldNameAfter(g, m, ord, head, tail, n);
    } else if n in Created(head) {
      NewNameAfter(g, m, ord, head, tail, n);
    } else {
      hide Phased, Missing, Created, Deleted, Effects;
      EffectsNames(head + tail, m);
    }
  }

  // ------------------------------------------------------------------ the victim

  /** What a round deletes for the update: at most one pod. */
  function Victims(g: Goal, m: PodMap, calls: seq<Action>): set<string> {
    Deleted(calls) - Outside(g, m)
  }

  /** The created pods that are at the old revision. */
  function BuiltOld(g: Goal, calls: seq<Action>, ord: Numbering): set<string> {
    set n | n in Created(calls) && g.NewPod(ord(n)).revision != g.update
  }

  lemma DeletionFacts(g: Goal, m: PodMap, ord: Numbering, pods: seq<Pod>, condemned: seq<Pod>, a: Action)
    requires Rolls(g) && Settled(g, m, ord) && Lists(pods, m) && CondemnedOrder(g, pods, condemned)
    requires a in SyncPlan(g, pods, condemned).actions
    ensures a.DeleteCondemned? ==> a.pod.name in Outside(g, m)
    ensures a.DeleteOutdated? ==>
              && g.Wants(a.pod.ordinal) && a.pod.ordinal == ord(a.pod.name) && a.pod.revision != g.update
              && a.pod.name == Names.PodName(g.setName, a.pod.ordinal) && a.pod.name !in Outside(g, m)
              && (a.pod.name in m ==> m[a.pod.name] == a.pod || a.pod == g.NewPod(a.pod.ordinal))
  {
    hide SyncPlan, PhasePlan, CondemnedOrder;
    CallsLicensed(g, pods, condemned, a);
    assert a.pod in pods ==> a.pod.name in m && m[a.pod.name] == a.pod;
  }

  /** The victim of a round, if there is one. */
  lemma VictimIs(g: Goal, m: PodMap, ord: Numbering, pods: seq<Pod>, condemned: seq<Pod>, calls: seq<Action>, n: string)
    returns (k: nat)
    requires Rolls(g) && Settled(g, m, ord) && Lists(pods, m) && CondemnedOrder(g, pods, condemned)
    requires calls == SyncPlan(g, pods, condemned).actions && n in Victims(g, m, calls)
    ensures k < |calls| && calls[k].DeleteOutdated? && calls[k].pod.name == n
  {
    hide SyncPlan, PhasePlan, CondemnedOrder, Outside;
    var a :| a in calls && (a.DeleteFailed? || a.DeleteCondemned? || a.DeleteOutdated?) && a.pod.name == n;
    DeletionFacts(g, m, ord, pods, condemned, a);
    var head, tail := RoundPhases(g, m, ord, pods, condemned);
    k :| 0 <= k < |calls| && calls[k] == a;
  }

  lemma AtMostOne(s: set<string>)
    requires forall a, b :: a in s && b in s ==> a == b
    ensures |s| <= 1
  {
    if s != {} {
      var n :| n in s;
      assert s == {n};
    }
  }

  lemma OneVictim(g: Goal, m: PodMap, ord: Numbering, pods: seq<Pod>, condemned: seq<Pod>, calls: seq<Action>)
    requires Rolls(g) && Settled(g, m, ord) && Lists(pods, m) && CondemnedOrder(g, pods, condemned)
    requires calls == SyncPlan(g, pods, condemned).actions
    ensures |Victims(g, m, calls)| <= 1
  {
    hide SyncPlan, PhasePlan, CondemnedOrder, Victims;
    var head, tail := RoundPhases(g, m, ord, pods, condemned);
    RollingStepSafety(g, pods, condemned, {}, calls, Planning.Returned);
    forall a, b | a in Victims(g, m, calls) && b in Victims(g, m, calls)
      ensures a == b
    {
      var j := VictimIs(g, m, ord, pods, condemned, calls, a);
      var k := VictimIs(g, m, ord, pods, condemned, calls, b);
    }
    AtMostOne(Victims(g, m, calls));
  }

  /** By the time of an update deletion all missing pods have been built and all outside
      ones deleted. */
  lemma VictimComesLast(g: Goal, m: PodMap, ord: Numbering, pods: seq<Pod>, condemned: seq<Pod>, calls: seq<Action>,
                        k: nat)
    requires Rolls(g) && Settled(g, m, ord) && Lists(pods, m) && CondemnedOrder(g, pods, condemned)
    requires calls == SyncPlan(g, pods, condemned).actions && k < |calls| && calls[k].DeleteOutdated?
    ensures Missing(g, m) <= Created(calls) && Outside(g, m) <= Deleted(calls)
  {
    var head, tail := RoundPhases(g, m, ord, pods, condemned);
    hide SyncPlan, PhasePlan, CondemnedOrder, HealthyBetween;
    RollingStepSafety(g, pods, condemned, {}, calls, Planning.Returned);
    forall n | n in Missing(g, m)
      ensures n in Created(calls)
    {
      var o :| 0 <= o < g.replicaCount && o !in g.slots && n == g.NewPod(o).name;
      NoneAt(g, m, ord, pods, o);
      if g.ordered {
        HealthyPrefix(g, pods, o);
      }
      MissingCreated(g, pods, condemned, o);
      assert Create(g.NewPod(o)) in calls;
    }
    forall n | n in Outside(g, m)
      ensures n in Deleted(calls)
    {
      assert m[n] in pods;
      OutsideDeleted(g, pods, condemned, calls, k, m[n]);
    }
  }

  lemma HealthyPrefix(g: Goal, pods: seq<Pod>, o: nat)
    requires HealthyBetween(g, pods, 0, g.replicaCount) && o <= g.replicaCount
    ensures HealthyBetween(g, pods, 0, o)
  {
  }

  lemma OutsideDeleted(g: Goal, pods: seq<Pod>, condemned: seq<Pod>, calls: seq<Action>, k: nat, p: Pod)
    requires CondemnedOrder(g, pods, condemned) && calls == PhasePlan(g, pods, condemned).actions
    requires k < |calls| && calls[k].DeleteOutdated?
    requires p in pods && g.Condemns(p.ordinal) && !p.terminating
    requires g.ordered ==> forall q :: q in pods ==> !g.Condemns(q.ordinal)
    ensures p.name in Deleted(calls)
  {
    hide PhasePlan, CondemnedOrder;
    assert !g.ordered;
    Livelock.CondemnedAllDeleted(g, pods, condemned, k, p);
    assert DeleteCondemned(p) in calls;
  }

  /** At the ordinal of a missing name no pod is listed. */
  lemma NoneAt(g: Goal, m: PodMap, ord: Numbering, pods: seq<Pod>, o: nat)
    requires Settled(g, m, ord) && Lists(pods, m) && g.NewPod(o).name !in m
    ensures PodAt(pods, o).None?
  {
    hide Names.PodName;
    forall p | p in pods
      ensures p.ordinal != o
    {
      assert m[p.name] == p;
    }
  }

  /** After an update deletion no pod at the old revision is left at or above its ordinal. */
  lemma OldBelowVictim(g: Goal, m: PodMap, m': PodMap, ord: Numbering, pods: seq<Pod>, condemned: seq<Pod>,
                       calls: seq<Action>, k: nat, n: string)
    requires Rolls(g) && Settled(g, m, ord) && Lists(pods, m) && CondemnedOrder(g, pods, condemned)
    requires calls == SyncPlan(g, pods, condemned).actions && k < |calls| && calls[k].DeleteOutdated?
    requires NameAfter(g, m, m', ord, calls, n) && n in m' && m'[n].revision != g.update
    requires n in Created(calls) ==> n in Missing(g, m)
    ensures ord(n) < calls[k].pod.ordinal
  {
    var head, tail := RoundPhases(g, m, ord, pods, condemned);
    VictimComesLast(g, m, ord, pods, condemned, calls, k);
    hide SyncPlan, PhasePlan, CondemnedOrder, HealthyBetween, Names.PodName;
    assert calls[k] in calls && calls[k].pod.name in Deleted(calls);
    DeletionFacts(g, m, ord, pods, condemned, calls[k]);
    RollingStepSafety(g, pods, condemned, {}, calls, Planning.Returned);
    var j := ord(n);
    assert n in m ==> n !in Outside(g, m);
    assert g.Wants(j);
    assert j != calls[k].pod.ordinal;
    if n in m {
      ListedAt(g, m, ord, pods, n);
    } else {
      assert g.NewPod(j).name == n;
      NoneAt(g, m, ord, pods, j);
    }
  }

  lemma ListedAt(g: Goal, m: PodMap, ord: Numbering, pods: seq<Pod>, n: string)
    requires Settled(g, m, ord) && Lists(pods, m) && n in m
    ensures PodAt(pods, m[n].ordinal) == Some(m[n]) && m[n].ordinal == ord(n)
  {
    hide Names.PodName;
    assert m[n] in pods;
    var p := PodAt(pods, m[n].ordinal).value;
    assert m[p.name] == p;
  }

  // ------------------------------------------------------------- the sets of a round

  /** What one name's fate means for the sets of the measure. */
  lemma SetsAt(g: Goal, m: PodMap, m': PodMap, ord: Numbering, calls: seq<Action>, n: string)
    requires Rolls(g) && Settled(g, m, ord) && NameAfter(g, m, m', ord, calls, n)
    requires Created(calls) <= Missing(g, m) && Victims(g, m, calls) <= m.Keys + Created(calls)
    ensures n in Missing(g, m') <==> n in (Missing(g, m) - Created(calls)) + Victims(g, m, calls)
    ensures n in Outside(g, m') <==> n in Outside(g, m) - Deleted(calls)
    ensures n in Stale(g, m') ==> n in Stale(g, m) + BuiltOld(g, calls, ord) - Victims(g, m, calls)
    ensures n in Old(g, m') && g.current != g.update
            ==> n in Old(g, m) + BuiltOld(g, calls, ord) - Victims(g, m, calls)
  {
    hide Created, Deleted, Names.PodName;
    WantedName(g, m, ord, n);
  }

  /** A pod of the cluster has a wanted name exactly if its ordinal is wanted. */
  lemma WantedName(g: Goal, m: PodMap, ord: Numbering, n: string)
    requires Rolls(g) && Settled(g, m, ord)
    ensures n in WantedNames(g) ==> g.Wants(ord(n)) && n == Names.PodName(g.setName, ord(n))
    ensures n in m ==> (n in WantedNames(g) <==> g.Wants(m[n].ordinal)) && m[n].ordinal == ord(n) && 0 <= ord(n)
  {
    if n in WantedNames(g) {
      var o :| 0 <= o < g.replicaCount && o !in g.slots && n == g.NewPod(o).name;
      assert ord(n) == o;
    }
    if n in m && g.Wants(m[n].ordinal) {
      assert n == g.NewPod(m[n].ordinal).name;
    }
  }

  lemma MinusSize(a: set<string>, b: set<string>, v: set<string>, x: set<string>)
    requires a !! b && v <= a + b && x <= a + b - v
    ensures |x| <= |a| + |b| - |v|
  {
    Slots.SubsetSize(x, a + b - v);
    SizeDifference(a + b, v);
  }

  lemma PlusSize(missing: set<string>, created: set<string>, v: set<string>, keys: set<string>, x: set<string>)
    requires created <= missing && missing !! keys && v <= keys + created && x == (missing - created) + v
    ensures |x| == |missing| - |created| + |v|
  {
    SizeDifference(missing, created);
    assert (missing - created) !! v;
  }

  /** The sets of the measure after a round. */
  ghost predicate Shifted(g: Goal, m: PodMap, m': PodMap, ord: Numbering, calls: seq<Action>) {
    var c, v, b := Created(calls), Victims(g, m, calls), BuiltOld(g, calls, ord);
    && c <= Missing(g, m) && v <= m.Keys + c && v <= Stale(g, m) + b && |v| <= 1
    && Missing(g, m') == (Missing(g, m) - c) + v
    && Outside(g, m') == Outside(g, m) - Deleted(calls)
    && Stale(g, m') <= Stale(g, m) + b - v
    && (g.current != g.update ==> Old(g, m') <= Old(g, m) + b - v)
  }

  lemma RoundShifts(g: Goal, m: PodMap, m': PodMap, ord: Numbering,
                    pods: seq<Pod>, condemned: seq<Pod>, calls: seq<Action>)
    requires Rolls(g) && Settled(g, m, ord) && Round(g, m, m', pods, condemned, calls)
    ensures Shifted(g, m, m', ord, calls) && Settled(g, m', ord)
    ensures Executes(SyncPlan(g, pods, condemned), {}, calls, Planning.Returned)
    ensures forall n :: NameAfter(g, m, m', ord, calls, n)
  {
    hide SyncPlan, PhasePlan, CondemnedOrder, Effects, NameAfter, Names.PodName, Outside, Missing, Stale;
    hide Old, Victims, BuiltOld;
    var head, tail := RoundPhases(g, m, ord, pods, condemned);
    PhaseSets(g, m, head, tail);
    forall n
      ensures NameAfter(g, m, m', ord, calls, n)
    {
      NamesAfter(g, m, ord, head, tail, n);
    }
    OneVictim(g, m, ord, pods, condemned, calls);
    VictimsStale(g, m, ord, pods, condemned, calls, head, tail);
    ShiftedSo(g, m, m', ord, calls);
  }

  /** The victim is an outdated pod of the cluster or one just built. */
  lemma VictimsStale(g: Goal, m: PodMap, ord: Numbering, pods: seq<Pod>, condemned: seq<Pod>, calls: seq<Action>,
                     head: seq<Action>, tail: seq<Action>)
    requires Rolls(g) && Settled(g, m, ord) && Lists(pods, m) && CondemnedOrder(g, pods, condemned)
    requires calls == SyncPlan(g, pods, condemned).actions == head + tail && Phased(g, m, head, tail)
    ensures Victims(g, m, calls) <= m.Keys + Created(calls)
    ensures Victims(g, m, calls) <= Stale(g, m) + BuiltOld(g, calls, ord)
  {
    hide SyncPlan, PhasePlan, CondemnedOrder, Names.PodName, Victims;
    forall n | n in Victims(g, m, calls)
      ensures n in m.Keys + Created(calls) && n in Stale(g, m) + BuiltOld(g, calls, ord)
    {
      var k := VictimIs(g, m, ord, pods, condemned, calls, n);
      VictimStale(g, m, ord, pods, condemned, calls, k);
    }
  }

  lemma VictimStale(g: Goal, m: PodMap, ord: Numbering, pods: seq<Pod>, condemned: seq<Pod>, calls: seq<Action>, k: nat)
    requires Rolls(g) && Settled(g, m, ord) && Lists(pods, m) && CondemnedOrder(g, pods, condemned)
    requires calls == SyncPlan(g, pods, condemned).actions && k < |calls| && calls[k].DeleteOutdated?
    ensures var n := calls[k].pod.name;
            n in m.Keys + Created(calls) && n in Stale(g, m) + BuiltOld(g, calls, ord)
  {
    hide SyncPlan, PhasePlan, CondemnedOrder, Names.PodName;
    var p := calls[k].pod;
    assert calls[k] in calls;
    CallsLicensed(g, pods, condemned, calls[k]);
    DeletionFacts(g, m, ord, pods, condemned, calls[k]);
    if p in pods {
      assert m[p.name] == p;
    } else {
      var head, tail := PlanParts(g, pods, condemned);
      var h2, t2 := RoundPhases(g, m, ord, pods, condemned);
      assert DeleteOutdated(p) in head + tail;
      assert Create(p) in head + tail;
      assert g.UpdateMin() == 0;
    }
  }

  lemma ShiftedSo(g: Goal, m: PodMap, m': PodMap, ord: Numbering, calls: seq<Action>)
    requires Rolls(g) && Settled(g, m, ord)
    requires forall n :: NameAfter(g, m, m', ord, calls, n)
    requires Created(calls) <= Missing(g, m) && Victims(g, m, calls) <= m.Keys + Created(calls)
    requires Victims(g, m, calls) <= Stale(g, m) + BuiltOld(g, calls, ord) && |Victims(g, m, calls)| <= 1
    ensures Shifted(g, m, m', ord, calls) && Settled(g, m', ord)
  {
    hide Rolls, Settled, NameAfter, Missing, Outside, Stale, Old, Victims, BuiltOld, Created, Deleted;
    MissingShifts(g, m, m', ord, calls);
    OutsideShifts(g, m, m', ord, calls);
    StaleShifts(g, m, m', ord, calls);
    OldShifts(g, m, m', ord, calls);
    PodsStaySettled(g, m, m', ord, calls);
  }

  lemma MissingShifts(g: Goal, m: PodMap, m': PodMap, ord: Numbering, calls: seq<Action>)
    requires Rolls(g) && Settled(g, m, ord)
    requires forall n :: NameAfter(g, m, m', ord, calls, n)
    requires Created(calls) <= Missing(g, m) && Victims(g, m, calls) <= m.Keys + Created(calls)
    ensures Missing(g, m') == (Missing(g, m) - Created(calls)) + Victims(g, m, calls)
  {
    hide Rolls, Settled, NameAfter, Missing, Outside, Stale, Old, Victims, BuiltOld, Created, Deleted;
    forall n
      ensures n in Missing(g, m') <==> n in (Missing(g, m) - Created(calls)) + Victims(g, m, calls)
    {
      assert NameAfter(g, m, m', ord, calls, n);
      SetsAt(g, m, m', ord, calls, n);
    }
  }

  lemma OutsideShifts(g: Goal, m: PodMap, m': PodMap, ord: Numbering, calls: seq<Action>)
    requires Rolls(g) && Settled(g, m, ord)
    requires forall n :: NameAfter(g, m, m', ord, calls, n)
    requires Created(calls) <= Missing(g, m) && Victims(g, m, calls) <= m.Keys + Created(calls)
    ensures Outside(g, m') == Outside(g, m) - Deleted(calls)
  {
    hide Rolls, Settled, NameAfter, Missing, Outside, Stale, Old, Victims, BuiltOld, Created, Deleted;
    forall n
      ensures n in Outside(g, m') <==> n in Outside(g, m) - Deleted(calls)
    {
      assert NameAfter(g, m, m', ord, calls, n);
      SetsAt(g, m, m', ord, calls, n);
    }
  }

  lemma StaleShifts(g: Goal, m: PodMap, m': PodMap, ord: Numbering, calls: seq<Action>)
    requires Rolls(g) && Settled(g, m, ord)
    requires forall n :: NameAfter(g, m, m', ord, calls, n)
    requires Created(calls) <= Missing(g, m) && Victims(g, m, calls) <= m.Keys + Created(calls)
    ensures Stale(g, m') <= Stale(g, m) + BuiltOld(g, calls, ord) - Victims(g, m, calls)
  {
    hide Rolls, Settled, NameAfter, Missing, Outside, Stale, Old, Victims, BuiltOld, Created, Deleted;
    forall n
      ensures n in Stale(g, m') ==> n in Stale(g, m) + BuiltOld(g, calls, ord) - Victims(g, m, calls)
    {
      assert NameAfter(g, m, m', ord, calls, n);
      SetsAt(g, m, m', ord, calls, n);
    }
  }

  lemma OldShifts(g: Goal, m: PodMap, m': PodMap, ord: Numbering, calls: seq<Action>)
    requires Rolls(g) && Settled(g, m, ord)
    requires forall n :: NameAfter(g, m, m', ord, calls, n)
    requires Created(calls) <= Missing(g, m) && Victims(g, m, calls) <= m.Keys + Created(calls)
    ensures g.current != g.update ==> Old(g, m') <= Old(g, m) + BuiltOld(g, calls, ord) - Victims(g, m, calls)
  {
    hide Rolls, Settled, NameAfter, Missing, Outside, Stale, Old, Victims, BuiltOld, Created, Deleted;
    if g.current != g.update {
      forall n
        ensures n in Old(g, m') ==> n in Old(g, m) + BuiltOld(g, calls, ord) - Victims(g, m, calls)
      {
        assert NameAfter(g, m, m', ord, calls, n);
        SetsAt(g, m, m', ord, calls, n);
      }
    }
  }

  lemma PodsStaySettled(g: Goal, m: PodMap, m': PodMap, ord: Numbering, calls: seq<Action>)
    requires Rolls(g) && Settled(g, m, ord)
    requires forall n :: NameAfter(g, m, m', ord, calls, n)
    requires Created(calls) <= Missing(g, m) && Victims(g, m, calls) <= m.Keys + Created(calls)
    ensures Settled(g, m', ord)
  {
    hide Missing, Outside, Stale, Old, Victims, BuiltOld, Created, Deleted, NameAfter, Names.PodName;
    forall n | n in m'
      ensures InPlace(g.setName, m'[n], ord, n)
    {
      assert NameAfter(g, m, m', ord, calls, n);
      SetsAt(g, m, m', ord, calls, n);
      AfterInPlace(g, m, m', ord, calls, n);
    }
  }

  lemma AfterInPlace(g: Goal, m: PodMap, m': PodMap, ord: Numbering, calls: seq<Action>, n: string)
    requires NameAfter(g, m, m', ord, calls, n) && n in m'
    ensures InPlace(g.setName, m'[n], ord, n)
  {
  }

  // --------------------------------------------------------------- the cost falls

  /** Built old pods were heavy. */
  lemma BuiltWereHeavy(g: Goal, m: PodMap, ord: Numbering, calls: seq<Action>)
    requires Rolls(g) && Moderate(g, m) && Created(calls) <= Missing(g, m)
    ensures BuiltOld(g, calls, ord) <= Heavy(g, m, ord)
  {
    hide Created, Names.PodName, Missing;
    forall n | n in BuiltOld(g, calls, ord)
      ensures n in Heavy(g, m, ord)
    {
      assert n in Missing(g, m);
      assert |Missing(g, m)| >= 1;
      assert g.UsesCurrent(ord(n)) && ord(n) < g.currentReplicas;
    }
  }

  /** After an update deletion fewer pods are at the old revision than the victim's
      ordinal, so that the victim comes back at the update revision. */
  lemma OldFewer(g: Goal, m: PodMap, m': PodMap, ord: Numbering, pods: seq<Pod>, condemned: seq<Pod>,
                 calls: seq<Action>, v: string)
    requires Rolls(g) && Settled(g, m, ord) && Round(g, m, m', pods, condemned, calls)
    requires v in Victims(g, m, calls) && g.current != g.update
    ensures |Old(g, m')| <= ord(v) && Missing(g, m) <= Created(calls)
  {
    hide SyncPlan, PhasePlan, CondemnedOrder, Effects, NameAfter, Names.PodName, Outside, Missing, Stale;
    hide Victims, BuiltOld, Created;
    RoundShifts(g, m, m', ord, pods, condemned, calls);
    var k := VictimIs(g, m, ord, pods, condemned, calls, v);
    VictimComesLast(g, m, ord, pods, condemned, calls, k);
    assert calls[k] in calls;
    DeletionFacts(g, m, ord, pods, condemned, calls[k]);
    forall n | n in Old(g, m')
      ensures exists o :: 0 <= o < ord(v) && n == Names.PodName(g.setName, o)
    {
      assert NameAfter(g, m, m', ord, calls, n);
      OldBelowVictim(g, m, m', ord, pods, condemned, calls, k, n);
      AfterInPlace(g, m, m', ord, calls, n);
      assert 0 <= ord(n) < ord(v) && n == Names.PodName(g.setName, ord(n));
    }
    Livelock.NamesBelow(g.setName, Old(g, m'), ord(v));
  }

  lemma HeavyFalls(g: Goal, m: PodMap, m': PodMap, ord: Numbering, calls: seq<Action>)
    requires Shifted(g, m, m', ord, calls)
    requires g.current != g.update ==>
               forall v :: v in Victims(g, m, calls) ==> |Old(g, m')| <= ord(v) && Missing(g, m) <= Created(calls)
    ensures Heavy(g, m', ord) <= Heavy(g, m, ord) - BuiltOld(g, calls, ord)
  {
    hide Heavy, Shifted, Victims, BuiltOld, Created, Deleted, Missing, Old;
    HeavyIs(g, m, ord);
    HeavyIs(g, m', ord);
    if g.current == g.update {
      NothingBuiltOld(g, calls, ord);
    } else {
      ShiftedSets(g, m, m', ord, calls);
      UnderFalls(g, m, m', ord, calls);
    }
  }

  lemma UnderFalls(g: Goal, m: PodMap, m': PodMap, ord: Numbering, calls: seq<Action>)
    requires forall v :: v in Victims(g, m, calls) ==> |Old(g, m')| <= ord(v) && Missing(g, m) <= Created(calls)
    requires var missing, c, v, b := Missing(g, m), Created(calls), Victims(g, m, calls), BuiltOld(g, calls, ord);
             && missing !! m.Keys && c <= missing && v <= m.Keys + c && Missing(g, m') == (missing - c) + v
             && b <= c && Old(g, m) !! b && Old(g, m') <= Old(g, m) + b - v && |v| <= 1
    ensures Under(Missing(g, m'), ord, |Old(g, m')| + |Missing(g, m')| - 1)
            <= Under(Missing(g, m), ord, |Old(g, m)| + |Missing(g, m)| - 1) - BuiltOld(g, calls, ord)
  {
    hide Victims, Old, Missing, Created, BuiltOld, Under;
    HeavySets(Missing(g, m), m.Keys, Created(calls), Victims(g, m, calls), Missing(g, m'),
              BuiltOld(g, calls, ord), Old(g, m), Old(g, m'), ord);
  }

  lemma ShiftedSets(g: Goal, m: PodMap, m': PodMap, ord: Numbering, calls: seq<Action>)
    requires Shifted(g, m, m', ord, calls) && g.current != g.update
    ensures var missing, c, v, b := Missing(g, m), Created(calls), Victims(g, m, calls), BuiltOld(g, calls, ord);
            && missing !! m.Keys && c <= missing && v <= m.Keys + c && Missing(g, m') == (missing - c) + v
            && b <= c && Old(g, m) !! b && Old(g, m') <= Old(g, m) + b - v && |v| <= 1
  {
    hide Stale, Old, Victims, Created, Deleted, Outside, WantedNames;
    assert Missing(g, m) !! m.Keys;
    OldNotBuilt(g, m, ord, calls);
    BuiltSubset(g, calls, ord);
  }

  lemma HeavyIs(g: Goal, m: PodMap, ord: Numbering)
    ensures Heavy(g, m, ord)
            == if g.current == g.update then {} else Under(Missing(g, m), ord, |Old(g, m)| + |Missing(g, m)| - 1)
  {
    hide Under, Missing, Old;
  }

  lemma NothingBuiltOld(g: Goal, calls: seq<Action>, ord: Numbering)
    requires g.current == g.update
    ensures BuiltOld(g, calls, ord) == {}
  {
    hide Created;
  }

  lemma BuiltSubset(g: Goal, calls: seq<Action>, ord: Numbering)
    ensures BuiltOld(g, calls, ord) <= Created(calls)
  {
    hide Created;
  }

  /** The same for the sets alone: `c` are the created names, `b` those at the old
      revision, and `v` is the victim. */
  lemma HeavySets(missing: set<string>, keys: set<string>, c: set<string>, v: set<string>, missing': set<string>,
                  b: set<string>, old_: set<string>, old': set<string>, ord: Numbering)
    requires missing !! keys && c <= missing && v <= keys + c && missing' == (missing - c) + v
    requires b <= c && old_ !! b && old' <= old_ + b - v && |v| <= 1
    requires forall n :: n in v ==> |old'| <= ord(n) && missing <= c
    ensures Under(missing', ord, |old'| + |missing'| - 1) <= Under(missing, ord, |old_| + |missing| - 1) - b
  {
    PlusSize(missing, c, v, keys, missing');
    Slots.SubsetSize(b, c);
    if v == {} {
      MinusSize(old_, b, v, old');
    } else {
      assert missing - c == {};
      assert missing' == v;
    }
    StaysHeavy(missing, c, v, missing', b, ord, |old_| + |missing| - 1, |old'| + |missing'| - 1);
  }

  lemma StaysHeavy(missing: set<string>, c: set<string>, v: set<string>, missing': set<string>, b: set<string>,
                   ord: Numbering, bound: int, bound': int)
    requires missing' == (missing - c) + v && b <= c && (v == {} ==> bound' <= bound)
    requires v != {} ==> missing - c == {}
    requires forall n :: n in v ==> bound' <= ord(n)
    ensures Under(missing', ord, bound') <= Under(missing, ord, bound) - b
  {
  }

  lemma OldNotBuilt(g: Goal, m: PodMap, ord: Numbering, calls: seq<Action>)
    requires Created(calls) <= Missing(g, m)
    ensures Old(g, m) !! BuiltOld(g, calls, ord) && Stale(g, m) !! BuiltOld(g, calls, ord)
  {
    hide Created;
    assert Missing(g, m) !! m.Keys;
  }

  /** A round lowers the cost by what it creates and deletes, or by more. */
  lemma CostFalls(g: Goal, m: PodMap, m': PodMap, ord: Numbering, calls: seq<Action>)
    requires Rolls(g) && Moderate(g, m) && Shifted(g, m, m', ord, calls)
    requires Heavy(g, m', ord) <= Heavy(g, m, ord) - BuiltOld(g, calls, ord)
    ensures Cost(g, m', ord) <= Cost(g, m, ord) - |Created(calls)| - |Deleted(calls)|
  {
    var c, v, b, d := Created(calls), Victims(g, m, calls), BuiltOld(g, calls, ord), Deleted(calls);
    BuiltWereHeavy(g, m, ord, calls);
    OldNotBuilt(g, m, ord, calls);
    PlusSize(Missing(g, m), c, v, m.Keys, Missing(g, m'));
    MinusSize(Stale(g, m), b, v, Stale(g, m'));
    hide Missing, Stale, Heavy, BuiltOld, Created, Deleted, Outside, Names.PodName;
    Slots.SubsetSize(Heavy(g, m', ord), Heavy(g, m, ord) - b);
    SizeDifference(Heavy(g, m, ord), b);
    OutsideFalls(Outside(g, m), d, v);
  }

  lemma OutsideFalls(out: set<string>, d: set<string>, v: set<string>)
    requires v == d - out
    ensures |out - d| + |d| == |out| + |v|
  {
    assert out == (out - d) + out * d;
    assert d == v + out * d;
  }

  // ------------------------------------------------------------------- convergence

  /** The goal of the next sync: the status is stored, and replicas, slots, template and
      strategy stay; the policy may change. */
  ghost predicate Next(g: Goal, g': Goal, pods: seq<Pod>, calls: seq<Action>) {
    var s := Completed(g.strategy, Settle(g, Observe(g, pods), calls));
    SameTarget(g, g') && g'.current == s.currentRevision && g'.currentReplicas == s.currentReplicas
  }

  lemma MovesFall(g: Goal, m: PodMap, m': PodMap, ord: Numbering,
                  pods: seq<Pod>, condemned: seq<Pod>, calls: seq<Action>)
    requires Underway(g, m, ord) && Round(g, m, m', pods, condemned, calls)
    ensures Cost(g, m', ord) <= Cost(g, m, ord) - |Created(calls)| - |Deleted(calls)|
  {
    hide Round, NameAfter, Cost, Heavy, Created, Deleted, Victims, Missing, Old, BuiltOld, SyncPlan, PhasePlan;
    RoundShifts(g, m, m', ord, pods, condemned, calls);
    if g.current != g.update {
      forall v | v in Victims(g, m, calls)
        ensures |Old(g, m')| <= ord(v) && Missing(g, m) <= Created(calls)
      {
        OldFewer(g, m, m', ord, pods, condemned, calls, v);
      }
    }
    HeavyFalls(g, m, m', ord, calls);
    CostFalls(g, m, m', ord, calls);
  }

  /** The status a round stores counts no more old pods than there are: updating a pod of a
      third revision lowers the count, and nothing else is miscounted. */
  lemma StatusModerate(g: Goal, m: PodMap, m': PodMap, ord: Numbering,
                       pods: seq<Pod>, condemned: seq<Pod>, calls: seq<Action>)
    requires Rolls(g) && Settled(g, m, ord) && Round(g, m, m', pods, condemned, calls)
    ensures Settle(g, Observe(g, pods), calls).currentReplicas <= |Old(g, m')|
  {
    hide SyncPlan, PhasePlan, CondemnedOrder, Settle, Observe, Miscounts, NameAfter, Names.PodName;
    RoundShifts(g, m, m', ord, pods, condemned, calls);
    OrderlySnapshot(g, pods, m, ord);
    SyncConserves(g, ord, pods, m, condemned, {}, calls);
    LiveIsOld(g, m, ord, pods, condemned, calls);
  }

  /** The live pods at the old revision are those that are left. */
  lemma LiveIsOld(g: Goal, m: PodMap, ord: Numbering, pods: seq<Pod>, condemned: seq<Pod>, calls: seq<Action>)
    requires Rolls(g) && Settled(g, m, ord) && Lists(pods, m) && CondemnedOrder(g, pods, condemned)
    requires calls == SyncPlan(g, pods, condemned).actions
    ensures Counted(LiveAt(g.current), Effects(calls, m)) == Old(g, Rest(Effects(calls, m)))
  {
    hide SyncPlan, PhasePlan, CondemnedOrder;
    var head, tail := RoundPhases(g, m, ord, pods, condemned);
    PhaseSets(g, m, head, tail);
    AllStayCreated(calls, m);
    hide Effects, Created, Deleted;
    var after := Effects(calls, m);
    forall n
      ensures n in Counted(LiveAt(g.current), after) <==> n in Old(g, Rest(after))
    {
    }
  }

  lemma {:induction false} AllStayCreated(calls: seq<Action>, m: PodMap)
    requires forall n :: n in m ==> m[n].IsCreated()
    ensures forall n :: n in Effects(calls, m) ==> Effects(calls, m)[n].IsCreated()
    decreases |calls|
  {
    if calls != [] {
      AllStayCreated(calls[1..], Effect(calls[0], m));
    }
  }

  /** A round leads from one such state to the next. */
  lemma StaysUnderway(g: Goal, m: PodMap, g': Goal, m': PodMap, ord: Numbering,
                      pods: seq<Pod>, condemned: seq<Pod>, calls: seq<Action>)
    requires Rolls(g) && Settled(g, m, ord)
    requires Round(g, m, m', pods, condemned, calls) && Next(g, g', pods, calls)
    ensures Underway(g', m', ord)
    ensures g'.current == g.current || g'.current == g'.update
  {
    hide SyncPlan, PhasePlan, CondemnedOrder, NameAfter, Round, Old, Next, Completes, SameTarget, Shifted;
    hide Rolls, Settled, Settle, Observe;
    NextIs(g, g', pods, calls);
    RoundShifts(g, m, m', ord, pods, condemned, calls);
    StatusModerate(g, m, m', ord, pods, condemned, calls);
    SameSettled(g, g', m', ord);
    if !Completes(g.strategy, Settle(g, Observe(g, pods), calls)) {
      SameOld(g, g', m');
    }
  }

  lemma NextIs(g: Goal, g': Goal, pods: seq<Pod>, calls: seq<Action>)
    requires Next(g, g', pods, calls)
    ensures SameTarget(g, g') && g'.update == g.update
    ensures var s := Settle(g, Observe(g, pods), calls);
            if Completes(g.strategy, s) then g'.current == g.update
            else g'.current == g.current && g'.currentReplicas == s.currentReplicas
  {
    hide Settle;
    SettleTotals(g, Observe(g, pods), calls);
  }

  lemma SameSettled(g: Goal, g': Goal, m: PodMap, ord: Numbering)
    requires SameTarget(g, g') && Rolls(g) && Settled(g, m, ord)
    ensures Rolls(g') && Settled(g', m, ord)
  {
  }

  lemma SameOld(g: Goal, g': Goal, m: PodMap)
    requires g'.current == g.current
    ensures Old(g', m) == Old(g, m)
  {
  }

  /** The next goal does not raise the cost: with the update revision as the current one no
      missing pod is heavy. */
  lemma CostOfNext(g: Goal, g': Goal, m: PodMap, ord: Numbering)
    requires SameTarget(g, g') && (g'.current == g.current || g'.current == g'.update)
    ensures Cost(g', m, ord) <= Cost(g, m, ord)
  {
    hide Missing, Distance, Old, Under, Heavy, SameTarget;
    SameMissing(g, g', m);
    SameDistance(g, g', m);
    SameUpdate(g, g');
    HeavyIs(g, m, ord);
    HeavyIs(g', m, ord);
    if g'.current != g'.update {
      SameOld(g, g', m);
    }
  }

  lemma SameUpdate(g: Goal, g': Goal)
    requires SameTarget(g, g')
    ensures g'.update == g.update
  {
  }

  lemma SameMissing(g: Goal, g': Goal, m: PodMap)
    requires SameTarget(g, g')
    ensures Missing(g', m) == Missing(g, m)
  {
    assert WantedNames(g) == WantedNames(g') by {
      assert forall o :: g.NewPod(o).name == g'.NewPod(o).name;
    }
  }

  /** One round: it does not crash, leads to a such state again, lowers the cost by at
      least the number of pods it creates and deletes, and there are some unless the cost is
      zero. */
  lemma UnpartitionedRound(g: Goal, m: PodMap, g': Goal, m': PodMap, ord: Numbering,
                           pods: seq<Pod>, condemned: seq<Pod>, calls: seq<Action>)
    requires Underway(g, m, ord) && Round(g, m, m', pods, condemned, calls) && Next(g, g', pods, calls)
    ensures Executes(SyncPlan(g, pods, condemned), {}, calls, Planning.Returned)
    ensures Underway(g', m', ord)
    ensures Cost(g', m', ord) <= Cost(g, m, ord) - |Created(calls)| - |Deleted(calls)|
    ensures Cost(g, m, ord) == 0 <==> Created(calls) == {} && Deleted(calls) == {}
  {
    RoundShifts(g, m, m', ord, pods, condemned, calls);
    StaysUnderway(g, m, g', m', ord, pods, condemned, calls);
    MovesFall(g, m, m', ord, pods, condemned, calls);
    NextIs(g, g', pods, calls);
    CostOfNext(g, g', m', ord);
    hide Cost, SyncPlan, PhasePlan, NameAfter, Shifted, Next, Settle;
    if Created(calls) == {} && Deleted(calls) == {} {
      QuietCosts(g, m, ord, pods, condemned, calls);
    }
  }

  lemma QuietCosts(g: Goal, m: PodMap, ord: Numbering, pods: seq<Pod>, condemned: seq<Pod>, calls: seq<Action>)
    requires Rolls(g) && Settled(g, m, ord) && Lists(pods, m) && CondemnedOrder(g, pods, condemned)
    requires calls == SyncPlan(g, pods, condemned).actions && Created(calls) == {} && Deleted(calls) == {}
    ensures Cost(g, m, ord) == 0
  {
    hide SyncPlan, PhasePlan, CondemnedOrder, Names.PodName;
    forall a | a in calls
      ensures a.Update?
    {
      assert a.Create? ==> a.pod.name in Created(calls);
      assert a.DeleteFailed? || a.DeleteCondemned? || a.DeleteOutdated? ==> a.pod.name in Deleted(calls);
    }
    SomethingHappens(g, m, ord, pods, condemned);
    assert Missing(g, m) == {};
  }

  ghost predicate SomeNext(g: Goal, m: PodMap, g': Goal, m': PodMap) {
    exists pods, condemned, calls :: Round(g, m, m', pods, condemned, calls) && Next(g, g', pods, calls)
  }

  /** Rounds one after the other. Nothing is asked of the status stored at first. */
  ghost predicate LinkedRounds(gs: seq<Goal>, ms: seq<PodMap>, ord: Numbering) {
    && |gs| == |ms| > 0
    && Rolls(gs[0]) && Settled(gs[0], ms[0], ord)
    && forall i :: 0 <= i < |gs| - 1 ==> SomeNext(gs[i], ms[i], gs[i + 1], ms[i + 1])
  }

  /** Convergence without a partition: after a first round, whose status bounds the
      stored count, the goal is reached in at most as many rounds as the cost and kept. */
  lemma {:induction false} UnpartitionedConvergence(gs: seq<Goal>, ms: seq<PodMap>, ord: Numbering, i: nat)
    requires LinkedRounds(gs, ms, ord) && 1 <= i < |gs|
    ensures Underway(gs[i], ms[i], ord)
    ensures Cost(gs[i], ms[i], ord) <= (if i - 1 <= Cost(gs[1], ms[1], ord) then Cost(gs[1], ms[1], ord) - (i - 1) else 0)
  {
    hide Round, Cost, SyncPlan, PhasePlan, Next, Underway;
    var j := i - 1;
    assert SomeNext(gs[j], ms[j], gs[j + 1], ms[j + 1]);
    var pods, condemned, calls :| Round(gs[j], ms[j], ms[i], pods, condemned, calls) && Next(gs[j], gs[i], pods, calls);
    if i == 1 {
      StaysUnderway(gs[0], ms[0], gs[1], ms[1], ord, pods, condemned, calls);
    } else {
      UnpartitionedConvergence(gs, ms, ord, j);
      UnpartitionedRound(gs[j], ms[j], gs[i], ms[i], ord, pods, condemned, calls);
      NoCalls(calls);
    }
  }

  lemma NoCalls(calls: seq<Action>)
    ensures |Created(calls)| + |Deleted(calls)| == 0 ==> Created(calls) == {} && Deleted(calls) == {}
  {
  }

  /** At no cost the pods are exactly the wanted ones, all at the update revision. */
  lemma NoCostIsGoal(g: Goal, m: PodMap, ord: Numbering)
    requires Rolls(g) && Settled(g, m, ord)
    ensures Cost(g, m, ord) == 0
            <==> m.Keys == WantedNames(g) && forall n :: n in m ==> m[n].revision == g.update
  {
    hide Names.PodName, WantedNames;
    GoalReached(g, m, ord);
    if Distance(g, m) == 0 {
      assert Missing(g, m) == {};
    }
  }

  /** In the state machine the goals of successive syncs follow each other like this: a sync
      that gets its status stored is followed by syncs of the next goal. */
  lemma StoredNext(w: Machine.World, r: Cluster.SyncRecord, w': Machine.World, r': Cluster.SyncRecord, update: string)
    requires Livelock.Rolling(w, update) && w.status.currentRevision in w.store
    requires Machine.Step(w, Machine.Sync(r), w') && r.stage.Finished?
    requires History.Listing(r'.revisions, w'.store) && r'.newName !in w'.store
    ensures Next(Cluster.SyncGoal(w.spec, w.status, r), Cluster.SyncGoal(w'.spec, w'.status, r'), r.listing, r.calls)
  {
    var g := Cluster.SyncGoal(w.spec, w.status, r);
    Relapse.GoalResolved(w, r, w.status.currentRevision, update);
    Livelock.RollingAfter(w, r, w', update);
    Machine.StatusRevisions(w, r, w');
    UpdateStored(w, r, w', update);
    Relapse.GoalResolved(w', r', w'.status.currentRevision, update);
    hide Settle, Observe, Slots.MaxCount;
    SettleTotals(g, Observe(g, r.listing), r.calls);
  }

  lemma UpdateStored(w: Machine.World, r: Cluster.SyncRecord, w': Machine.World, update: string)
    requires Livelock.Rolling(w, update) && w.status.currentRevision in w.store
    requires Machine.Step(w, Machine.Sync(r), w') && r.stage.Finished?
    ensures update in w'.store && w'.status.currentRevision in w'.store
  {
    Livelock.RollingRevisions(w, r, update);
    Livelock.RollingAfter(w, r, w', update);
    Machine.StatusRevisions(w, r, w');
  }
}
