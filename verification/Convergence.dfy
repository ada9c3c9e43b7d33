/** From any settled state the controller reaches its goal: every round of an
    error-free sync, after which terminating pods vanish and all others become
    running and ready, brings the cluster closer by exactly the number of pods the
    sync created and deleted, and some pod is created or deleted until the goal is
    reached. With strategy OnDelete the goal is the right pods at whatever revision. */
module Convergence {
  import opened Pods
  import opened Planning
  import opened StepSafety
  import opened Completion
  import opened Conservation
  import Names
  import Slots

  /** All pods are the set's own, running, ready and not terminating. */
  ghost predicate Settled(g: Goal, m: PodMap, ord: Numbering) {
    && Orderly(g.setName, m, ord) && Reads(g.setName, ord)
    && forall n :: n in m ==> m[n].IsHealthy()
  }

  /** A set that is not deleted and whose block does not make a sync panic. */
  ghost predicate Moving(g: Goal) {
    && 0 <= g.replicaCount <= Slots.MAX_INT32
    && !g.deleting && !g.LacksPartition() && (g.strategy.OnDelete? || 0 <= g.UpdateMin())
  }

  /** Such a set whose new pods do not depend on the stored count of current replicas. */
  ghost predicate Converges(g: Goal) {
    Moving(g) && (g.Partition().Some? || !g.strategy.RollingUpdate?)
  }

  // ------------------------------------------------------------------ the measure

  function WantedNames(g: Goal): set<string> {
    set o | 0 <= o < g.replicaCount && o !in g.slots :: g.NewPod(o).name
  }

  function Missing(g: Goal, m: PodMap): set<string> {
    WantedNames(g) - m.Keys
  }

  function Outside(g: Goal, m: PodMap): set<string> {
    set n | n in m && g.Condemns(m[n].ordinal)
  }

  /** The pods to update; with strategy OnDelete that is left to the user. */
  function Stale(g: Goal, m: PodMap): set<string> {
    set n | n in m && !g.strategy.OnDelete? && g.Wants(m[n].ordinal)
            && g.UpdateMin() <= m[n].ordinal && m[n].revision != g.update
  }

  function Distance(g: Goal, m: PodMap): nat {
    |Missing(g, m)| + |Outside(g, m)| + 2 * |Stale(g, m)|
  }

  // ------------------------------------------------------------------- the round

  function Created(calls: seq<Action>): set<string> {
    set a | a in calls && a.Create? :: a.pod.name
  }

  function Deleted(calls: seq<Action>): set<string> {
    set a | a in calls && (a.DeleteFailed? || a.DeleteCondemned? || a.DeleteOutdated?) :: a.pod.name
  }

  /** Terminating pods vanish, the others become running and ready. */
  function Rest(m: PodMap): PodMap {
    map n | n in m && !m[n].terminating :: m[n].(phase := Running, ready := true)
  }

  /** An error-free sync of a complete listing, then rest. */
  ghost predicate Round(g: Goal, m: PodMap, m': PodMap, pods: seq<Pod>, condemned: seq<Pod>, calls: seq<Action>) {
    && Lists(pods, m) && CondemnedOrder(g, pods, condemned)
    && calls == SyncPlan(g, pods, condemned).actions
    && m' == Rest(Effects(calls, m))
  }

  // ------------------------------------------------- what a settled sync calls

  /** In a settled cluster the calls create missing pods and delete outside or stale
      ones. */
  ghost predicate Closing(g: Goal, m: PodMap, a: Action) {
    match a
    case Create(p) =>
      p == g.NewPod(p.ordinal) && g.Wants(p.ordinal) && p.name in Missing(g, m)
    case Update(p) => p.name in m
    case DeleteFailed(_) => false
    case DeleteCondemned(p) => p.name in Outside(g, m)
    case DeleteOutdated(p) => p.name in Stale(g, m)
  }

  lemma CallsClose(g: Goal, m: PodMap, ord: Numbering, pods: seq<Pod>, condemned: seq<Pod>, a: Action)
    requires Converges(g) && Settled(g, m, ord)
    requires Lists(pods, m) && CondemnedOrder(g, pods, condemned)
    requires a in SyncPlan(g, pods, condemned).actions
    ensures Closing(g, m, a)
  {
    CallsLicensed(g, pods, condemned, a);
    var p := a.pod;
    assert p in pods ==> p.name in m && m[p.name] == p;
    if a.Create? {
      forall q | q in pods
        ensures q.ordinal != p.ordinal
      {
        assert m[q.name] == q;
      }
      forall n | n in m
        ensures m[n].ordinal != p.ordinal
      {
        assert m[n] in pods;
      }
    }
  }

  // -------------------------------------------------------- what the calls leave

  lemma {:induction false} EffectsNames(calls: seq<Action>, m: PodMap)
    requires forall a :: a in calls ==> !a.DeleteFailed?
    ensures Effects(calls, m).Keys == m.Keys + Created(calls)
    decreases |calls|
  {
    if calls != [] {
      var a := calls[0];
      EffectsNames(calls[1..], Effect(a, m));
      assert calls == [a] + calls[1..];
      assert Created(calls) == Created(calls[1..]) + if a.Create? then {a.pod.name} else {};
    }
  }

  /** What becomes of one pod, created before it is deleted if at all. */
  lemma {:induction false} EffectsAt(calls: seq<Action>, m: PodMap, n: string)
    requires forall a :: a in calls ==> !a.DeleteFailed? && (a.Create? ==> !a.pod.terminating)
    requires n in m && n !in Created(calls)
    ensures n in Effects(calls, m)
    ensures var q := Effects(calls, m)[n];
            && q.name == m[n].name && q.ordinal == m[n].ordinal && q.revision == m[n].revision
            && (q.terminating <==> m[n].terminating || n in Deleted(calls))
            && (m[n].IsCreated() ==> q.IsCreated())
    decreases |calls|
  {
    if calls != [] {
      var a := calls[0];
      assert calls == [a] + calls[1..];
      assert a in calls && forall b :: b in calls[1..] ==> b in calls;
      EffectsAt(calls[1..], Effect(a, m), n);
      assert Deleted(calls) == Deleted(calls[1..])
                               + if a.DeleteCondemned? || a.DeleteOutdated? then {a.pod.name} else {};
    }
  }

  /** A pod created by the calls and not deleted. */
  lemma {:induction false} EffectsNew(calls: seq<Action>, m: PodMap, p: Pod)
    requires forall a :: a in calls ==> !a.DeleteFailed? && (a.Create? ==> !a.pod.terminating)
    requires Create(p) in calls && p.name !in Deleted(calls)
    requires forall a :: a in calls && a.Create? && a.pod.name == p.name ==> a.pod == p
    ensures p.name in Effects(calls, m)
    ensures var q := Effects(calls, m)[p.name];
            && q.name == p.name && q.ordinal == p.ordinal && q.revision == p.revision
            && !q.terminating && q.IsCreated()
    decreases |calls|
  {
    var a := calls[0];
    var rest := calls[1..];
    assert calls == [a] + rest;
    assert forall b :: b in rest ==> b in calls;
    assert p.name !in Deleted(rest);
    if Create(p) in rest {
      EffectsNew(rest, Effect(a, m), p);
    } else {
      assert a == Create(p);
      assert p.name !in Created(rest);
      EffectsAt(rest, Effect(a, m), p.name);
    }
  }

  // ------------------------------------------------------------ a round's outcome

  /** What a round does to one name. */
  ghost predicate NameMoved(g: Goal, m: PodMap, m': PodMap, ord: Numbering, calls: seq<Action>, n: string) {
    && (n in m' <==> (n in m || n in Created(calls)) && n !in Deleted(calls))
    && (n in m' && n in m ==> m'[n].ordinal == m[n].ordinal && m'[n].revision == m[n].revision)
    && (n in m' && n !in m ==> NewInPlace(g, m'[n]))
    && (n in m' ==> InPlace(g.setName, m'[n], ord, n))
  }

  predicate NewInPlace(g: Goal, p: Pod) {
    g.Wants(p.ordinal) && (g.UpdateMin() <= p.ordinal ==> p.revision == g.update)
  }

  ghost predicate InPlace(setName: string, p: Pod, ord: Numbering, n: string) {
    p.name == n && p.IsHealthy() && p.ordinal == ord(n) && 0 <= p.ordinal && n == Names.PodName(setName, p.ordinal)
  }

  ghost predicate Moves(g: Goal, m: PodMap, m': PodMap, ord: Numbering, calls: seq<Action>) {
    && Created(calls) <= Missing(g, m)
    && Deleted(calls) <= Outside(g, m) + Stale(g, m)
    && forall n :: NameMoved(g, m, m', ord, calls, n)
  }

  lemma RoundMoves(g: Goal, m: PodMap, m': PodMap, ord: Numbering,
                   pods: seq<Pod>, condemned: seq<Pod>, calls: seq<Action>)
    requires Converges(g) && Settled(g, m, ord) && Round(g, m, m', pods, condemned, calls)
    ensures Moves(g, m, m', ord, calls) && Settled(g, m', ord)
  {
    forall a | a in calls
      ensures Closing(g, m, a)
    {
      CallsClose(g, m, ord, pods, condemned, a);
    }
    forall n
      ensures NameMoved(g, m, m', ord, calls, n)
    {
      NameMoves(g, m, ord, calls, n);
    }
    ClosingNames(g, m, calls);
    StillSettled(g, m, m', ord, calls);
  }

  lemma ClosingNames(g: Goal, m: PodMap, calls: seq<Action>)
    requires forall a :: a in calls ==> Closing(g, m, a)
    ensures Created(calls) <= Missing(g, m)
    ensures Deleted(calls) <= Outside(g, m) + Stale(g, m)
  {
  }

  lemma StillSettled(g: Goal, m: PodMap, m': PodMap, ord: Numbering, calls: seq<Action>)
    requires Settled(g, m, ord) && forall n :: NameMoved(g, m, m', ord, calls, n)
    ensures Settled(g, m', ord)
  {
    forall n | n in m'
      ensures InPlace(g.setName, m'[n], ord, n)
    {
      assert NameMoved(g, m, m', ord, calls, n);
    }
  }

  /** What the calls of a round say about one name. */
  lemma ClosingName(g: Goal, m: PodMap, calls: seq<Action>, n: string)
    requires forall a :: a in calls ==> Closing(g, m, a)
    ensures forall a :: a in calls ==> !a.DeleteFailed? && (a.Create? ==> !a.pod.terminating)
    ensures n in m ==> n !in Created(calls)
    ensures n !in m ==> n !in Deleted(calls)
  {
  }

  lemma OldNameMoves(g: Goal, m: PodMap, ord: Numbering, calls: seq<Action>, n: string)
    requires Settled(g, m, ord) && n in m
    requires forall a :: a in calls ==> Closing(g, m, a)
    ensures NameMoved(g, m, Rest(Effects(calls, m)), ord, calls, n)
  {
    hide Effects, Closing, Created, Deleted, Names.PodName;
    ClosingName(g, m, calls, n);
    EffectsNames(calls, m);
    EffectsAt(calls, m, n);
  }

  lemma NewNameMoves(g: Goal, m: PodMap, ord: Numbering, calls: seq<Action>, n: string)
    requires Converges(g) && Settled(g, m, ord) && n !in m && n in Created(calls)
    requires forall a :: a in calls ==> Closing(g, m, a)
    ensures NameMoved(g, m, Rest(Effects(calls, m)), ord, calls, n)
  {
    hide Effects, Created, Deleted, Closing, Converges, Settled, Names.PodName;
    ClosingName(g, m, calls, n);
    EffectsNames(calls, m);
    var p := CreatedPod(g, m, ord, calls, n);
    EffectsNew(calls, m, p);
  }

  lemma CreatedPod(g: Goal, m: PodMap, ord: Numbering, calls: seq<Action>, n: string) returns (p: Pod)
    requires Converges(g) && Settled(g, m, ord) && n in Created(calls)
    requires forall a :: a in calls ==> Closing(g, m, a)
    ensures Create(p) in calls && NewInPlace(g, p)
    ensures p.name == n && p.ordinal == ord(n) && 0 <= p.ordinal && n == Names.PodName(g.setName, p.ordinal)
    ensures forall a :: a in calls && a.Create? && a.pod.name == n ==> a.pod == p
  {
    hide Effects, Missing, Names.PodName;
    var c :| c in calls && c.Create? && c.pod.name == n;
    p := c.pod;
    assert ord(n) == p.ordinal;
    forall b | b in calls && b.Create? && b.pod.name == n
      ensures b.pod == p
    {
      assert ord(b.pod.name) == b.pod.ordinal;
    }
  }

  /** One name in a round. */
  lemma NameMoves(g: Goal, m: PodMap, ord: Numbering, calls: seq<Action>, n: string)
    requires Converges(g) && Settled(g, m, ord)
    requires forall a :: a in calls ==> Closing(g, m, a)
    ensures NameMoved(g, m, Rest(Effects(calls, m)), ord, calls, n)
  {
    if n in m {
      OldNameMoves(g, m, ord, calls, n);
    } else if n in Created(calls) {
      NewNameMoves(g, m, ord, calls, n);
    } else {
      ClosingName(g, m, calls, n);
      EffectsNames(calls, m);
    }
  }

  lemma SizeDifference(a: set<string>, b: set<string>)
    requires b <= a
    ensures |a - b| == |a| - |b|
  {
    assert a == (a - b) + b;
  }

  lemma StaleWanted(g: Goal, m: PodMap, ord: Numbering)
    requires Moving(g) && Settled(g, m, ord)
    ensures Stale(g, m) <= WantedNames(g)
    ensures forall n :: n in m && n in WantedNames(g) ==> g.Wants(m[n].ordinal)
  {
    forall n | n in m && n in WantedNames(g)
      ensures g.Wants(m[n].ordinal)
    {
      var o :| 0 <= o < g.replicaCount && o !in g.slots && n == g.NewPod(o).name;
      assert ord(n) == o;
    }
  }

  lemma MissingAt(g: Goal, m: PodMap, m': PodMap, created: set<string>, deleted: set<string>, n: string)
    requires n in m' <==> (n in m || n in created) && n !in deleted
    requires created <= Missing(g, m) && deleted <= Outside(g, m) + Stale(g, m)
    requires Stale(g, m) <= WantedNames(g)
    requires n in m && n in WantedNames(g) ==> g.Wants(m[n].ordinal)
    ensures n in Missing(g, m') <==> n in (Missing(g, m) - created) + deleted * Stale(g, m)
  {
  }

  lemma MissingMoves(g: Goal, m: PodMap, m': PodMap, ord: Numbering, calls: seq<Action>)
    requires Converges(g) && Settled(g, m, ord) && Moves(g, m, m', ord, calls)
    ensures |Missing(g, m')| == |Missing(g, m)| - |Created(calls)| + |Deleted(calls) * Stale(g, m)|
  {
    var created, stale := Created(calls), Deleted(calls) * Stale(g, m);
    StaleWanted(g, m, ord);
    forall n
      ensures n in Missing(g, m') <==> n in (Missing(g, m) - created) + stale
    {
      assert NameMoved(g, m, m', ord, calls, n);
      MissingAt(g, m, m', created, Deleted(calls), n);
    }
    MissingSize(Missing(g, m'), Missing(g, m), created, stale, m.Keys);
  }

  lemma MissingSize(after: set<string>, before: set<string>, created: set<string>, stale: set<string>, keys: set<string>)
    requires forall n :: n in after <==> n in (before - created) + stale
    requires created <= before && before !! keys && stale <= keys
    ensures |after| == |before| - |created| + |stale|
  {
    assert after == (before - created) + stale;
    SizeDifference(before, created);
    assert (before - created) !! stale;
  }

  lemma OutsideMoves(g: Goal, m: PodMap, m': PodMap, ord: Numbering, calls: seq<Action>)
    requires Moves(g, m, m', ord, calls)
    ensures |Outside(g, m')| == |Outside(g, m)| - |Deleted(calls) * Outside(g, m)|
  {
    var out := Deleted(calls) * Outside(g, m);
    forall n
      ensures n in Outside(g, m') <==> n in Outside(g, m) - out
    {
      assert NameMoved(g, m, m', ord, calls, n);
    }
    assert Outside(g, m') == Outside(g, m) - out;
    SizeDifference(Outside(g, m), out);
  }

  lemma StaleMoves(g: Goal, m: PodMap, m': PodMap, ord: Numbering, calls: seq<Action>)
    requires Moves(g, m, m', ord, calls)
    ensures |Stale(g, m')| == |Stale(g, m)| - |Deleted(calls) * Stale(g, m)|
  {
    var stale := Deleted(calls) * Stale(g, m);
    forall n
      ensures n in Stale(g, m') <==> n in Stale(g, m) - stale
    {
      assert NameMoved(g, m, m', ord, calls, n);
    }
    assert Stale(g, m') == Stale(g, m) - stale;
    SizeDifference(Stale(g, m), stale);
  }

  /** A round brings the cluster closer by what it created and deleted. */
  lemma MovesCloser(g: Goal, m: PodMap, m': PodMap, ord: Numbering, calls: seq<Action>)
    requires Converges(g) && Settled(g, m, ord) && Moves(g, m, m', ord, calls)
    ensures Distance(g, m') == Distance(g, m) - |Created(calls)| - |Deleted(calls)|
  {
    hide Moves, Missing, Outside, Stale, Converges, Settled, Created, Deleted;
    MissingMoves(g, m, m', ord, calls);
    OutsideMoves(g, m, m', ord, calls);
    StaleMoves(g, m, m', ord, calls);
    DeletedApart(g, m, m', ord, calls);
  }

  lemma DeletedApart(g: Goal, m: PodMap, m': PodMap, ord: Numbering, calls: seq<Action>)
    requires Moves(g, m, m', ord, calls)
    ensures |Deleted(calls)| == |Deleted(calls) * Outside(g, m)| + |Deleted(calls) * Stale(g, m)|
  {
    hide Deleted, NameMoved, Missing;
    assert Outside(g, m) !! Stale(g, m);
    SplitSize(Deleted(calls), Outside(g, m), Stale(g, m));
  }

  lemma SplitSize(whole: set<string>, a: set<string>, b: set<string>)
    requires whole <= a + b && a !! b
    ensures |whole| == |whole * a| + |whole * b|
  {
    assert whole == whole * a + whole * b;
  }

  // -------------------------------------------------------------------- progress

  lemma {:induction false} RollingFinds(g: Goal, reps: seq<Option<Pod>>, n: nat, t: nat)
    requires t < n <= |reps| && g.UpdateMin() <= t
    requires HealthySome(reps, 0, n)
    requires reps[t].Some? && reps[t].value.revision != g.update
    ensures exists a :: a in RollingPlan(g, reps, n).actions && a.DeleteOutdated?
  {
    if reps[n - 1].Some? && reps[n - 1].value.revision != g.update {
      assert DeleteOutdated(reps[n - 1].value) in RollingPlan(g, reps, n).actions;
    } else {
      RollingFinds(g, reps, n - 1, t);
    }
  }

  /** The phases of a sync that only issues updates only issue updates. */
  lemma OnlyUpdatesThroughout(head: Plan, middle: Plan, last: Plan)
    requires forall a :: a in Then(head, Then(middle, last)).actions ==> a.Update?
    ensures forall a :: a in head.actions ==> a.Update?
    ensures head.ending.Through? ==> forall a :: a in middle.actions ==> a.Update?
    ensures head.ending.Through? && middle.ending.Through? ==> forall a :: a in last.actions ==> a.Update?
  {
    var rest := Then(middle, last);
    assert forall a :: a in head.actions ==> a in Then(head, rest).actions;
    if head.ending.Through? {
      assert forall a :: a in rest.actions ==> a in Then(head, rest).actions;
      assert forall a :: a in middle.actions ==> a in rest.actions;
    }
  }

  /** Without creations no wanted pod is missing. */
  lemma HeadQuiet(g: Goal, pods: seq<Pod>)
    requires 0 <= g.replicaCount && forall p :: p in pods ==> p.IsHealthy()
    requires forall a :: a in ReplicaPlan(g, Replicas(g, pods), 0).actions ==> a.Update?
    ensures HealthySome(Replicas(g, pods), 0, g.replicaCount)
    ensures ReplicaPlan(g, Replicas(g, pods), 0).ending.Through?
    ensures Recreated(g, Replicas(g, pods)) == Replicas(g, pods)
  {
    var reps := Replicas(g, pods);
    assert forall j :: 0 <= j < |reps| ==> reps[j] == Replica(g, pods, j);
    NothingMissing(g, reps, 0);
    ReplicaPhaseEnd(g, reps, 0);
  }

  /** Short of the goal, a sync of a settled cluster creates or deletes something. */
  lemma SomethingHappens(g: Goal, m: PodMap, ord: Numbering, pods: seq<Pod>, condemned: seq<Pod>)
    requires Moving(g) && Settled(g, m, ord) && Lists(pods, m) && CondemnedOrder(g, pods, condemned)
    requires forall a :: a in SyncPlan(g, pods, condemned).actions ==> a.Update?
    ensures Distance(g, m) == 0
  {
    AllListedHealthy(g, m, pods);
    SettledPlan(g, pods, condemned);
    var reps := Replicas(g, pods);
    var first := FirstUnhealthy(Present(reps) + condemned);
    var middle := ScaleDownPlan(g, condemned, first, |condemned|);
    OnlyUpdatesThroughout(ReplicaPlan(g, reps, 0), middle, UpdatePlan(g, Recreated(g, reps)));
    HeadQuiet(g, pods);
    forall p | p in condemned
      ensures p in pods
    {
      CondemnedMember(g, pods, condemned, p);
    }
    TopIsDeleted(g, pods, condemned, first);
    assert condemned == [];
    NoneMissing(g, m, ord, pods);
    NoneOutside(g, m, pods, condemned);
    NoneStale(g, m, ord, pods);
  }

  lemma AllListedHealthy(g: Goal, m: PodMap, pods: seq<Pod>)
    requires Lists(pods, m) && forall n :: n in m ==> m[n].IsHealthy()
    ensures forall p :: p in pods ==> p.IsHealthy()
  {
    forall p | p in pods
      ensures p.IsHealthy()
    {
      assert m[p.name] == p;
    }
  }

  lemma SettledPlan(g: Goal, pods: seq<Pod>, condemned: seq<Pod>)
    requires Moving(g) && CondemnedOrder(g, pods, condemned)
    requires forall p :: p in pods ==> p.IsHealthy()
    ensures !SyncPlan(g, pods, condemned).ending.Panic?
    ensures var reps := Replicas(g, pods);
            SyncPlan(g, pods, condemned)
            == Then(ReplicaPlan(g, reps, 0),
                    Then(ScaleDownPlan(g, condemned, FirstUnhealthy(Present(reps) + condemned), |condemned|),
                         UpdatePlan(g, Recreated(g, reps))))
  {
    CrashExactly(g, pods, condemned);
    PlanContinues(g, pods, condemned);
  }

  lemma NoneMissing(g: Goal, m: PodMap, ord: Numbering, pods: seq<Pod>)
    requires Moving(g) && Settled(g, m, ord) && Lists(pods, m)
    requires HealthySome(Replicas(g, pods), 0, g.replicaCount)
    ensures Missing(g, m) == {}
  {
    AllWantedHealthy(g, pods, 0, g.replicaCount);
    forall n | n in WantedNames(g)
      ensures n in m
    {
      var o :| 0 <= o < g.replicaCount && o !in g.slots && n == g.NewPod(o).name;
      assert HealthyAt(pods, o);
      var p := PodAt(pods, o).value;
      assert p.name in m && m[p.name] == p;
    }
  }

  lemma NoneOutside(g: Goal, m: PodMap, pods: seq<Pod>, condemned: seq<Pod>)
    requires Lists(pods, m) && CondemnedOrder(g, pods, condemned) && condemned == []
    ensures Outside(g, m) == {}
  {
    forall n | n in m
      ensures !g.Condemns(m[n].ordinal)
    {
      CondemnedMember(g, pods, condemned, m[n]);
    }
  }

  lemma NoneStale(g: Goal, m: PodMap, ord: Numbering, pods: seq<Pod>)
    requires Moving(g) && Settled(g, m, ord) && Lists(pods, m)
    requires HealthySome(Replicas(g, pods), 0, g.replicaCount)
    requires forall a :: a in UpdatePlan(g, Replicas(g, pods)).actions ==> !a.DeleteOutdated?
    ensures Stale(g, m) == {}
  {
    var reps := Replicas(g, pods);
    forall n | n in Stale(g, m)
      ensures false
    {
      var o := m[n].ordinal;
      assert m[n] in pods;
      assert reps[o] == Replica(g, pods, o);
      var p := PodAt(pods, o).value;
      assert m[p.name] == p;
      RollingFinds(g, reps, |reps|, o);
    }
  }

  // ------------------------------------------------------------------- convergence

  /** Convergence, one round: an error-free sync of a settled cluster does not crash,
      the next settled cluster is closer by exactly the pods created and deleted, and
      that number is zero exactly at the goal. */
  lemma RoundConverges(g: Goal, m: PodMap, m': PodMap, ord: Numbering,
                       pods: seq<Pod>, condemned: seq<Pod>, calls: seq<Action>)
    requires Converges(g) && Settled(g, m, ord) && Round(g, m, m', pods, condemned, calls)
    ensures Executes(SyncPlan(g, pods, condemned), {}, calls, Planning.Returned)
    ensures Settled(g, m', ord)
    ensures Distance(g, m') == Distance(g, m) - |Created(calls)| - |Deleted(calls)|
    ensures Distance(g, m) == 0 <==> Created(calls) == {} && Deleted(calls) == {}
    ensures Distance(g, m) > 0 ==> Distance(g, m') < Distance(g, m)
  {
    AllListedHealthy(g, m, pods);
    SettledPlan(g, pods, condemned);
    RoundMoves(g, m, m', ord, pods, condemned, calls);
    MovesCloser(g, m, m', ord, calls);
    if Created(calls) == {} && Deleted(calls) == {} {
      forall a | a in calls
        ensures a.Update?
      {
        assert a.Create? ==> a.pod.name in Created(calls);
        assert a.DeleteFailed? || a.DeleteCondemned? || a.DeleteOutdated? ==> a.pod.name in Deleted(calls);
      }
      SomethingHappens(g, m, ord, pods, condemned);
    }
  }

  /** Pods that are neither outside nor missing are exactly the wanted ones. */
  lemma ExactlyWanted(g: Goal, m: PodMap, ord: Numbering)
    requires Moving(g) && Settled(g, m, ord)
    ensures Missing(g, m) == {} && Outside(g, m) == {} <==> m.Keys == WantedNames(g)
  {
    StaleWanted(g, m, ord);
    if Missing(g, m) == {} && Outside(g, m) == {} {
      forall n | n in m
        ensures n in WantedNames(g)
      {
        assert n !in Outside(g, m);
        assert n == g.NewPod(m[n].ordinal).name;
      }
      assert m.Keys <= WantedNames(g);
      forall n | n in WantedNames(g)
        ensures n in m
      {
        assert n !in Missing(g, m);
      }
      assert m.Keys == WantedNames(g);
    }
    if m.Keys == WantedNames(g) {
      forall n | n in m
        ensures n !in Outside(g, m)
      {
        assert n in m.Keys && g.Wants(m[n].ordinal);
      }
      assert Outside(g, m) == {};
      assert Missing(g, m) == {};
    }
  }

  /** At distance zero the pods are exactly the wanted ones, and unless the strategy is
      OnDelete those at or above the partition are at the update revision. */
  lemma GoalReached(g: Goal, m: PodMap, ord: Numbering)
    requires Moving(g) && Settled(g, m, ord)
    ensures Distance(g, m) == 0 <==>
              && m.Keys == WantedNames(g)
              && (g.strategy.OnDelete?
                  || forall n :: n in m && g.UpdateMin() <= m[n].ordinal ==> m[n].revision == g.update)
  {
    hide Settled, Missing, Outside, Stale, WantedNames;
    ExactlyWanted(g, m, ord);
    if m.Keys == WantedNames(g) {
      NoneStaleIff(g, m, ord);
    }
  }

  lemma NoneStaleIff(g: Goal, m: PodMap, ord: Numbering)
    requires Moving(g) && Settled(g, m, ord) && m.Keys == WantedNames(g)
    ensures Stale(g, m) == {}
            <==> g.strategy.OnDelete?
                 || forall n :: n in m && g.UpdateMin() <= m[n].ordinal ==> m[n].revision == g.update
  {
    hide Settled, WantedNames;
    StaleWanted(g, m, ord);
    forall n | n in m
      ensures n in Stale(g, m) <==> !g.strategy.OnDelete? && g.UpdateMin() <= m[n].ordinal && m[n].revision != g.update
    {
      assert n in m.Keys;
    }
  }

  /** The goals of successive syncs may differ in the current revision, the stored
      counters and the policy. */
  ghost predicate SameTarget(g: Goal, h: Goal) {
    && h.setName == g.setName && h.replicaCount == g.replicaCount && h.slots == g.slots
    && h.strategy == g.strategy && h.rollingUpdate == g.rollingUpdate && h.deleting == g.deleting
    && h.update == g.update
  }

  lemma SameDistance(g: Goal, h: Goal, m: PodMap)
    requires SameTarget(g, h)
    ensures Distance(g, m) == Distance(h, m)
  {
    assert WantedNames(g) == WantedNames(h) by {
      assert forall o :: g.NewPod(o).name == h.NewPod(o).name;
    }
    assert Outside(g, m) == Outside(h, m);
    assert Stale(g, m) == Stale(h, m);
  }

  /** A sequence of rounds, under either policy. */
  ghost predicate Rounds(g: Goal, ms: seq<PodMap>, ord: Numbering) {
    && ms != [] && Settled(g, ms[0], ord)
    && forall i :: 0 <= i < |ms| - 1 ==> SomeRound(g, ms[i], ms[i + 1])
  }

  ghost predicate SomeRound(g: Goal, m: PodMap, m': PodMap) {
    exists h: Goal, pods, condemned, calls :: SameTarget(g, h) && Round(h, m, m', pods, condemned, calls)
  }

  /** Convergence: after at most as many rounds as the initial distance the goal is
      reached, and it is kept from then on. */
  lemma {:induction false} Convergence(g: Goal, ms: seq<PodMap>, ord: Numbering, i: nat)
    requires Converges(g) && Rounds(g, ms, ord) && i < |ms|
    ensures Settled(g, ms[i], ord)
    ensures Distance(g, ms[i]) <= (if i <= Distance(g, ms[0]) then Distance(g, ms[0]) - i else 0)
  {
    hide Round, Distance, SyncPlan, PhasePlan, Orderly, Reads;
    if i > 0 {
      Convergence(g, ms, ord, i - 1);
      assert SomeRound(g, ms[i - 1], ms[i - 1 + 1]);
      var h: Goal, pods, condemned, calls :|
        SameTarget(g, h) && Round(h, ms[i - 1], ms[i], pods, condemned, calls);
      RoundConverges(h, ms[i - 1], ms[i], ord, pods, condemned, calls);
      SameDistance(g, h, ms[i - 1]);
      SameDistance(g, h, ms[i]);
    }
  }
}
