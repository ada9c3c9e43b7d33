/** The status a sync reports is the status of the cluster it leaves behind. */
module Conservation {
  import opened Pods
  import opened Planning
  import opened StepSafety
  import opened Completion
  import Names
  import Slots

  /** The pods of the set in the API server, by name. */
  type PodMap = map<string, Pod>

  /** How ordinals are read off names. The proofs only need that the names the
      controller generates read back; that the parser does so is NamesRead. */
  type Numbering = string -> int

  ghost predicate Numbers(g: Goal, ord: Numbering) {
    forall i :: 0 <= i < g.replicaCount ==> ord(g.NewPod(i).name) == i
  }

  /** Pods are filed under their name, carry the ordinal their name encodes, and
      have been created. */
  ghost predicate WellKept(m: PodMap, ord: Numbering) {
    forall n :: n in m ==> m[n].name == n && m[n].ordinal == ord(n) && m[n].IsCreated()
  }

  /** No two pods have the same ordinal, ignored pods aside. */
  ghost predicate DistinctOrdinals(g: Goal, m: PodMap) {
    forall n, n' :: n in m && n' in m && n != n' && (g.Wants(m[n].ordinal) || g.Condemns(m[n].ordinal))
                    ==> m[n].ordinal != m[n'].ordinal
  }

  /** A complete listing of the pods, in any order. */
  ghost predicate Lists(pods: seq<Pod>, m: PodMap) {
    && (forall i, j :: 0 <= i < j < |pods| ==> pods[i].name != pods[j].name)
    && (forall p :: p in pods ==> p.name in m && m[p.name] == p)
    && (forall n :: n in m ==> m[n] in pods && m[n].name == n)
  }

  // ------------------------------------------------------------------- effects

  /** A created pod starts out pending. */
  function Issued(pod: Pod): Pod {
    pod.(phase := Pending)
  }

  /** What a successful call does. A failed pod is removed at once, since its
      successor takes its name; other deletions are graceful. */
  function Effect(a: Action, m: PodMap): PodMap {
    var n := a.pod.name;
    match a
    case Create(pod) => m[n := Issued(pod)]
    case Update(_) => if n in m then m[n := m[n].(conforms := true)] else m
    case DeleteFailed(_) => m - {n}
    case DeleteCondemned(_) => if n in m then m[n := m[n].(terminating := true)] else m
    case DeleteOutdated(_) => if n in m then m[n := m[n].(terminating := true)] else m
  }

  function Effects(calls: seq<Action>, m: PodMap): PodMap {
    if calls == [] then m else Effects(calls[1..], Effect(calls[0], m))
  }

  // -------------------------------------------------------------------- counts

  function Counted(what: Trait, m: PodMap): set<string> {
    set n | n in m && Counts(what, m[n])
  }

  /** The status a fresh listing of the cluster amounts to. */
  function ObserveCluster(g: Goal, m: PodMap): Status {
    Status(g.generation, |m|, |Counted(Ready, m)|,
           |Counted(LiveAt(g.current), m)|, |Counted(LiveAt(g.update), m)|,
           g.current, g.update, g.collisionCount)
  }

  lemma {:induction false} ListingCounts(g: Goal, pods: seq<Pod>, m: PodMap)
    requires Lists(pods, m)
    ensures Observe(g, pods) == ObserveCluster(g, m)
  {
    ListingTally(Ready, pods, m);
    ListingTally(LiveAt(g.current), pods, m);
    ListingTally(LiveAt(g.update), pods, m);
  }

  lemma ListsFront(pods: seq<Pod>, m: PodMap)
    requires Lists(pods, m) && pods != []
    ensures var p := pods[|pods| - 1];
            p.name in m && m[p.name] == p && Lists(pods[..|pods| - 1], m - {p.name})
  {
    var front, p := pods[..|pods| - 1], pods[|pods| - 1];
    assert pods == front + [p];
    forall q | q in front
      ensures q.name in m - {p.name} && m[q.name] == q
    {
      var i :| 0 <= i < |front| && front[i] == q;
      assert pods[i] in pods;
    }
    forall n | n in m - {p.name}
      ensures m[n] in front
    {
      assert m[n] in pods && m[n] != p;
    }
    forall i, j | 0 <= i < j < |front|
      ensures front[i].name != front[j].name
    {
      assert pods[i].name != pods[j].name;
    }
  }

  lemma {:induction false} ListingTally(what: Trait, pods: seq<Pod>, m: PodMap)
    requires Lists(pods, m)
    ensures |pods| == |m| && Tally(what, pods) == |Counted(what, m)|
  {
    if pods == [] {
      assert m == map[];
    } else {
      var p := pods[|pods| - 1];
      ListsFront(pods, m);
      ListingTally(what, pods[..|pods| - 1], m - {p.name});
      CountsRemoved(what, m, p.name);
    }
  }

  lemma OneMore(s: set<string>, t: set<string>, n: string, more: bool)
    requires n !in s && t == if more then s + {n} else s
    ensures |t| == |s| + if more then 1 else 0
  {
  }

  lemma CountedAdded(what: Trait, m: PodMap, n: string, p: Pod)
    requires n !in m
    ensures Counted(what, m[n := p]) == if Counts(what, p) then Counted(what, m) + {n} else Counted(what, m)
  {
  }

  lemma CountsAdded(what: Trait, m: PodMap, n: string, p: Pod)
    requires n !in m
    ensures |m[n := p]| == |m| + 1
    ensures |Counted(what, m[n := p])| == |Counted(what, m)| + if Counts(what, p) then 1 else 0
  {
    CountedAdded(what, m, n, p);
    OneMore(Counted(what, m), Counted(what, m[n := p]), n, Counts(what, p));
    OneMore(m.Keys, m[n := p].Keys, n, true);
  }

  lemma CountsRemoved(what: Trait, m: PodMap, n: string)
    requires n in m
    ensures |m - {n}| == |m| - 1
    ensures |Counted(what, m - {n})| == |Counted(what, m)| - if Counts(what, m[n]) then 1 else 0
  {
    CountsAdded(what, m - {n}, n, m[n]);
    assert (m - {n})[n := m[n]] == m;
  }

  lemma CountsReplaced(what: Trait, m: PodMap, n: string, p: Pod)
    requires n in m
    ensures |m[n := p]| == |m|
    ensures |Counted(what, m[n := p])|
            == |Counted(what, m)| + (if Counts(what, p) then 1 else 0) - (if Counts(what, m[n]) then 1 else 0)
  {
    CountsRemoved(what, m, n);
    CountsAdded(what, m - {n}, n, p);
    assert (m - {n})[n := p] == m[n := p];
  }

  // ------------------------------------------------------------------- one call

  /** The pod the call is about is in the state the controller believes. */
  predicate Fits(g: Goal, a: Action, m: PodMap) {
    var n := a.pod.name;
    match a
    case Create(pod) => n !in m && !pod.terminating
    case Update(_) => n in m
    case DeleteFailed(pod) => n in m && Like(m[n], pod) && pod.IsFailed()
    case DeleteCondemned(pod) => n in m && Like(m[n], pod) && pod.IsCreated() && !pod.terminating
    case DeleteOutdated(pod) =>
      n in m && !pod.terminating && pod.revision != g.update
      && (Like(m[n], Issued(pod)) || (Like(m[n], pod) && pod.IsCreated()))
  }

  /** Equal, conformance aside. */
  predicate Like(p: Pod, q: Pod) {
    p.(conforms := q.conforms) == q
  }

  /** Calls after which the counters disagree with the cluster: deleting a failed pod
      that was terminating already, and updating a pod that is at neither revision. */
  predicate MiscountsCurrent(g: Goal, a: Action) {
    || (a.DeleteFailed? && a.pod.terminating && a.pod.revision == g.current)
    || (a.DeleteOutdated? && a.pod.revision != g.current)
  }

  predicate MiscountsUpdated(g: Goal, a: Action) {
    a.DeleteFailed? && a.pod.terminating && a.pod.revision == g.update
  }

  function Corrected(s: Status, off: (nat, nat)): Status {
    s.(currentReplicas := s.currentReplicas + off.0, updatedReplicas := s.updatedReplicas + off.1)
  }

  function Miscount(g: Goal, a: Action): (nat, nat) {
    (if MiscountsCurrent(g, a) then 1 else 0, if MiscountsUpdated(g, a) then 1 else 0)
  }

  lemma CallConserves(g: Goal, a: Action, m: PodMap)
    requires Fits(g, a, m)
    ensures ObserveCluster(g, Effect(a, m)) == Corrected(Account(g, ObserveCluster(g, m), a), Miscount(g, a))
  {
    var n := a.pod.name;
    forall what: Trait
      ensures |Effect(a, m)| == |m| + (if a.Create? then 1 else 0) - (if a.DeleteFailed? then 1 else 0)
      ensures |Counted(what, Effect(a, m))|
              == |Counted(what, m)|
                 + (if a.Create? && Counts(what, Issued(a.pod)) then 1 else 0)
                 - (if a.DeleteFailed? && Counts(what, m[n]) then 1 else 0)
                 - (if (a.DeleteCondemned? || a.DeleteOutdated?) && what.LiveAt? && Counts(what, m[n]) then 1 else 0)
    {
      match a
      case Create(pod) => CountsAdded(what, m, n, Issued(pod));
      case Update(_) => CountsReplaced(what, m, n, m[n].(conforms := true));
      case DeleteFailed(_) => CountsRemoved(what, m, n);
      case DeleteCondemned(_) => CountsReplaced(what, m, n, m[n].(terminating := true));
      case DeleteOutdated(_) => CountsReplaced(what, m, n, m[n].(terminating := true));
    }
  }

  // ------------------------------------------------------------------ all calls

  predicate FitAll(g: Goal, calls: seq<Action>, m: PodMap) {
    calls == [] || (Fits(g, calls[0], m) && FitAll(g, calls[1..], Effect(calls[0], m)))
  }

  /** How far the two counters are off after these calls. */
  function Miscounts(g: Goal, calls: seq<Action>): (nat, nat) {
    if calls == [] then (0, 0)
    else
      var one, rest := Miscount(g, calls[0]), Miscounts(g, calls[1..]);
      (one.0 + rest.0, one.1 + rest.1)
  }

  lemma {:induction false} SettleCons(g: Goal, s: Status, calls: seq<Action>)
    requires calls != []
    ensures Settle(g, s, calls) == Settle(g, Account(g, s, calls[0]), calls[1..])
  {
    if |calls| == 1 {
      assert calls[..0] == [] && calls[1..] == [];
    } else {
      SettleCons(g, s, calls[..|calls| - 1]);
      assert calls[..|calls| - 1][1..] == calls[1..][..|calls[1..]| - 1];
    }
  }

  lemma {:induction false} SettleShift(g: Goal, s: Status, calls: seq<Action>, off: (nat, nat))
    ensures Settle(g, Corrected(s, off), calls) == Corrected(Settle(g, s, calls), off)
  {
    if calls != [] {
      SettleShift(g, s, calls[..|calls| - 1], off);
    }
  }

  lemma {:induction false} CallsConserve(g: Goal, calls: seq<Action>, m: PodMap)
    requires FitAll(g, calls, m)
    ensures ObserveCluster(g, Effects(calls, m))
            == Corrected(Settle(g, ObserveCluster(g, m), calls), Miscounts(g, calls))
    decreases |calls|
  {
    if calls != [] {
      var a, rest := calls[0], calls[1..];
      CallConserves(g, a, m);
      CallsConserve(g, rest, Effect(a, m));
      SettleCons(g, ObserveCluster(g, m), calls);
      SettleShift(g, Account(g, ObserveCluster(g, m), a), rest, Miscount(g, a));
    }
  }

  lemma {:induction false} FitConcat(g: Goal, a: seq<Action>, b: seq<Action>, m: PodMap)
    ensures Effects(a + b, m) == Effects(b, Effects(a, m))
    ensures FitAll(g, a + b, m) <==> FitAll(g, a, m) && FitAll(g, b, Effects(a, m))
    decreases |a|
  {
    if a == [] {
      assert a + b == b;
    } else {
      assert (a + b)[1..] == a[1..] + b;
      FitConcat(g, a[1..], b, Effect(a[0], m));
    }
  }

  // --------------------------------------------------------- a whole sync fits

  /** A complete listing of a well-kept cluster. */
  ghost predicate Census(g: Goal, pods: seq<Pod>, m: PodMap, ord: Numbering) {
    0 <= g.replicaCount && Numbers(g, ord) && Lists(pods, m) && WellKept(m, ord)
  }

  /** The replica loop gets to a failed pod at this ordinal. */
  ghost predicate Replaces(g: Goal, pods: seq<Pod>, i: int) {
    && g.Wants(i) && PodAt(pods, i).Some? && PodAt(pods, i).value.IsFailed()
    && (g.ordered ==> HealthyBetween(g, pods, 0, i))
  }

  /** The name of a failed pod's successor is taken by no other pod. */
  ghost predicate NoCollision(g: Goal, pods: seq<Pod>, m: PodMap) {
    !g.deleting ==> forall i :: Replaces(g, pods, i) && g.NewPod(i).name in m
                                ==> PodAt(pods, i).value.name == g.NewPod(i).name
  }

  /** A complete listing on which no creation collides. */
  ghost predicate Snapshot(g: Goal, pods: seq<Pod>, m: PodMap, ord: Numbering) {
    Census(g, pods, m, ord) && NoCollision(g, pods, m)
  }

  /** Without duplicate ordinals nothing collides. */
  lemma DistinctSuffice(g: Goal, pods: seq<Pod>, m: PodMap, ord: Numbering)
    requires Census(g, pods, m, ord) && DistinctOrdinals(g, m)
    ensures Snapshot(g, pods, m, ord)
  {
    hide Names.PodName;
    forall i | Replaces(g, pods, i) && g.NewPod(i).name in m
      ensures PodAt(pods, i).value.name == g.NewPod(i).name
    {
      var p := PodAt(pods, i).value;
      assert m[p.name] == p && m[g.NewPod(i).name].ordinal == i;
    }
  }

  ghost predicate SameAt(m: PodMap, m': PodMap, n: string) {
    (n in m <==> n in m') && (n in m ==> m[n] == m'[n])
  }

  /** Only pods at wanted ordinals below `i` have been touched. */
  ghost predicate Untouched(g: Goal, ord: Numbering, m0: PodMap, m: PodMap, i: int) {
    forall n :: !(ord(n) < i && g.Wants(ord(n))) ==> SameAt(m0, m, n)
  }

  /** The cluster holds this replica, as listed or as just created. */
  ghost predicate Holds(m: PodMap, p: Pod) {
    p.name in m && ((Like(m[p.name], p) && p.IsCreated()) || Like(m[p.name], Issued(p)))
  }

  ghost predicate HoldsUpTo(m: PodMap, reps: seq<Option<Pod>>, i: nat)
    requires i <= |reps|
  {
    forall j :: 0 <= j < i && reps[j].Some? ==> Holds(m, reps[j].value)
  }

  /** Every replica has the name its ordinal stands for, and is either listed or new. */
  lemma ReplicaNamed(g: Goal, ord: Numbering, pods: seq<Pod>, m: PodMap, i: nat)
    requires Census(g, pods, m, ord) && g.Wants(i)
    ensures var p := Replica(g, pods, i).value;
            && p.ordinal == i && ord(p.name) == i
            && (p.name in m ==> m[p.name] == p && p.IsCreated())
            && (p.name !in m ==> p == g.NewPod(i) && forall n :: n in m ==> m[n].ordinal != i)
    ensures ord(g.NewPod(i).name) == i
  {
    var p := Replica(g, pods, i).value;
    forall n | n in m && PodAt(pods, i).None?
      ensures m[n].ordinal != i
    {
      assert m[n] in pods;
    }
  }

  lemma FitOne(g: Goal, a: Action, m: PodMap)
    ensures FitAll(g, [a], m) <==> Fits(g, a, m)
    ensures Effects([a], m) == Effect(a, m)
  {
    assert [a][1..] == [];
  }

  /** Replacing a failed pod: its own name goes, the generated name is free. */
  lemma FailedFits(g: Goal, p: Pod, i: int, m: PodMap)
    requires p.name in m && m[p.name] == p && p.IsFailed()
    requires g.NewPod(i).name in m ==> g.NewPod(i).name == p.name
    ensures var acts := ReplicaActions(g, p, i);
            FitAll(g, acts, m) && Effects(acts, m) == (m - {p.name})[g.NewPod(i).name := Issued(g.NewPod(i))]
  {
    FitOne(g, DeleteFailed(p), m);
    FitOne(g, Create(g.NewPod(i)), m - {p.name});
    FitConcat(g, [DeleteFailed(p)], [Create(g.NewPod(i))], m);
    assert ReplicaActions(g, p, i) == [DeleteFailed(p)] + [Create(g.NewPod(i))];
  }

  lemma ActionsFit(g: Goal, p: Pod, i: int, m: PodMap)
    requires p.name in m ==> m[p.name] == p && p.IsCreated()
    requires p.name !in m ==> p == g.NewPod(i)
    requires p.IsFailed() && g.NewPod(i).name in m ==> g.NewPod(i).name == p.name
    ensures var acts := ReplicaActions(g, p, i);
            && FitAll(g, acts, m)
            && (forall n :: n != p.name && n != g.NewPod(i).name ==> SameAt(m, Effects(acts, m), n))
            && Holds(Effects(acts, m), if p.IsFailed() then g.NewPod(i) else p)
  {
    var acts := ReplicaActions(g, p, i);
    if p.IsFailed() {
      FailedFits(g, p, i, m);
    } else if acts != [] {
      FitOne(g, acts[0], m);
    }
  }

  lemma OneReplicaFits(g: Goal, ord: Numbering, pods: seq<Pod>, m0: PodMap, i: nat, m: PodMap)
    requires Snapshot(g, pods, m0, ord) && !g.deleting && g.Wants(i) && Untouched(g, ord, m0, m, i)
    requires g.ordered ==> HealthyBetween(g, pods, 0, i)
    ensures var p := Replica(g, pods, i).value;
            var acts := ReplicaActions(g, p, i);
            && FitAll(g, acts, m)
            && Untouched(g, ord, m0, Effects(acts, m), i + 1)
            && (forall n :: ord(n) != i ==> SameAt(m, Effects(acts, m), n))
            && Holds(Effects(acts, m), if p.IsFailed() then g.NewPod(i) else p)
  {
    var p := Replica(g, pods, i).value;
    var acts := ReplicaActions(g, p, i);
    var newName := g.NewPod(i).name;
    ReplicaNamed(g, ord, pods, m0, i);
    assert SameAt(m0, m, p.name) && SameAt(m0, m, newName);
    assert p.IsFailed() ==> Replaces(g, pods, i);
    ActionsFit(g, p, i, m);
    forall n | !(ord(n) < i + 1 && g.Wants(ord(n)))
      ensures SameAt(m0, Effects(acts, m), n)
    {
      assert SameAt(m0, m, n) && SameAt(m, Effects(acts, m), n);
    }
  }

  lemma HealthyUpTo(g: Goal, pods: seq<Pod>, i: nat)
    requires HealthyBetween(g, pods, 0, i) && (g.Wants(i) ==> Replica(g, pods, i).value.IsHealthy())
    ensures HealthyBetween(g, pods, 0, i + 1)
  {
    assert g.Wants(i) && PodAt(pods, i).None? ==> !g.NewPod(i).IsHealthy();
  }

  lemma UntouchedBeyond(g: Goal, ord: Numbering, m0: PodMap, m: PodMap, i: nat, k: nat)
    requires Untouched(g, ord, m0, m, i) && i <= k
    ensures Untouched(g, ord, m0, m, k)
  {
  }

  lemma FitNone(g: Goal, m: PodMap)
    ensures FitAll(g, [], m) && Effects([], m) == m
  {
  }

  lemma {:induction false} ReplicaPhaseFits(g: Goal, ord: Numbering, pods: seq<Pod>, m0: PodMap, i: nat, m: PodMap)
    requires Snapshot(g, pods, m0, ord) && !g.deleting && i <= g.replicaCount && Untouched(g, ord, m0, m, i)
    requires HoldsUpTo(m, Recreated(g, Replicas(g, pods)), i) && (g.ordered ==> HealthyBetween(g, pods, 0, i))
    ensures var plan := ReplicaPlan(g, Replicas(g, pods), i);
            var reps := Recreated(g, Replicas(g, pods));
            && FitAll(g, plan.actions, m)
            && Untouched(g, ord, m0, Effects(plan.actions, m), |reps|)
            && (plan.ending.Through? ==> HoldsUpTo(Effects(plan.actions, m), reps, |reps|))
    decreases g.replicaCount - i
  {
    var reps := Replicas(g, pods);
    hide Census, NoCollision, FitAll, Effects, SameAt, Holds, ReplicaActions, Untouched, HealthyBetween, ReplicaPlan;
    FitNone(g, m);
    if i == |reps| {
      NothingAfter(g, reps);
    } else if reps[i].None? {
      SkippedSlot(g, reps, i);
      UntouchedBeyond(g, ord, m0, m, i, i + 1);
      if g.ordered { HealthyUpTo(g, pods, i); }
      ReplicaPhaseFits(g, ord, pods, m0, i + 1, m);
    } else {
      var acts := ReplicaActions(g, reps[i].value, i);
      var m' := Effects(acts, m);
      OneReplicaFits(g, ord, pods, m0, i, m);
      if !g.ordered || reps[i].value.IsHealthy() {
        if g.ordered { HealthyUpTo(g, pods, i); }
        ReplicaFirst(g, pods, i);
        HoldsStable(g, ord, pods, m0, i, m, m');
        ReplicaPhaseFits(g, ord, pods, m0, i + 1, m');
        FitConcat(g, acts, ReplicaPlan(g, reps, i + 1).actions, m);
      } else {
        ReplicaStops(g, pods, i);
        UntouchedBeyond(g, ord, m0, m, i, |reps|);
        UntouchedBeyond(g, ord, m0, m', i + 1, |reps|);
      }
    }
  }

  // ------------------------------------------------- the plan from an ordinal on

  lemma NothingAfter(g: Goal, reps: seq<Option<Pod>>)
    ensures ReplicaPlan(g, reps, |reps|) == Plan([], Through)
  {
  }

  lemma SkippedSlot(g: Goal, reps: seq<Option<Pod>>, i: nat)
    requires i < |reps| && reps[i].None?
    ensures ReplicaPlan(g, reps, i) == ReplicaPlan(g, reps, i + 1)
  {
  }

  lemma ReplicaFirst(g: Goal, pods: seq<Pod>, i: nat)
    requires g.Wants(i) && (!g.ordered || Replica(g, pods, i).value.IsHealthy())
    ensures var rest := ReplicaPlan(g, Replicas(g, pods), i + 1);
            ReplicaPlan(g, Replicas(g, pods), i)
            == Plan(ReplicaActions(g, Replica(g, pods, i).value, i) + rest.actions, rest.ending)
  {
    assert Replicas(g, pods)[i] == Replica(g, pods, i);
  }

  lemma ReplicaStops(g: Goal, pods: seq<Pod>, i: nat)
    requires g.Wants(i) && g.ordered && !Replica(g, pods, i).value.IsHealthy()
    ensures var plan := ReplicaPlan(g, Replicas(g, pods), i);
            && plan.ending.Stop?
            && (plan.actions == [] || plan.actions == ReplicaActions(g, Replica(g, pods, i).value, i))
  {
    assert Replicas(g, pods)[i] == Replica(g, pods, i);
  }

  lemma HoldsStable(g: Goal, ord: Numbering, pods: seq<Pod>, m0: PodMap, i: nat, m: PodMap, m': PodMap)
    requires Census(g, pods, m0, ord) && i < g.replicaCount
    requires HoldsUpTo(m, Recreated(g, Replicas(g, pods)), i)
    requires forall n :: ord(n) != i ==> SameAt(m, m', n)
    ensures HoldsUpTo(m', Recreated(g, Replicas(g, pods)), i)
  {
    var reps := Recreated(g, Replicas(g, pods));
    forall j | 0 <= j < i && reps[j].Some?
      ensures Holds(m', reps[j].value)
    {
      RecreatedNamed(g, ord, pods, m0, j);
      assert SameAt(m, m', reps[j].value.name);
    }
  }

  lemma RecreatedNamed(g: Goal, ord: Numbering, pods: seq<Pod>, m0: PodMap, j: nat)
    requires Census(g, pods, m0, ord) && j < g.replicaCount
    ensures var reps := Recreated(g, Replicas(g, pods));
            reps[j].Some? ==> g.Wants(j) && ord(reps[j].value.name) == j
  {
    assert Replicas(g, pods)[j] == Replica(g, pods, j);
    if g.Wants(j) {
      ReplicaNamed(g, ord, pods, m0, j);
    }
  }

  // -------------------------------------------------------- the condemned pods

  lemma {:induction false} CondemnedOnce(g: Goal, pods: seq<Pod>, p: Pod)
    requires forall i, j :: 0 <= i < j < |pods| ==> pods[i].name != pods[j].name
    ensures multiset(CondemnedPods(g, pods))[p] <= 1
  {
    if pods != [] {
      var front, last := pods[..|pods| - 1], pods[|pods| - 1];
      forall i, j | 0 <= i < j < |front|
        ensures front[i].name != front[j].name
      {
        assert pods[i].name != pods[j].name;
      }
      CondemnedOnce(g, front, p);
      assert forall q :: q in front ==> q.name != last.name;
      assert last !in CondemnedPods(g, front);
    }
  }

  lemma TwoOccurrences(pods: seq<Pod>, i: nat, j: nat)
    requires i < j < |pods| && pods[i] == pods[j]
    ensures multiset(pods)[pods[i]] >= 2
  {
    assert pods == pods[..j] + pods[j..];
    assert pods[i] in pods[..j] && pods[j] in pods[j..];
    assert multiset(pods) == multiset(pods[..j]) + multiset(pods[j..]);
  }

  lemma CondemnedDistinct(g: Goal, pods: seq<Pod>, m: PodMap, condemned: seq<Pod>, i: nat, j: nat)
    requires Lists(pods, m) && CondemnedOrder(g, pods, condemned) && i < j < |condemned|
    ensures condemned[i].name != condemned[j].name
  {
    var p, q := condemned[i], condemned[j];
    CondemnedOnce(g, pods, p);
    CondemnedMember(g, pods, condemned, p);
    CondemnedMember(g, pods, condemned, q);
    if p == q {
      TwoOccurrences(condemned, i, j);
    } else {
      assert m[p.name] == p && m[q.name] == q;
    }
  }

  /** All condemned pods are in the cluster, each under its own name. */
  ghost predicate Detained(m: PodMap, condemned: seq<Pod>, n: nat)
    requires n <= |condemned|
  {
    && (forall k :: 0 <= k < n ==> condemned[k].name in m && m[condemned[k].name] == condemned[k]
                                   && condemned[k].IsCreated())
    && (forall j, k :: 0 <= j < k < n ==> condemned[j].name != condemned[k].name)
  }

  ghost predicate Elsewhere(s: string, condemned: seq<Pod>, n: nat)
    requires n <= |condemned|
  {
    forall k :: 0 <= k < n ==> condemned[k].name != s
  }

  lemma {:induction false} ScaleDownFits(g: Goal, condemned: seq<Pod>, first: Option<Pod>, n: nat, m: PodMap)
    requires n <= |condemned| && Detained(m, condemned, n)
    ensures var acts := ScaleDownPlan(g, condemned, first, n).actions;
            && FitAll(g, acts, m)
            && forall s :: Elsewhere(s, condemned, n) ==> SameAt(m, Effects(acts, m), s)
  {
    if n > 0 {
      var pod := condemned[n - 1];
      var acts := ScaleDownPlan(g, condemned, first, n).actions;
      var rest := ScaleDownPlan(g, condemned, first, n - 1).actions;
      var m' := Effect(DeleteCondemned(pod), m);
      FitOne(g, DeleteCondemned(pod), m);
      FitConcat(g, [DeleteCondemned(pod)], rest, m);
      assert forall s :: Elsewhere(s, condemned, n) ==> Elsewhere(s, condemned, n - 1) && s != pod.name;
      ScaleDownFits(g, condemned, first, n - 1, if pod.terminating then m else m');
      assert acts == [] || acts == [DeleteCondemned(pod)] || acts == [DeleteCondemned(pod)] + rest || acts == rest;
    }
  }

  lemma CondemnedDetained(g: Goal, ord: Numbering, pods: seq<Pod>, m0: PodMap, condemned: seq<Pod>, m: PodMap)
    requires Snapshot(g, pods, m0, ord) && CondemnedOrder(g, pods, condemned)
    requires Untouched(g, ord, m0, m, g.replicaCount)
    ensures Detained(m, condemned, |condemned|)
    ensures forall k :: 0 <= k < |condemned| ==> g.Condemns(ord(condemned[k].name))
  {
    forall k | 0 <= k < |condemned|
      ensures condemned[k].name in m && m[condemned[k].name] == condemned[k] && condemned[k].IsCreated()
      ensures g.Condemns(ord(condemned[k].name))
    {
      CondemnedMember(g, pods, condemned, condemned[k]);
      assert SameAt(m0, m, condemned[k].name);
    }
    forall j, k | 0 <= j < k < |condemned|
      ensures condemned[j].name != condemned[k].name
    {
      CondemnedDistinct(g, pods, m0, condemned, j, k);
    }
  }

  lemma RollingFits(g: Goal, reps: seq<Option<Pod>>, m: PodMap)
    requires HoldsUpTo(m, reps, |reps|)
    ensures FitAll(g, UpdatePlan(g, reps).actions, m)
  {
    RollingPhase(g, reps, |reps|);
    var acts := UpdatePlan(g, reps).actions;
    if acts != [] {
      assert acts[0] in acts;
      assert Holds(m, acts[0].pod);
      FitOne(g, acts[0], m);
      assert acts == [acts[0]];
    }
  }

  /** Every call of a sync finds the pod it is about as the controller believes it
      to be, and every name it creates is free. */
  lemma SyncFits(g: Goal, ord: Numbering, pods: seq<Pod>, m: PodMap, condemned: seq<Pod>)
    requires Snapshot(g, pods, m, ord) && CondemnedOrder(g, pods, condemned)
    ensures FitAll(g, SyncPlan(g, pods, condemned).actions, m)
  {
    hide Snapshot, CondemnedOrder, PhasePlan, SyncPlan, FitAll, Effects;
    var some, whole := SyncPlan(g, pods, condemned).actions, PhasePlan(g, pods, condemned).actions;
    PlanWithin(g, pods, condemned);
    PhasesFit(g, ord, pods, m, condemned);
    FitConcat(g, some, whole[|some|..], m);
    assert whole == some + whole[|some|..];
  }

  lemma PhasesFit(g: Goal, ord: Numbering, pods: seq<Pod>, m: PodMap, condemned: seq<Pod>)
    requires Snapshot(g, pods, m, ord) && CondemnedOrder(g, pods, condemned)
    ensures FitAll(g, PhasePlan(g, pods, condemned).actions, m)
  {
    var whole := PhasePlan(g, pods, condemned);
    if whole.actions != [] {
      var reps := Replicas(g, pods);
      var head := ReplicaPlan(g, reps, 0);
      var middle := ScaleDownPlan(g, condemned, FirstUnhealthy(Present(reps) + condemned), |condemned|);
      var last := UpdatePlan(g, Recreated(g, reps));
      ReplicaPhaseFits(g, ord, pods, m, 0, m);
      TailFits(g, ord, pods, m, condemned, Effects(head.actions, m), head, middle, last);
      FitConcat(g, head.actions, Then(middle, last).actions, m);
    }
  }

  /** Deleting condemned pods leaves the wanted ones alone. */
  lemma StillHeld(g: Goal, ord: Numbering, condemned: seq<Pod>, p: Pod, m: PodMap, m': PodMap)
    requires Holds(m, p) && g.Wants(ord(p.name))
    requires forall k :: 0 <= k < |condemned| ==> g.Condemns(ord(condemned[k].name))
    requires forall s :: Elsewhere(s, condemned, |condemned|) ==> SameAt(m, m', s)
    ensures Holds(m', p)
  {
    assert Elsewhere(p.name, condemned, |condemned|);
  }

  lemma TailFits(g: Goal, ord: Numbering, pods: seq<Pod>, m0: PodMap, condemned: seq<Pod>, m: PodMap,
                 head: Plan, middle: Plan, last: Plan)
    requires Snapshot(g, pods, m0, ord) && CondemnedOrder(g, pods, condemned)
    requires Untouched(g, ord, m0, m, g.replicaCount)
    requires middle == ScaleDownPlan(g, condemned, FirstUnhealthy(Present(Replicas(g, pods)) + condemned), |condemned|)
    requires last == UpdatePlan(g, Recreated(g, Replicas(g, pods)))
    requires head.ending.Through? ==> HoldsUpTo(m, Recreated(g, Replicas(g, pods)), g.replicaCount)
    ensures head.ending.Through? ==> FitAll(g, Then(middle, last).actions, m)
  {
    var reps := Recreated(g, Replicas(g, pods));
    var first := FirstUnhealthy(Present(Replicas(g, pods)) + condemned);
    assert |reps| == g.replicaCount;
    hide Snapshot, CondemnedOrder, Untouched, ScaleDownPlan, FirstUnhealthy, Present, Effects;
    hide Holds, SameAt, Elsewhere, Detained, Recreated, Replicas, FitAll, RollingPlan;
    CondemnedDetained(g, ord, pods, m0, condemned, m);
    ScaleDownFits(g, condemned, first, |condemned|, m);
    if head.ending.Through? {
      var m' := Effects(middle.actions, m);
      forall j | 0 <= j < |reps| && reps[j].Some?
        ensures Holds(m', reps[j].value)
      {
        RecreatedNamed(g, ord, pods, m0, j);
        StillHeld(g, ord, condemned, reps[j].value, m, m');
      }
      RollingFits(g, reps, m');
      FitConcat(g, middle.actions, last.actions, m);
    }
  }

  lemma ActionsTouch(g: Goal, p: Pod, i: int, m: PodMap)
    ensures forall n :: n != p.name && n != g.NewPod(i).name ==> SameAt(m, Effects(ReplicaActions(g, p, i), m), n)
  {
    var acts := ReplicaActions(g, p, i);
    hide Names.PodName;
    if p.IsFailed() {
      FitOne(g, DeleteFailed(p), m);
      FitOne(g, Create(g.NewPod(i)), m - {p.name});
      FitConcat(g, [DeleteFailed(p)], [Create(g.NewPod(i))], m);
      assert acts == [DeleteFailed(p)] + [Create(g.NewPod(i))];
    } else if acts != [] {
      FitOne(g, acts[0], m);
    }
  }

  lemma OneReplicaTouched(g: Goal, ord: Numbering, pods: seq<Pod>, m0: PodMap, i: nat, m: PodMap)
    requires Census(g, pods, m0, ord) && g.Wants(i) && Untouched(g, ord, m0, m, i)
    ensures Untouched(g, ord, m0, Effects(ReplicaActions(g, Replica(g, pods, i).value, i), m), i + 1)
  {
    hide Effects, ReplicaActions, Names.PodName, Lists, WellKept;
    var p := Replica(g, pods, i).value;
    var m' := Effects(ReplicaActions(g, p, i), m);
    ReplicaNamed(g, ord, pods, m0, i);
    ActionsTouch(g, p, i, m);
    forall n | !(ord(n) < i + 1 && g.Wants(ord(n)))
      ensures SameAt(m0, m', n)
    {
      assert SameAt(m0, m, n) && SameAt(m, m', n);
    }
  }

  /** A fitting creation of a failed pod's successor finds its name free. */
  lemma SuccessorFree(g: Goal, p: Pod, i: int, rest: seq<Action>, m: PodMap)
    requires p.IsFailed() && FitAll(g, ReplicaActions(g, p, i) + rest, m)
    ensures g.NewPod(i).name in m ==> g.NewPod(i).name == p.name
  {
    hide Names.PodName;
    var del, create := [DeleteFailed(p)], [Create(g.NewPod(i))];
    FitConcat(g, ReplicaActions(g, p, i), rest, m);
    FitConcat(g, del, create, m);
    FitOne(g, del[0], m);
    FitOne(g, create[0], m - {p.name});
    assert ReplicaActions(g, p, i) == del + create;
  }

  /** If the replica phase fits, the successor of the failed pod at `k` finds its name free. */
  lemma {:induction false} ReplacedFree(g: Goal, ord: Numbering, pods: seq<Pod>, m0: PodMap, i: nat, k: nat, m: PodMap)
    requires Census(g, pods, m0, ord) && Replaces(g, pods, k) && i <= k && Untouched(g, ord, m0, m, i)
    requires FitAll(g, ReplicaPlan(g, Replicas(g, pods), i).actions, m)
    ensures g.NewPod(k).name in m0 ==> PodAt(pods, k).value.name == g.NewPod(k).name
    decreases k - i
  {
    hide Census, FitAll, Effects, ReplicaActions, ReplicaPlan, Untouched, HealthyBetween, Names.PodName;
    if i == k {
      ReplacedNow(g, ord, pods, m0, k, m);
    } else if g.Wants(i) {
      var acts := ReplicaActions(g, Replica(g, pods, i).value, i);
      var rest := ReplicaPlan(g, Replicas(g, pods), i + 1).actions;
      if g.ordered {
        HealthyBefore(g, pods, i, k);
      }
      ReplicaFirst(g, pods, i);
      OneReplicaTouched(g, ord, pods, m0, i, m);
      FitConcat(g, acts, rest, m);
      ReplacedFree(g, ord, pods, m0, i + 1, k, Effects(acts, m));
    } else {
      SkippedSlot(g, Replicas(g, pods), i);
      UntouchedBeyond(g, ord, m0, m, i, i + 1);
      ReplacedFree(g, ord, pods, m0, i + 1, k, m);
    }
  }

  lemma ReplacedNow(g: Goal, ord: Numbering, pods: seq<Pod>, m0: PodMap, k: nat, m: PodMap)
    requires Census(g, pods, m0, ord) && Replaces(g, pods, k) && Untouched(g, ord, m0, m, k)
    requires FitAll(g, ReplicaPlan(g, Replicas(g, pods), k).actions, m)
    ensures g.NewPod(k).name in m0 ==> PodAt(pods, k).value.name == g.NewPod(k).name
  {
    hide Census, FitAll, Untouched, HealthyBetween, Names.PodName;
    var p := PodAt(pods, k).value;
    var acts, plan := ReplicaActions(g, p, k), ReplicaPlan(g, Replicas(g, pods), k);
    assert Replicas(g, pods)[k] == Some(p);
    assert acts <= plan.actions;
    assert plan.actions == acts + plan.actions[|acts|..];
    SuccessorFree(g, p, k, plan.actions[|acts|..], m);
    SameBelow(g, ord, pods, m0, k, m);
  }

  lemma HealthyBefore(g: Goal, pods: seq<Pod>, i: nat, k: nat)
    requires HealthyBetween(g, pods, 0, k) && i < k && g.Wants(i)
    ensures Replica(g, pods, i).value.IsHealthy()
  {
    assert HealthyAt(pods, i);
  }

  lemma SameBelow(g: Goal, ord: Numbering, pods: seq<Pod>, m0: PodMap, k: nat, m: PodMap)
    requires Census(g, pods, m0, ord) && g.Wants(k) && Untouched(g, ord, m0, m, k)
    ensures SameAt(m0, m, g.NewPod(k).name)
  {
    assert ord(g.NewPod(k).name) == k;
  }

  /** The calls of a sync fit if and only if no other pod has the name of a reached failed
      pod's successor; a sync that panics does not get as far as creating that name. */
  lemma SyncFitsExactly(g: Goal, ord: Numbering, pods: seq<Pod>, m: PodMap, condemned: seq<Pod>)
    requires Census(g, pods, m, ord) && CondemnedOrder(g, pods, condemned) && g.replicaCount <= Slots.MAX_INT32
    ensures FitAll(g, SyncPlan(g, pods, condemned).actions, m)
            <==> NoCollision(g, pods, m) || SyncPlan(g, pods, condemned).ending.Panic?
  {
    hide Census, CondemnedOrder, SyncPlan, PhasePlan, NoCollision;
    if NoCollision(g, pods, m) {
      SyncFits(g, ord, pods, m, condemned);
    } else if SyncPlan(g, pods, condemned).ending.Panic? {
      PanicFits(g, ord, pods, m, condemned);
    } else if FitAll(g, SyncPlan(g, pods, condemned).actions, m) {
      FittingPlan(g, ord, pods, m, condemned);
    }
  }

  lemma FittingPlan(g: Goal, ord: Numbering, pods: seq<Pod>, m: PodMap, condemned: seq<Pod>)
    requires Census(g, pods, m, ord) && CondemnedOrder(g, pods, condemned)
    requires !SyncPlan(g, pods, condemned).ending.Panic? && FitAll(g, SyncPlan(g, pods, condemned).actions, m)
    ensures NoCollision(g, pods, m)
  {
    if !g.deleting {
      var plan := SyncPlan(g, pods, condemned);
      var head := ReplicaPlan(g, Replicas(g, pods), 0);
      PlanWithin(g, pods, condemned);
      HeadFirst(g, pods, condemned);
      hide CondemnedOrder, SyncPlan, PhasePlan, FitAll, Effects, Names.PodName, Replaces;
      FitConcat(g, head.actions, plan.actions[|head.actions|..], m);
      assert plan.actions == head.actions + plan.actions[|head.actions|..];
      forall k | Replaces(g, pods, k)
        ensures g.NewPod(k).name in m ==> PodAt(pods, k).value.name == g.NewPod(k).name
      {
        WantedNatural(g, pods, k);
        ReplacedFree(g, ord, pods, m, 0, k, m);
      }
    }
  }

  lemma WantedNatural(g: Goal, pods: seq<Pod>, k: int)
    requires Replaces(g, pods, k)
    ensures 0 <= k
  {
  }

  lemma PanicFits(g: Goal, ord: Numbering, pods: seq<Pod>, m: PodMap, condemned: seq<Pod>)
    requires Census(g, pods, m, ord) && CondemnedOrder(g, pods, condemned) && g.replicaCount <= Slots.MAX_INT32
    requires SyncPlan(g, pods, condemned).ending.Panic? && !NoCollision(g, pods, m)
    ensures FitAll(g, SyncPlan(g, pods, condemned).actions, m)
  {
    var k :| Replaces(g, pods, k);
    var p := PodAt(pods, k).value;
    var plan := SyncPlan(g, pods, condemned);
    assert 0 <= g.replicaCount && !g.deleting;
    hide CondemnedOrder, PhasePlan, SyncPlan, Census, Replaces, FitAll, ReplicaPlan, Replicas, Cut;
    PanicByCut(g, pods, condemned, k);
    if plan.actions == [] {
      FitNone(g, m);
    } else {
      CutWithinHead(g, pods, condemned, p);
      UntouchedYet(g, ord, m);
      CutFits(g, ord, pods, m, 0, m, plan.actions);
    }
  }

  lemma UntouchedYet(g: Goal, ord: Numbering, m: PodMap)
    ensures Untouched(g, ord, m, m, 0)
  {
  }

  /** The plan cut at a deletion lies within the replica phase. */
  lemma CutWithinHead(g: Goal, pods: seq<Pod>, condemned: seq<Pod>, p: Pod)
    requires DeleteFailed(p) in PhasePlan(g, pods, condemned).actions
    ensures 0 <= g.replicaCount
    ensures var acts := Cut(PhasePlan(g, pods, condemned)).actions;
            && acts <= ReplicaPlan(g, Replicas(g, pods), 0).actions
            && EndsAtDeletion(acts)
  {
    hide PhasePlan, ReplicaPlan, Replicas, Cut;
    FromReplicaPhase(g, pods, condemned, p);
    HeadFirst(g, pods, condemned);
    var head := ReplicaPlan(g, Replicas(g, pods), 0).actions;
    var t :| 0 <= t < |head| && head[t] == DeleteFailed(p);
    CutShort(PhasePlan(g, pods, condemned), t);
  }

  /** With a failed pod reached, only a missing partition makes a sync panic. */
  lemma PanicByCut(g: Goal, pods: seq<Pod>, condemned: seq<Pod>, k: int)
    requires CondemnedOrder(g, pods, condemned) && 0 <= g.replicaCount <= Slots.MAX_INT32
    requires SyncPlan(g, pods, condemned).ending.Panic? && !g.deleting && Replaces(g, pods, k)
    ensures SyncPlan(g, pods, condemned).actions == []
            || SyncPlan(g, pods, condemned) == Cut(PhasePlan(g, pods, condemned))
    ensures DeleteFailed(PodAt(pods, k).value) in PhasePlan(g, pods, condemned).actions
  {
    var p := PodAt(pods, k).value;
    hide CondemnedOrder, PhasePlan, HealthyBetween, UpdatedBetween, Cut, Incomplete;
    assert FailedReached(g, pods, p);
    FailedDeleted(g, pods, condemned, p);
    PhaseCrash(g, pods, condemned);
    FailedUnhealthy(g, pods, k);
  }

  lemma FailedUnhealthy(g: Goal, pods: seq<Pod>, k: int)
    requires Replaces(g, pods, k)
    ensures !HealthyBetween(g, pods, 0, g.replicaCount) && !UpdatedBetween(g, pods, 0, g.replicaCount)
  {
    assert !HealthyAt(pods, k);
  }

  lemma {:induction false} CutShort(plan: Plan, t: nat)
    requires t < |plan.actions| && plan.actions[t].DeleteFailed?
    ensures |Cut(plan).actions| <= t + 1
    ensures forall j :: 0 <= j < |Cut(plan).actions| - 1 ==> !plan.actions[j].DeleteFailed?
    decreases |plan.actions|
  {
    var first, rest := plan.actions[0], Plan(plan.actions[1..], plan.ending);
    if !first.DeleteFailed? {
      CutShort(rest, t - 1);
    }
  }

  predicate EndsAtDeletion(acts: seq<Action>) {
    forall j :: 0 <= j < |acts| - 1 ==> !acts[j].DeleteFailed?
  }

  /** An initial part of the replica phase up to a deletion creates no successor. */
  lemma {:induction false} CutFits(g: Goal, ord: Numbering, pods: seq<Pod>, m0: PodMap, i: nat, m: PodMap,
                                   acts: seq<Action>)
    requires Census(g, pods, m0, ord) && i <= g.replicaCount && Untouched(g, ord, m0, m, i)
    requires acts <= ReplicaPlan(g, Replicas(g, pods), i).actions && EndsAtDeletion(acts)
    ensures FitAll(g, acts, m)
    decreases g.replicaCount - i
  {
    var reps := Replicas(g, pods);
    hide Census, FitAll, Effects, Untouched, ReplicaActions, ReplicaPlan, EndsAtDeletion, Replicas, PodAt, Names.PodName;
    FitNone(g, m);
    NothingAfter(g, reps);
    if acts == [] {
    } else if !g.Wants(i) {
      UntouchedBeyond(g, ord, m0, m, i, i + 1);
      NoReplica(g, pods, i);
      SkippedSlot(g, reps, i);
      CutFits(g, ord, pods, m0, i + 1, m, acts);
    } else if Replica(g, pods, i).value.IsFailed() {
      OnlyDeletion(g, ord, pods, m0, i, m, acts);
    } else {
      var first := ReplicaActions(g, Replica(g, pods, i).value, i);
      var rest := FirstThenRest(g, pods, i, acts);
      LiveFits(g, ord, pods, m0, i, m);
      FitConcat(g, first, rest, m);
      if rest == [] {
        FitNone(g, Effects(first, m));
      } else {
        CutFits(g, ord, pods, m0, i + 1, Effects(first, m), rest);
      }
    }
  }

  lemma NoReplica(g: Goal, pods: seq<Pod>, i: nat)
    requires i < g.replicaCount && !g.Wants(i)
    ensures Replicas(g, pods)[i].None?
  {
  }

  lemma FirstThenRest(g: Goal, pods: seq<Pod>, i: nat, acts: seq<Action>) returns (rest: seq<Action>)
    requires g.Wants(i) && acts != [] && acts <= ReplicaPlan(g, Replicas(g, pods), i).actions
    requires !Replica(g, pods, i).value.IsFailed() && EndsAtDeletion(acts)
    ensures acts == ReplicaActions(g, Replica(g, pods, i).value, i) + rest
    ensures rest != [] ==> rest <= ReplicaPlan(g, Replicas(g, pods), i + 1).actions
    ensures EndsAtDeletion(rest)
  {
    var first := ReplicaActions(g, Replicas(g, pods)[i].value, i);
    rest := acts[|first|..];
    assert |first| <= 1;
    assert acts == first + rest;
  }

  /** Up to its deletion only. */
  lemma OnlyDeletion(g: Goal, ord: Numbering, pods: seq<Pod>, m0: PodMap, i: nat, m: PodMap, acts: seq<Action>)
    requires Census(g, pods, m0, ord) && g.Wants(i) && Untouched(g, ord, m0, m, i)
    requires acts != [] && acts <= ReplicaPlan(g, Replicas(g, pods), i).actions
    requires EndsAtDeletion(acts) && Replica(g, pods, i).value.IsFailed()
    ensures FitAll(g, acts, m)
  {
    var p := Replica(g, pods, i).value;
    var first := ReplicaActions(g, p, i);
    ReplicaListed(g, ord, pods, m0, i, m);
    hide Census, FitAll, Untouched, Names.PodName;
    assert Replicas(g, pods)[i] == Some(p);
    assert first <= ReplicaPlan(g, Replicas(g, pods), i).actions;
    assert first[0] == DeleteFailed(p);
    assert acts == [DeleteFailed(p)];
    FitOne(g, DeleteFailed(p), m);
  }

  /** The calls for a replica that is not failed. */
  lemma LiveFits(g: Goal, ord: Numbering, pods: seq<Pod>, m0: PodMap, i: nat, m: PodMap)
    requires Census(g, pods, m0, ord) && g.Wants(i) && Untouched(g, ord, m0, m, i)
    requires !Replica(g, pods, i).value.IsFailed()
    ensures var first := ReplicaActions(g, Replica(g, pods, i).value, i);
            FitAll(g, first, m) && Untouched(g, ord, m0, Effects(first, m), i + 1)
  {
    ReplicaListed(g, ord, pods, m0, i, m);
    ActionsFit(g, Replica(g, pods, i).value, i, m);
    OneReplicaTouched(g, ord, pods, m0, i, m);
  }

  lemma ReplicaListed(g: Goal, ord: Numbering, pods: seq<Pod>, m0: PodMap, i: nat, m: PodMap)
    requires Census(g, pods, m0, ord) && g.Wants(i) && Untouched(g, ord, m0, m, i)
    ensures var p := Replica(g, pods, i).value;
            && (p.name in m ==> m[p.name] == p && p.IsCreated())
            && (p.name !in m ==> p == g.NewPod(i))
  {
    ReplicaNamed(g, ord, pods, m0, i);
    assert SameAt(m0, m, Replica(g, pods, i).value.name);
  }

  lemma HeadFirst(g: Goal, pods: seq<Pod>, condemned: seq<Pod>)
    requires 0 <= g.replicaCount && !g.deleting
    requires !PhasePlan(g, pods, condemned).ending.Panic? || PhasePlan(g, pods, condemned).actions != []
    ensures ReplicaPlan(g, Replicas(g, pods), 0).actions <= PhasePlan(g, pods, condemned).actions
  {
  }

  /** Status conservation: the status a successful sync reports differs from a fresh
      observation of the cluster it leaves behind exactly by the miscounted calls. */
  lemma SyncConserves(g: Goal, ord: Numbering, pods: seq<Pod>, m: PodMap, condemned: seq<Pod>,
                      faults: set<nat>, calls: seq<Action>)
    requires Snapshot(g, pods, m, ord) && CondemnedOrder(g, pods, condemned)
    requires Executes(SyncPlan(g, pods, condemned), faults, calls, Returned)
    ensures ObserveCluster(g, Effects(calls, m))
            == Corrected(Settle(g, Observe(g, pods), calls), Miscounts(g, calls))
  {
    hide CondemnedOrder, SyncPlan, PhasePlan, Effects, FitAll, Settle, Observe, ObserveCluster, Miscounts, Corrected;
    SyncFits(g, ord, pods, m, condemned);
    CallsConserve(g, calls, m);
    ListingCounts(g, pods, m);
  }

  /** The counters no hypothesis is needed for: the reported number of replicas is the
      number of pods left, which is the listed pods and one for each creation that does
      not replace a failed pod, and no more pods are ready. */
  lemma StatusBounds(g: Goal, ord: Numbering, pods: seq<Pod>, m: PodMap, condemned: seq<Pod>,
                     faults: set<nat>, calls: seq<Action>)
    requires Snapshot(g, pods, m, ord) && CondemnedOrder(g, pods, condemned)
    requires Executes(SyncPlan(g, pods, condemned), faults, calls, Returned)
    ensures var s := Settle(g, Observe(g, pods), calls);
            && s.replicas == |Effects(calls, m)| == |pods| + Creations(calls) - FailedDeletions(calls)
            && s.readyReplicas <= s.replicas
  {
    hide SyncPlan, PhasePlan, CondemnedOrder, Effects, Settle, Creations, FailedDeletions;
    SyncConserves(g, ord, pods, m, condemned, faults, calls);
    SettleTotals(g, Observe(g, pods), calls);
    Slots.SubsetSize(Counted(Ready, Effects(calls, m)), Effects(calls, m).Keys);
  }

  /** The reported status is right if and only if no call miscounts. */
  lemma CallsExact(g: Goal, ord: Numbering, pods: seq<Pod>, m: PodMap, condemned: seq<Pod>,
                   faults: set<nat>, calls: seq<Action>)
    requires Snapshot(g, pods, m, ord) && CondemnedOrder(g, pods, condemned)
    requires Executes(SyncPlan(g, pods, condemned), faults, calls, Returned)
    ensures Settle(g, Observe(g, pods), calls) == ObserveCluster(g, Effects(calls, m))
            <==> forall a :: a in calls ==> !MiscountsCurrent(g, a) && !MiscountsUpdated(g, a)
  {
    hide Snapshot, CondemnedOrder, SyncPlan, PhasePlan, Effects, ObserveCluster, Observe, Settle;
    hide Miscounts, MiscountsCurrent, MiscountsUpdated;
    SyncConserves(g, ord, pods, m, condemned, faults, calls);
    NoMiscounts(g, calls);
  }

  /** A failed pod at one of the two revisions is terminating and gets replaced: its
      deletion uncounts what was not counted. */
  ghost predicate ReplacesTerminating(g: Goal, pods: seq<Pod>) {
    !g.deleting && exists p :: p in pods && FailedReached(g, pods, p) && p.terminating
                               && (p.revision == g.current || p.revision == g.update)
  }

  /** The pod that the rolling update gets to is at a third revision, yet its deletion
      lowers the count of current replicas. */
  ghost predicate UpdatesThird(g: Goal, pods: seq<Pod>) {
    UpdateReached(g, pods) && exists t: nat :: ThirdAt(g, pods, t)
  }

  ghost predicate ThirdAt(g: Goal, pods: seq<Pod>, t: nat) {
    && g.Wants(t) && g.UpdateMin() <= t && PodAt(pods, t).Some?
    && var p := PodAt(pods, t).value;
       && !p.IsFailed() && !p.terminating && p.revision != g.current && p.revision != g.update
       && UpdatedBetween(g, pods, t + 1, g.replicaCount)
  }

  /** The status a successful sync reports is right if and only if its snapshot has no
      failed and terminating pod to replace and no pod of a third revision to update. */
  lemma StatusExact(g: Goal, ord: Numbering, pods: seq<Pod>, m: PodMap, condemned: seq<Pod>,
                    faults: set<nat>, calls: seq<Action>)
    requires Snapshot(g, pods, m, ord) && CondemnedOrder(g, pods, condemned)
    requires Executes(SyncPlan(g, pods, condemned), faults, calls, Returned)
    ensures Settle(g, Observe(g, pods), calls) == ObserveCluster(g, Effects(calls, m))
            <==> !ReplacesTerminating(g, pods) && !UpdatesThird(g, pods)
  {
    assert 0 <= g.replicaCount;
    hide Snapshot, CondemnedOrder, SyncPlan, PhasePlan, Effects, ObserveCluster, Observe, Settle;
    hide ReplacesTerminating, UpdatesThird;
    CallsExact(g, ord, pods, m, condemned, faults, calls);
    CallsWithin(g, pods, condemned, faults, calls, Returned);
    MiscountsReplaced(g, pods, condemned);
    MiscountsThird(g, pods, condemned);
  }

  lemma MiscountsReplaced(g: Goal, pods: seq<Pod>, condemned: seq<Pod>)
    requires 0 <= g.replicaCount && !PhasePlan(g, pods, condemned).ending.Panic?
    ensures ReplacesTerminating(g, pods)
            <==> exists a :: a in PhasePlan(g, pods, condemned).actions && a.DeleteFailed?
                             && (MiscountsCurrent(g, a) || MiscountsUpdated(g, a))
  {
    hide PhasePlan, FailedReached;
    forall p
      ensures DeleteFailed(p) in PhasePlan(g, pods, condemned).actions
              <==> !g.deleting && p in pods && FailedReached(g, pods, p)
    {
      FailedDeleted(g, pods, condemned, p);
    }
    if ReplacesTerminating(g, pods) {
      var p :| p in pods && FailedReached(g, pods, p) && p.terminating
               && (p.revision == g.current || p.revision == g.update);
      assert DeleteFailed(p) in PhasePlan(g, pods, condemned).actions;
    }
    forall a | a in PhasePlan(g, pods, condemned).actions && a.DeleteFailed?
      ensures a.pod in pods && FailedReached(g, pods, a.pod) && !g.deleting
    {
      assert a == DeleteFailed(a.pod);
    }
  }

  lemma MiscountsThird(g: Goal, pods: seq<Pod>, condemned: seq<Pod>)
    requires 0 <= g.replicaCount
    requires CondemnedOrder(g, pods, condemned) && !PhasePlan(g, pods, condemned).ending.Panic?
    ensures UpdatesThird(g, pods)
            <==> exists a :: a in PhasePlan(g, pods, condemned).actions && a.DeleteOutdated?
                             && (MiscountsCurrent(g, a) || MiscountsUpdated(g, a))
  {
    hide CondemnedOrder, PhasePlan, UpdateReached, OutdatedAt, ThirdAt;
    forall p
      ensures DeleteOutdated(p) in PhasePlan(g, pods, condemned).actions
              <==> UpdateReached(g, pods) && exists t: nat :: OutdatedAt(g, pods, t, p)
    {
      OutdatedDeleted(g, pods, condemned, p);
    }
    forall t: nat, p
      ensures OutdatedAt(g, pods, t, p) && p.revision != g.current
              <==> ThirdAt(g, pods, t) && PodAt(pods, t) == Some(p)
    {
      ThirdOutdated(g, pods, t, p);
    }
    if UpdatesThird(g, pods) {
      var t: nat :| ThirdAt(g, pods, t);
      ThirdListed(g, pods, t);
      var p := PodAt(pods, t).value;
      assert OutdatedAt(g, pods, t, p);
      assert DeleteOutdated(p) in PhasePlan(g, pods, condemned).actions;
    }
    forall a | a in PhasePlan(g, pods, condemned).actions && a.DeleteOutdated? && a.pod.revision != g.current
      ensures UpdatesThird(g, pods)
    {
      assert a == DeleteOutdated(a.pod);
      var t: nat :| OutdatedAt(g, pods, t, a.pod);
      assert ThirdAt(g, pods, t);
    }
  }

  lemma ThirdListed(g: Goal, pods: seq<Pod>, t: nat)
    requires ThirdAt(g, pods, t)
    ensures PodAt(pods, t).Some?
  {
  }

  lemma ThirdOutdated(g: Goal, pods: seq<Pod>, t: nat, p: Pod)
    requires 0 <= g.replicaCount
    ensures OutdatedAt(g, pods, t, p) && p.revision != g.current
            <==> ThirdAt(g, pods, t) && PodAt(pods, t) == Some(p)
  {
    hide UpdatedBetween;
    if g.Wants(t) {
      assert Replicas(g, pods)[t] == Replica(g, pods, t);
    }
  }

  /** What a caller can look at: without failed pods that are terminating and with all
      pods at the two revisions the status is right. */
  lemma StatusRight(g: Goal, ord: Numbering, pods: seq<Pod>, m: PodMap, condemned: seq<Pod>,
                    faults: set<nat>, calls: seq<Action>)
    requires Snapshot(g, pods, m, ord) && CondemnedOrder(g, pods, condemned)
    requires Executes(SyncPlan(g, pods, condemned), faults, calls, Returned)
    requires forall p :: p in pods ==> !(p.IsFailed() && p.terminating)
    requires forall p :: p in pods ==> p.revision == g.current || p.revision == g.update
    ensures Settle(g, Observe(g, pods), calls) == ObserveCluster(g, Effects(calls, m))
  {
    hide Snapshot, CondemnedOrder, SyncPlan, PhasePlan, Effects, ObserveCluster, Observe, Settle;
    StatusExact(g, ord, pods, m, condemned, faults, calls);
  }

  /** A failed pod that is terminating when it is replaced: the status reports no current
      replica although the new pod is one. */
  lemma TerminatingMiscounted(p: Pod)
    requires p == Pod(Names.PodName("web", 0), 0, "a", Failed, false, true, true)
    ensures var g := SmallGoal(1, RollingUpdate, Some(Some(0)));
            var calls := SyncPlan(g, [p], []).actions;
            var m := map[p.name := p];
            && CondemnedOrder(g, [p], []) && !SyncPlan(g, [p], []).ending.Panic?
            && Settle(g, Observe(g, [p]), calls).currentReplicas == 0
            && Counted(LiveAt("a"), Effects(calls, m)) == {p.name}
  {
    var g := SmallGoal(1, RollingUpdate, Some(Some(0)));
    var calls := [DeleteFailed(p), Create(g.NewPod(0))];
    assert [] + [p] == [p];
    PlanOfFailed(g, [], p);
    var m := map[p.name := p];
    var q := Issued(g.NewPod(0));
    assert q.name == p.name && Counts(LiveAt("a"), q);
    hide SyncPlan, PhasePlan, CondemnedOrder, Names.PodName, Effects, Settle;
    assert [p][..0] == [];
    assert Observe(g, [p]).currentReplicas == 0;
    hide Observe, Tally, Counted;
    ReplacedStatus(g, Observe(g, [p]), p, g.NewPod(0));
    ReplacedEffects(m, p, g.NewPod(0));
    var after := Effects(calls, m);
    assert after == map[p.name := q];
    CountedAlone(LiveAt("a"), p.name, q);
  }

  lemma CountedAlone(what: Trait, n: string, p: Pod)
    requires Counts(what, p)
    ensures Counted(what, map[n := p]) == {n}
  {
  }

  lemma ReplacedEffects(m: PodMap, p: Pod, new_: Pod)
    ensures Effects([DeleteFailed(p), Create(new_)], m) == (m - {p.name})[new_.name := Issued(new_)]
  {
    var calls := [DeleteFailed(p), Create(new_)];
    assert calls[1..] == [Create(new_)] && [Create(new_)][1..] == [];
    assert Effects(calls, m) == Effects([Create(new_)], m - {p.name});
    assert Effects([Create(new_)], m - {p.name}) == Effects([], (m - {p.name})[new_.name := Issued(new_)]);
  }

  lemma ReplacedStatus(g: Goal, s: Status, p: Pod, new_: Pod)
    ensures Settle(g, s, [DeleteFailed(p), Create(new_)]) == Account(g, Account(g, s, DeleteFailed(p)), Create(new_))
  {
    var calls := [DeleteFailed(p), Create(new_)];
    assert calls[..1] == [DeleteFailed(p)] && [DeleteFailed(p)][..0] == [];
    assert Settle(g, s, [DeleteFailed(p)]) == Account(g, Settle(g, s, []), DeleteFailed(p));
  }

  lemma {:induction false} NothingToCondemn(g: Goal, pods: seq<Pod>)
    requires forall q :: q in pods ==> !g.Condemns(q.ordinal)
    ensures CondemnedPods(g, pods) == []
  {
    if pods != [] {
      NothingToCondemn(g, pods[..|pods| - 1]);
    }
  }

  /** A set of one whose listing ends in a failed pod of ordinal 0. */
  lemma PlanOfFailed(g: Goal, pods: seq<Pod>, p: Pod)
    requires g == SmallGoal(1, RollingUpdate, Some(Some(0)))
    requires p.ordinal == 0 && p.IsFailed() && forall q :: q in pods ==> q.ordinal == 0
    ensures CondemnedOrder(g, pods + [p], [])
    ensures SyncPlan(g, pods + [p], []) == Plan([DeleteFailed(p), Create(g.NewPod(0))], Stop)
  {
    var all := pods + [p];
    NothingToCondemn(g, all);
    assert PodAt(all, 0) == Some(p);
    var reps := Replicas(g, all);
    assert reps == [Some(p)];
    assert Some(p) in reps;
    assert p in Present(reps) + [];
    assert FirstUnhealthy(Present(reps) + []).Some?;
  }

  /** Two pods of one ordinal: a failed "web-00" listed after "web-0" makes the sync create
      a pod "web-0", which exists. */
  lemma SameOrdinalCollides(p: Pod, q: Pod)
    requires p == Pod(Names.PodName("web", 0), 0, "a", Running, true, false, true)
    requires q == Pod("web" + "-" + ("0" + Names.Digits(0)), 0, "a", Failed, false, false, true)
    ensures Names.Ordinal(p.name) == Names.Ordinal(q.name) == 0 && p.name != q.name
    ensures var g := SmallGoal(1, RollingUpdate, Some(Some(0)));
            var m := map[p.name := p, q.name := q];
            var calls := SyncPlan(g, [p, q], []).actions;
            && Lists([p, q], m) && WellKept(m, Names.Ordinal) && !NoCollision(g, [p, q], m)
            && calls == [DeleteFailed(q), Create(g.NewPod(0))] && g.NewPod(0).name == p.name
            && !FitAll(g, calls, m)
  {
    Names.ParsePodName("web", 0);
    Names.LeadingZero("web", 0);
    assert |p.name| < |q.name|;
    TwinCollides(p, q, Names.Ordinal);
  }

  lemma TwinCollides(p: Pod, q: Pod, ord: Numbering)
    requires p.name == Names.PodName("web", 0) && p.name != q.name && ord(p.name) == 0 && ord(q.name) == 0
    requires p.ordinal == q.ordinal == 0 && p.IsCreated() && q.IsFailed()
    ensures var g := SmallGoal(1, RollingUpdate, Some(Some(0)));
            var m := map[p.name := p, q.name := q];
            var calls := SyncPlan(g, [p, q], []).actions;
            && Lists([p, q], m) && WellKept(m, ord) && !NoCollision(g, [p, q], m)
            && calls == [DeleteFailed(q), Create(g.NewPod(0))] && g.NewPod(0).name == p.name
            && !FitAll(g, calls, m)
  {
    var g := SmallGoal(1, RollingUpdate, Some(Some(0)));
    assert g.NewPod(0).name == p.name;
    assert [p] + [q] == [p, q];
    hide Names.PodName, SyncPlan, PhasePlan, FitAll, Lists, WellKept, NoCollision;
    PlanOfFailed(g, [p], q);
    TwinsListed(g, p, q, ord);
    CreationCollides(g, p, q, g.NewPod(0));
  }

  lemma TwinsListed(g: Goal, p: Pod, q: Pod, ord: Numbering)
    requires p.name != q.name && ord(p.name) == 0 && ord(q.name) == 0 && g.Wants(0)
    requires p.ordinal == q.ordinal == 0 && p.IsCreated() && q.IsFailed()
    requires !g.deleting && g.NewPod(0).name == p.name
    ensures var m := map[p.name := p, q.name := q];
            Lists([p, q], m) && WellKept(m, ord) && !NoCollision(g, [p, q], m)
  {
    var m := map[p.name := p, q.name := q];
    assert m[p.name] == p && m[q.name] == q;
    assert PodAt([p, q], 0) == Some(q) && Replaces(g, [p, q], 0);
  }

  lemma CreationCollides(g: Goal, p: Pod, q: Pod, new_: Pod)
    requires p.name != q.name && new_.name == p.name
    ensures !FitAll(g, [DeleteFailed(q), Create(new_)], map[p.name := p, q.name := q])
  {
    var m := map[p.name := p, q.name := q];
    var calls := [DeleteFailed(q), Create(new_)];
    assert calls[1..] == [Create(new_)];
    assert p.name in Effect(DeleteFailed(q), m);
    assert !FitAll(g, calls[1..], Effect(DeleteFailed(q), m));
  }

  lemma {:induction false} NoMiscounts(g: Goal, calls: seq<Action>)
    ensures Miscounts(g, calls) == (0, 0)
            <==> forall a :: a in calls ==> !MiscountsCurrent(g, a) && !MiscountsUpdated(g, a)
    decreases |calls|
  {
    if calls != [] {
      NoMiscounts(g, calls[1..]);
      assert calls == [calls[0]] + calls[1..];
    }
  }

  // ------------------------------------------------------------ orderly clusters

  /** All pods are the set's own: created, and under the name of their ordinal. */
  ghost predicate Orderly(setName: string, m: PodMap, ord: Numbering) {
    && WellKept(m, ord)
    && forall n :: n in m ==> 0 <= m[n].ordinal && n == Names.PodName(setName, m[n].ordinal)
  }

  ghost predicate Reads(setName: string, ord: Numbering) {
    forall i :: 0 <= i <= Slots.MAX_INT32 ==> ord(Names.PodName(setName, i)) == i
  }

  lemma OrderlySnapshot(g: Goal, pods: seq<Pod>, m: PodMap, ord: Numbering)
    requires Orderly(g.setName, m, ord) && Reads(g.setName, ord)
    requires Lists(pods, m) && 0 <= g.replicaCount <= Slots.MAX_INT32
    ensures Snapshot(g, pods, m, ord)
  {
    forall i | 0 <= i < g.replicaCount
      ensures ord(g.NewPod(i).name) == i
    {
    }
  }

  /** The parser of the controller is such a numbering. */
  lemma NamesRead(setName: string)
    ensures Reads(setName, Names.Ordinal)
  {
    forall i | 0 <= i <= Slots.MAX_INT32
      ensures Names.Ordinal(Names.PodName(setName, i)) == i
    {
      Names.ParsePodName(setName, i);
    }
  }
}
