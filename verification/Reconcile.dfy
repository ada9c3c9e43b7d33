/** updateStatefulSet as the controller runs it: a slice of replicas filled in
    place, a status record updated along the way, early returns, and API calls that
    may fail. Its contract ties it to the plan of the sync. */
module Reconcile {
  import opened Pods
  import opened Planning
  import Slots

  /** The API server's pod endpoint. The calls numbered in `faults` fail. */
  class PodControl {
    const faults: set<nat>
    var calls: seq<Action>

    constructor (faults: set<nat>)
      ensures this.faults == faults && calls == []
    {
      this.faults := faults;
      calls := [];
    }

    method Do(action: Action) returns (ok: bool)
      modifies this
      ensures calls == old(calls) + [action]
      ensures ok == (|old(calls)| !in faults)
    {
      ok := |calls| !in faults;
      calls := calls + [action];
    }
  }

  /** The status object a sync fills in. */
  class StatusRecord {
    var observedGeneration: int
    var replicas: int
    var readyReplicas: int
    var currentReplicas: int
    var updatedReplicas: int
    var currentRevision: string
    var updateRevision: string
    var collisionCount: int

    function View(): Status
      reads this
    {
      Status(observedGeneration, replicas, readyReplicas, currentReplicas, updatedReplicas,
             currentRevision, updateRevision, collisionCount)
    }

    constructor (g: Goal)
      ensures View() == Observe(g, [])
    {
      observedGeneration := g.generation;
      replicas, readyReplicas, currentReplicas, updatedReplicas := 0, 0, 0, 0;
      currentRevision, updateRevision := g.current, g.update;
      collisionCount := g.collisionCount;
    }

    /** completeRollingUpdate */
    method CompleteRollingUpdate(strategy: Strategy)
      modifies this
      ensures View() == Completed(strategy, old(View()))
    {
      if strategy.RollingUpdate? && updatedReplicas == replicas && readyReplicas == replicas {
        currentReplicas := updatedReplicas;
        currentRevision := updateRevision;
      }
    }
  }

  predicate Completes(strategy: Strategy, s: Status) {
    strategy.RollingUpdate? && s.updatedReplicas == s.replicas && s.readyReplicas == s.replicas
  }

  function Completed(strategy: Strategy, s: Status): Status {
    if Completes(strategy, s)
    then s.(currentReplicas := s.updatedReplicas, currentRevision := s.updateRevision)
    else s
  }

  // ------------------------------------------------------------ sorting helpers

  /** Insert a pod into an ascending list. */
  method Insert(sorted: seq<Pod>, pod: Pod) returns (out: seq<Pod>)
    requires Ascending(sorted)
    ensures Ascending(out) && multiset(out) == multiset(sorted) + multiset{pod}
  {
    hide Ascending;
    var i := |sorted|;
    while 0 < i && pod.ordinal < sorted[i - 1].ordinal
      invariant 0 <= i <= |sorted|
      invariant forall j :: i <= j < |sorted| ==> pod.ordinal < sorted[j].ordinal
    {
      i := i - 1;
    }
    SplitKeepsOrder(sorted, pod, i);
    InsertKeepsOrder(sorted[..i], pod, sorted[i..]);
    InsertKeepsPods(sorted[..i], pod, sorted[i..]);
    assert sorted == sorted[..i] + sorted[i..];
    out := sorted[..i] + [pod] + sorted[i..];
  }

  lemma SplitKeepsOrder(sorted: seq<Pod>, pod: Pod, i: nat)
    requires Ascending(sorted) && i <= |sorted|
    requires forall j :: i <= j < |sorted| ==> pod.ordinal < sorted[j].ordinal
    requires i > 0 ==> sorted[i - 1].ordinal <= pod.ordinal
    ensures Ascending(sorted[..i]) && Ascending(sorted[i..])
    ensures forall j :: 0 <= j < i ==> sorted[..i][j].ordinal <= pod.ordinal
    ensures forall j :: 0 <= j < |sorted| - i ==> pod.ordinal <= sorted[i..][j].ordinal
  {
  }

  lemma InsertKeepsOrder(below: seq<Pod>, pod: Pod, above: seq<Pod>)
    requires Ascending(below) && Ascending(above)
    requires forall j :: 0 <= j < |below| ==> below[j].ordinal <= pod.ordinal
    requires forall j :: 0 <= j < |above| ==> pod.ordinal <= above[j].ordinal
    ensures Ascending(below + [pod] + above)
  {
    ConcatAscending(below, [pod], pod.ordinal);
    var low := below + [pod];
    forall j | 0 <= j < |low|
      ensures low[j].ordinal <= pod.ordinal
    {
      assert low[j] == if j < |below| then below[j] else pod;
    }
    ConcatAscending(low, above, pod.ordinal);
  }

  lemma InsertKeepsPods(below: seq<Pod>, pod: Pod, above: seq<Pod>)
    ensures multiset(below + [pod] + above) == multiset(below + above) + multiset{pod}
  {
  }

  lemma ConcatAscending(low: seq<Pod>, high: seq<Pod>, bound: int)
    requires Ascending(low) && Ascending(high)
    requires forall j :: 0 <= j < |low| ==> low[j].ordinal <= bound
    requires forall j :: 0 <= j < |high| ==> bound <= high[j].ordinal
    ensures Ascending(low + high)
  {
    var all := low + high;
    forall j, k | 0 <= j < k < |all|
      ensures all[j].ordinal <= all[k].ordinal
    {
      assert all[j] == if j < |low| then low[j] else high[j - |low|];
      assert all[k] == if k < |low| then low[k] else high[k - |low|];
    }
  }

  /** sort.Sort on ordinals. */
  method SortByOrdinal(pods: seq<Pod>) returns (sorted: seq<Pod>)
    ensures Ascending(sorted) && multiset(sorted) == multiset(pods)
  {
    sorted := [];
    for i := 0 to |pods|
      invariant Ascending(sorted) && multiset(sorted) == multiset(pods[..i])
    {
      assert pods[..i + 1] == pods[..i] + [pods[i]];
      sorted := Insert(sorted, pods[i]);
    }
    assert pods[..|pods|] == pods;
  }

  // -------------------------------------------------------------- the listing

  /** Count one more listed pod. */
  method CountPod(g: Goal, ghost seen: seq<Pod>, pod: Pod, status: StatusRecord)
    requires status.View() == Observe(g, seen)
    modifies status
    ensures status.View() == Observe(g, seen + [pod])
  {
    assert (seen + [pod])[..|seen|] == seen;
    status.replicas := status.replicas + 1;
    if pod.IsRunningAndReady() {
      status.readyReplicas := status.readyReplicas + 1;
    }
    if pod.IsCreated() && !pod.terminating {
      if pod.revision == g.current {
        status.currentReplicas := status.currentReplicas + 1;
      }
      if pod.revision == g.update {
        status.updatedReplicas := status.updatedReplicas + 1;
      }
    }
  }

  /** Put one more listed pod where it belongs. */
  method PlacePod(g: Goal, ghost seen: seq<Pod>, pod: Pod, replicas: array<Option<Pod>>,
                  condemned: seq<Pod>)
    returns (condemned': seq<Pod>)
    requires Placed(g, seen, replicas, condemned)
    modifies replicas
    ensures Placed(g, seen + [pod], replicas, condemned')
  {
    assert (seen + [pod])[..|seen|] == seen;
    condemned' := condemned;
    var ord := pod.ordinal;
    if 0 <= ord && ord < g.replicaCount && ord !in g.slots {
      replicas[ord] := Some(pod);
    } else if ord >= g.replicaCount || ord in g.slots {
      condemned' := condemned + [pod];
    }
  }

  ghost predicate Placed(g: Goal, pods: seq<Pod>, replicas: array<Option<Pod>>, condemned: seq<Pod>)
    reads replicas
  {
    && g.replicaCount == replicas.Length
    && condemned == CondemnedPods(g, pods)
    && forall i :: 0 <= i < replicas.Length ==>
         replicas[i] == if g.Wants(i) then PodAt(pods, i) else None
  }

  /** Split the listed pods into the slice of replicas and the condemned pods, and
      count them in the status. */
  method Split(g: Goal, pods: seq<Pod>, replicas: array<Option<Pod>>, status: StatusRecord)
    returns (condemned: seq<Pod>)
    requires Placed(g, [], replicas, [])
    requires status.View() == Observe(g, [])
    modifies replicas, status
    ensures status.View() == Observe(g, pods)
    ensures Placed(g, pods, replicas, condemned)
  {
    condemned := [];
    for k := 0 to |pods|
      invariant status.View() == Observe(g, pods[..k])
      invariant Placed(g, pods[..k], replicas, condemned)
    {
      assert pods[..k + 1] == pods[..k] + [pods[k]];
      CountPod(g, pods[..k], pods[k], status);
      condemned := PlacePod(g, pods[..k], pods[k], replicas, condemned);
    }
    assert pods[..|pods|] == pods;
  }

  /** Fill in new pods. Without a partition the first of them panics. */
  method CreateMissing(g: Goal, ghost pods: seq<Pod>, replicas: array<Option<Pod>>) returns (crashed: bool)
    requires Placed(g, pods, replicas, CondemnedPods(g, pods))
    modifies replicas
    ensures crashed <==> g.LacksPartition() && Incomplete(g, pods)
    ensures !crashed ==> replicas[..] == Replicas(g, pods)
  {
    for ord := 0 to g.replicaCount
      invariant g.LacksPartition() ==> forall i :: 0 <= i < ord && g.Wants(i) ==> PodAt(pods, i).Some?
      invariant forall i :: 0 <= i < ord ==> replicas[i] == Replica(g, pods, i)
      invariant forall i :: ord <= i < replicas.Length ==>
                  replicas[i] == if g.Wants(i) then PodAt(pods, i) else None
    {
      if ord in g.slots {
        continue;
      }
      if replicas[ord] == None {
        if g.LacksPartition() {
          return true;
        }
        replicas[ord] := Some(g.NewPod(ord));
      }
    }
    crashed := false;
  }

  /** One pod of the scan for the first unhealthy pod. */
  method Scan(pod: Pod, ghost seen: seq<Pod>, unhealthy: nat, first: Option<Pod>, firstOrdinal: int)
    returns (unhealthy': nat, first': Option<Pod>, firstOrdinal': int)
    requires Scanned(seen, unhealthy, first, firstOrdinal)
    ensures Scanned(seen + [pod], unhealthy', first', firstOrdinal')
  {
    unhealthy', first', firstOrdinal' := unhealthy, first, firstOrdinal;
    assert (seen + [pod])[..|seen|] == seen;
    if !pod.IsHealthy() {
      assert pod in seen + [pod];
      unhealthy' := unhealthy + 1;
      if pod.ordinal < firstOrdinal {
        firstOrdinal' := pod.ordinal;
        first' := Some(pod);
      }
    }
  }

  ghost predicate Scanned(seen: seq<Pod>, unhealthy: nat, first: Option<Pod>, firstOrdinal: int) {
    && (unhealthy > 0 <==> SomeUnhealthy(seen))
    && first == FirstUnhealthy(seen)
    && firstOrdinal == if first.Some? then first.value.ordinal else Slots.MAX_INT32
  }

  method ScanReplicas(replicas: array<Option<Pod>>)
    returns (unhealthy: nat, first: Option<Pod>, firstOrdinal: int)
    ensures Scanned(Present(replicas[..]), unhealthy, first, firstOrdinal)
  {
    unhealthy, first, firstOrdinal := 0, None, Slots.MAX_INT32;
    for i := 0 to replicas.Length
      invariant Scanned(Present(replicas[..i]), unhealthy, first, firstOrdinal)
    {
      assert replicas[..i + 1][..i] == replicas[..i];
      if replicas[i] == None {
        assert Present(replicas[..i + 1]) == Present(replicas[..i]);
        continue;
      }
      assert Present(replicas[..i + 1]) == Present(replicas[..i]) + [replicas[i].value];
      unhealthy, first, firstOrdinal :=
        Scan(replicas[i].value, Present(replicas[..i]), unhealthy, first, firstOrdinal);
    }
    assert replicas[..replicas.Length] == replicas[..];
  }

  method FindFirstUnhealthy(replicas: array<Option<Pod>>, condemned: seq<Pod>)
    returns (unhealthy: nat, first: Option<Pod>)
    ensures unhealthy > 0 <==> SomeUnhealthy(Present(replicas[..]) + condemned)
    ensures first == FirstUnhealthy(Present(replicas[..]) + condemned)
  {
    var firstOrdinal;
    unhealthy, first, firstOrdinal := ScanReplicas(replicas);
    ghost var present := Present(replicas[..]);
    assert present + condemned[..0] == present;
    for i := 0 to |condemned|
      invariant Scanned(present + condemned[..i], unhealthy, first, firstOrdinal)
    {
      assert present + condemned[..i] + [condemned[i]] == present + condemned[..i + 1];
      unhealthy, first, firstOrdinal :=
        Scan(condemned[i], present + condemned[..i], unhealthy, first, firstOrdinal);
    }
    assert condemned[..|condemned|] == condemned;
  }

  // ---------------------------------------------------------------- the phases

  /** The calls so far together with the plan still ahead make up the whole plan,
      and the status accounts for the calls so far. */
  ghost predicate OnTrack(g: Goal, start: Status, whole: Plan, ahead: Plan,
                          control: PodControl, status: StatusRecord)
    reads control, status
  {
    && whole == Prepend(control.calls, Feasible(g, ahead))
    && FaultFree(control.faults, |control.calls|)
    && status.View() == Settle(g, start, control.calls)
  }

  /** How a phase ended: on the way to the next phase, or for good. */
  ghost predicate PhaseDone(g: Goal, start: Status, whole: Plan, next: Plan,
                            control: PodControl, status: StatusRecord, done: Option<Outcome>)
    reads control, status
  {
    match done
    case None => OnTrack(g, start, whole, next, control, status)
    case Some(outcome) =>
      && Executes(whole, control.faults, control.calls, outcome)
      && (outcome.Returned? ==> status.View() == Settle(g, start, control.calls))
  }

  /** One action of the plan: the deletion of a failed pod is the last if its successor
      cannot be built. */
  lemma FeasibleStep(g: Goal, action: Action, rest: Plan)
    ensures Feasible(g, Prepend([action], rest))
            == if g.LacksPartition() && action.DeleteFailed? then Plan([action], Panic)
               else Prepend([action], Feasible(g, rest))
  {
    assert Prepend([action], rest).actions[1..] == rest.actions;
  }

  /** What is left of the plan after an action. */
  function After(g: Goal, action: Action, rest: Plan): Plan {
    if g.LacksPartition() && action.DeleteFailed? then Plan([], Panic) else Feasible(g, rest)
  }

  /** Call the API and, when it succeeds, go one action further in the plan. */
  method Call(g: Goal, action: Action, control: PodControl, ghost start: Status,
              ghost whole: Plan, ghost rest: Plan, ghost status: StatusRecord)
    returns (ok: bool)
    requires OnTrack(g, start, whole, Prepend([action], rest), control, status)
    modifies control
    ensures control.calls == old(control.calls) + [action]
    ensures !ok ==> Executes(whole, control.faults, control.calls, Errored)
    ensures ok ==> whole == Prepend(control.calls, After(g, action, rest))
                   && FaultFree(control.faults, |control.calls|)
                   && Settle(g, start, control.calls) == Account(g, status.View(), action)
  {
    hide Feasible;
    FeasibleStep(g, action, rest);
    ghost var after := After(g, action, rest);
    ok := control.Do(action);
    assert control.calls + after.actions == old(control.calls) + ([action] + after.actions);
    assert control.calls[..|control.calls| - 1] == old(control.calls);
  }

  /** DeleteStatefulPod on a failed replica, which a new pod then replaces, unless
      building it panics. */
  method ReplaceFailed(g: Goal, replicas: array<Option<Pod>>, i: nat, control: PodControl,
                       status: StatusRecord, ghost start: Status, ghost whole: Plan, ghost rest: Plan)
    returns (done: Option<Outcome>)
    requires i < replicas.Length && replicas[i].Some?
    requires OnTrack(g, start, whole, Prepend([DeleteFailed(replicas[i].value)], rest), control, status)
    modifies replicas, control, status
    ensures done.None? ==> OnTrack(g, start, whole, rest, control, status)
    ensures done.None? ==> replicas[..] == old(replicas[..])[i := Some(g.NewPod(i))]
    ensures done.Some? ==> !done.value.Returned? && Executes(whole, control.faults, control.calls, done.value)
    ensures g.LacksPartition() ==> done.Some?
  {
    hide Feasible;
    var pod := replicas[i].value;
    var ok := Call(g, DeleteFailed(pod), control, start, whole, rest, status);
    if !ok {
      return Some(Errored);
    }
    if pod.revision == g.current {
      status.currentReplicas := status.currentReplicas - 1;
    }
    if pod.revision == g.update {
      status.updatedReplicas := status.updatedReplicas - 1;
    }
    status.replicas := status.replicas - 1;
    if g.LacksPartition() {
      return Some(Crashed); // the partition is read through a nil pointer
    }
    replicas[i] := Some(g.NewPod(i));
    done := None;
  }

  /** CreateStatefulPod on a replica that does not exist yet. */
  method CreateReplica(g: Goal, pod: Pod, control: PodControl,
                       status: StatusRecord, ghost start: Status, ghost whole: Plan, ghost rest: Plan)
    returns (ok: bool)
    requires OnTrack(g, start, whole, Prepend([Create(pod)], rest), control, status)
    modifies control, status
    ensures ok ==> OnTrack(g, start, whole, rest, control, status)
    ensures !ok ==> Executes(whole, control.faults, control.calls, Errored)
  {
    ok := Call(g, Create(pod), control, start, whole, rest, status);
    if !ok {
      return;
    }
    status.replicas := status.replicas + 1;
    if pod.revision == g.current {
      status.currentReplicas := status.currentReplicas + 1;
    }
    if pod.revision == g.update {
      status.updatedReplicas := status.updatedReplicas + 1;
    }
  }

  /** The body of the loop over the replicas. */
  method RunReplica(g: Goal, replicas: array<Option<Pod>>, i: nat, control: PodControl,
                    status: StatusRecord, ghost start: Status, ghost whole: Plan, ghost rest: Plan)
    returns (done: Option<Outcome>)
    requires i < replicas.Length && replicas[i].Some?
    requires OnTrack(g, start, whole, ReplicaThen(g, replicas[i].value, i, rest), control, status)
    modifies replicas, control, status
    ensures PhaseDone(g, start, whole, rest, control, status, done)
    ensures done.None? ==>
              replicas[..] == if old(replicas[i].value.IsFailed())
                              then old(replicas[..])[i := Some(g.NewPod(i))] else old(replicas[..])
  {
    hide Feasible;
    FeasibleEnd(g, Stop);
    ghost var stopped := Plan([], Stop);
    ghost var after := if g.ordered && !replicas[i].value.IsHealthy() then stopped else rest;
    ghost var ahead := ReplicaThen(g, replicas[i].value, i, rest);
    if replicas[i].value.IsFailed() {
      Regroup(DeleteFailed(replicas[i].value), Create(g.NewPod(i)), after);
      assert ahead == Prepend([DeleteFailed(replicas[i].value)], Prepend([Create(g.NewPod(i))], after));
      done := ReplaceFailed(g, replicas, i, control, status, start, whole,
                            Prepend([Create(g.NewPod(i))], after));
      if done.Some? {
        return;
      }
    }
    if !replicas[i].value.IsCreated() {
      assert old(!replicas[i].value.IsFailed()) ==> ahead == Prepend([Create(replicas[i].value)], after);
      var created := CreateReplica(g, replicas[i].value, control, status, start, whole, after);
      if !created {
        return Some(Errored);
      }
      return if g.ordered then Some(Returned) else None;
    }
    if replicas[i].value.terminating && g.ordered {
      return Some(Returned);
    }
    if !replicas[i].value.IsRunningAndReady() && g.ordered {
      return Some(Returned);
    }
    if replicas[i].value.conforms {
      assert Prepend([], rest) == rest;
      return None;
    }
    var updated := Call(g, Update(replicas[i].value), control, start, whole, rest, status);
    return if updated then None else Some(Errored);
  }

  method RunReplicas(g: Goal, replicas: array<Option<Pod>>, control: PodControl,
                     status: StatusRecord, ghost start: Status, ghost whole: Plan, ghost next: Plan)
    returns (done: Option<Outcome>)
    requires OnTrack(g, start, whole, Then(ReplicaPlan(g, replicas[..], 0), next), control, status)
    modifies replicas, control, status
    ensures PhaseDone(g, start, whole, next, control, status, done)
    ensures done.None? ==> replicas[..] == Recreated(g, old(replicas[..]))
  {
    ghost var reps := replicas[..];
    for i := 0 to replicas.Length
      invariant OnTrack(g, start, whole, Then(ReplicaPlan(g, reps, i), next), control, status)
      invariant forall j :: 0 <= j < i ==> replicas[j] == Recreated(g, reps)[j]
      invariant forall j :: i <= j < replicas.Length ==> replicas[j] == reps[j]
    {
      if replicas[i] == None {
        continue;
      }
      ghost var before := replicas[..];
      ReplicaThenThen(g, replicas[i].value, i, ReplicaPlan(g, reps, i + 1), next);
      done := RunReplica(g, replicas, i, control, status, start, whole,
                         Then(ReplicaPlan(g, reps, i + 1), next));
      if done.Some? {
        return;
      }
      assert forall j :: 0 <= j < |before| && j != i ==> replicas[..][j] == before[j];
    }
    assert Prepend([], next) == next;
    done := None;
  }

  lemma FeasibleEnd(g: Goal, ending: Ending)
    ensures Feasible(g, Plan([], ending)) == Plan([], ending)
  {
  }

  lemma Regroup(a: Action, b: Action, rest: Plan)
    ensures Prepend([a], Prepend([b], rest)) == Prepend([a, b], rest)
  {
    assert [a] + ([b] + rest.actions) == [a, b] + rest.actions;
  }

  lemma ReplicaThenThen(g: Goal, pod: Pod, ordinal: int, rest: Plan, next: Plan)
    ensures Then(ReplicaThen(g, pod, ordinal, rest), next)
            == ReplicaThen(g, pod, ordinal, Then(rest, next))
  {
    var acts := ReplicaActions(g, pod, ordinal);
    assert acts + rest.actions + next.actions == acts + (rest.actions + next.actions);
  }

  /** DeleteStatefulPod on a condemned pod, and its counters. */
  method RemoveCondemned(g: Goal, pod: Pod, control: PodControl, status: StatusRecord,
                         ghost start: Status, ghost whole: Plan, ghost rest: Plan)
    returns (ok: bool)
    requires OnTrack(g, start, whole, Prepend([DeleteCondemned(pod)], rest), control, status)
    modifies control, status
    ensures ok ==> OnTrack(g, start, whole, rest, control, status)
    ensures !ok ==> Executes(whole, control.faults, control.calls, Errored)
  {
    ok := Call(g, DeleteCondemned(pod), control, start, whole, rest, status);
    if !ok {
      return;
    }
    if pod.revision == g.current {
      status.currentReplicas := status.currentReplicas - 1;
    }
    if pod.revision == g.update {
      status.updatedReplicas := status.updatedReplicas - 1;
    }
  }

  method RunScaleDown(g: Goal, condemned: seq<Pod>, first: Option<Pod>, control: PodControl,
                      status: StatusRecord, ghost start: Status, ghost whole: Plan, ghost next: Plan)
    returns (done: Option<Outcome>)
    requires OnTrack(g, start, whole,
                     Then(ScaleDownPlan(g, condemned, first, |condemned|), next), control, status)
    modifies control, status
    ensures PhaseDone(g, start, whole, next, control, status, done)
  {
    hide Feasible;
    FeasibleEnd(g, Stop);
    var target := |condemned| - 1;
    while target >= 0
      invariant -1 <= target < |condemned|
      invariant OnTrack(g, start, whole,
                        Then(ScaleDownPlan(g, condemned, first, target + 1), next), control, status)
    {
      var pod := condemned[target];
      if pod.terminating {
        if g.ordered {
          return Some(Returned);
        }
        target := target - 1;
        continue;
      }
      if !pod.IsRunningAndReady() && g.ordered && first != Some(pod) {
        return Some(Returned);
      }
      ghost var rest := if g.ordered then Plan([], Stop)
                        else Then(ScaleDownPlan(g, condemned, first, target), next);
      assert Then(ScaleDownPlan(g, condemned, first, target + 1), next) == Prepend([DeleteCondemned(pod)], rest);
      var deleted := RemoveCondemned(g, pod, control, status, start, whole, rest);
      if !deleted {
        return Some(Errored);
      }
      if g.ordered {
        return Some(Returned);
      }
      target := target - 1;
    }
    assert Prepend([], next) == next;
    done := None;
  }

  method RunUpdate(g: Goal, replicas: array<Option<Pod>>, control: PodControl,
                   status: StatusRecord, ghost start: Status, ghost whole: Plan)
    returns (outcome: Outcome)
    requires OnTrack(g, start, whole, UpdatePlan(g, replicas[..]), control, status)
    modifies control, status
    ensures PhaseDone(g, start, whole, Plan([], Stop), control, status, Some(outcome))
  {
    hide Feasible;
    FeasibleEnd(g, Stop);
    FeasibleEnd(g, Panic);
    if g.strategy.OnDelete? {
      return Returned;
    }
    var updateMin := 0;
    if g.rollingUpdate.Some? {
      if g.rollingUpdate.value.None? {
        return Crashed; // the partition is read through a nil pointer
      }
      updateMin := g.rollingUpdate.value.value;
    }
    var target := replicas.Length - 1;
    while target >= updateMin
      invariant -1 <= target < replicas.Length
      invariant OnTrack(g, start, whole, RollingPlan(g, replicas[..], target + 1), control, status)
      decreases target + 1
    {
      if target < 0 {
        return Crashed; // replicas[-1]: index out of range
      }
      if replicas[target] == None {
        target := target - 1;
        continue;
      }
      var pod := replicas[target].value;
      if pod.revision != g.update && !pod.terminating {
        assert RollingPlan(g, replicas[..], target + 1) == Prepend([DeleteOutdated(pod)], Plan([], Stop));
        var deleted := Call(g, DeleteOutdated(pod), control, start, whole, Plan([], Stop), status);
        status.currentReplicas := status.currentReplicas - 1;
        return if deleted then Returned else Errored;
      }
      if !pod.IsHealthy() {
        return Returned;
      }
      target := target - 1;
    }
    outcome := Returned;
  }

  // ------------------------------------------------------------ the whole sync

  method RunPhases(g: Goal, ghost pods: seq<Pod>, replicas: array<Option<Pod>>, condemned: seq<Pod>,
                   first: Option<Pod>, control: PodControl, status: StatusRecord)
    returns (outcome: Outcome)
    requires control.calls == []
    requires 0 <= g.replicaCount && replicas[..] == Replicas(g, pods)
    requires first == FirstUnhealthy(Present(replicas[..]) + condemned)
    requires SomeUnhealthy(Present(replicas[..]) + condemned) ==> first.Some?
    requires !g.deleting && !(g.LacksPartition() && Incomplete(g, pods))
    requires status.View() == Observe(g, pods)
    modifies replicas, control, status
    ensures PhaseDone(g, Observe(g, pods), SyncPlan(g, pods, condemned), Plan([], Stop),
                      control, status, Some(outcome))
  {
    ghost var start := Observe(g, pods);
    ghost var whole := SyncPlan(g, pods, condemned);
    ghost var last := UpdatePlan(g, Recreated(g, replicas[..]));
    ghost var next := Then(ScaleDownPlan(g, condemned, first, |condemned|), last);
    assert Prepend([], whole) == whole;
    var done := RunReplicas(g, replicas, control, status, start, whole, next);
    if done.Some? {
      return done.value;
    }
    done := RunScaleDown(g, condemned, first, control, status, start, whole, last);
    if done.Some? {
      return done.value;
    }
    outcome := RunUpdate(g, replicas, control, status, start, whole);
  }

  /** updateStatefulSet. `condemned` is the order the sort chose for the condemned
      pods. Pods are compared by value: names are unique in a namespace, so this is
      the comparison of pointers in the source. */
  method UpdateStatefulSet(g: Goal, pods: seq<Pod>, control: PodControl)
    returns (outcome: Outcome, status: StatusRecord, ghost condemned: seq<Pod>)
    requires control.calls == []
    modifies control
    ensures fresh(status)
    ensures CondemnedOrder(g, pods, condemned)
    ensures Executes(SyncPlan(g, pods, condemned), control.faults, control.calls, outcome)
    ensures outcome.Returned? ==> status.View() == Settle(g, Observe(g, pods), control.calls)
  {
    status := new StatusRecord(g);
    var unsorted := [];
    if g.replicaCount < 0 {
      condemned := SortByOrdinal(CondemnedPods(g, pods));
      return Crashed, status, condemned; // make: length out of range
    }
    var replicas := new Option<Pod>[g.replicaCount](_ => None);
    unsorted := Split(g, pods, replicas, status);
    var crashed := CreateMissing(g, pods, replicas);
    var sorted := SortByOrdinal(unsorted);
    condemned := sorted;
    if crashed {
      return Crashed, status, condemned; // the partition is read through a nil pointer
    }
    var unhealthy, first := FindFirstUnhealthy(replicas, sorted);
    if unhealthy > 0 && first == None {
      return Crashed, status, condemned; // the log line reads firstUnhealthyPod.Name
    }
    if g.deleting {
      return Returned, status, condemned;
    }
    outcome := RunPhases(g, pods, replicas, sorted, first, control, status);
  }
}
