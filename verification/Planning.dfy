/** What one sync does to the pods, as a plan: the list of API calls it makes when
    none of them fails, and how it ends. */
module Planning {
  import opened Pods
  import Slots

  /** An API call on a pod. A deletion says which of the three reasons it has. */
  datatype Action =
    | Create(pod: Pod)
    | Update(pod: Pod)
    | DeleteFailed(pod: Pod)
    | DeleteCondemned(pod: Pod)
    | DeleteOutdated(pod: Pod)

  /** `Through` hands over to the next phase, `Stop` returns, `Panic` crashes. */
  datatype Ending = Through | Stop | Panic

  datatype Plan = Plan(actions: seq<Action>, ending: Ending)

  datatype Outcome = Returned | Errored | Crashed

  function Prepend(actions: seq<Action>, plan: Plan): Plan {
    Plan(actions + plan.actions, plan.ending)
  }

  function Then(first: Plan, second: Plan): Plan {
    if first.ending.Through? then Prepend(first.actions, second) else first
  }

  // ---------------------------------------------------------- sorting the pods

  /** The last listed pod with this ordinal. */
  function PodAt(pods: seq<Pod>, ordinal: int): (found: Option<Pod>)
    ensures found.Some? ==> found.value in pods && found.value.ordinal == ordinal
    ensures found.None? ==> forall p :: p in pods ==> p.ordinal != ordinal
  {
    if pods == [] then None
    else if pods[|pods| - 1].ordinal == ordinal then Some(pods[|pods| - 1])
    else PodAt(pods[..|pods| - 1], ordinal)
  }

  /** Of several pods with one ordinal the last listed one is taken. */
  lemma {:induction false} LastListedWins(pods: seq<Pod>, ordinal: int, k: nat)
    requires k < |pods| && pods[k].ordinal == ordinal
    requires forall j :: k < j < |pods| ==> pods[j].ordinal != ordinal
    ensures PodAt(pods, ordinal) == Some(pods[k])
  {
    if k < |pods| - 1 {
      LastListedWins(pods[..|pods| - 1], ordinal, k);
    }
  }

  function Replica(g: Goal, pods: seq<Pod>, ordinal: int): Option<Pod> {
    if !g.Wants(ordinal) then None
    else if PodAt(pods, ordinal).Some? then PodAt(pods, ordinal)
    else Some(g.NewPod(ordinal))
  }

  /** The slice of replicas: nothing at a slot, a new pod where none is listed. */
  function Replicas(g: Goal, pods: seq<Pod>): (reps: seq<Option<Pod>>)
    requires 0 <= g.replicaCount
    ensures |reps| == g.replicaCount
  {
    seq(g.replicaCount, ordinal => Replica(g, pods, ordinal))
  }

  /** The condemned pods in listing order. */
  function CondemnedPods(g: Goal, pods: seq<Pod>): (out: seq<Pod>)
    ensures forall p :: p in out <==> p in pods && g.Condemns(p.ordinal)
  {
    if pods == [] then []
    else
      CondemnedPods(g, pods[..|pods| - 1])
      + if g.Condemns(pods[|pods| - 1].ordinal) then [pods[|pods| - 1]] else []
  }

  /** The condemned pods come in listing order, each as often as it is listed. */
  lemma {:induction false} CondemnedConcat(g: Goal, a: seq<Pod>, b: seq<Pod>)
    ensures CondemnedPods(g, a + b) == CondemnedPods(g, a) + CondemnedPods(g, b)
  {
    if b == [] {
      assert a + b == a;
    } else {
      assert (a + b)[..|a + b| - 1] == a + b[..|b| - 1];
      CondemnedConcat(g, a, b[..|b| - 1]);
    }
  }

  ghost predicate Ascending(pods: seq<Pod>) {
    forall i, j :: 0 <= i < j < |pods| ==> pods[i].ordinal <= pods[j].ordinal
  }

  /** Any ascending order of the condemned pods; sort.Sort may break ties either way. */
  ghost predicate CondemnedOrder(g: Goal, pods: seq<Pod>, condemned: seq<Pod>) {
    Ascending(condemned) && multiset(condemned) == multiset(CondemnedPods(g, pods))
  }

  /** The pods in the slice of replicas. */
  function Present(reps: seq<Option<Pod>>): (pods: seq<Pod>)
    ensures forall p :: p in pods <==> Some(p) in reps
  {
    if reps == [] then []
    else
      Present(reps[..|reps| - 1])
      + match reps[|reps| - 1] { case None => [] case Some(p) => [p] }
  }

  /** The scan for the first unhealthy pod starts below MaxInt32 and compares strictly. */
  function FirstUnhealthy(pods: seq<Pod>): (first: Option<Pod>)
    ensures first.Some? ==> first.value in pods && !first.value.IsHealthy()
                            && first.value.ordinal < Slots.MAX_INT32
    ensures forall p :: p in pods && !p.IsHealthy() && p.ordinal < Slots.MAX_INT32
                        ==> first.Some? && first.value.ordinal <= p.ordinal
  {
    if pods == [] then None
    else
      var best, p := FirstUnhealthy(pods[..|pods| - 1]), pods[|pods| - 1];
      if p.IsHealthy() then best
      else if p.ordinal < (if best.Some? then best.value.ordinal else Slots.MAX_INT32) then Some(p)
      else best
  }

  /** Of several unhealthy pods with the least ordinal the first one is found. */
  lemma {:induction false} FirstFoundWins(pods: seq<Pod>, k: nat)
    requires k < |pods| && !pods[k].IsHealthy() && pods[k].ordinal < Slots.MAX_INT32
    requires forall j :: 0 <= j < |pods| && !pods[j].IsHealthy() ==> pods[k].ordinal <= pods[j].ordinal
    requires forall j :: 0 <= j < k && !pods[j].IsHealthy() ==> pods[k].ordinal < pods[j].ordinal
    ensures FirstUnhealthy(pods) == Some(pods[k])
  {
    var front := pods[..|pods| - 1];
    if k < |front| {
      FirstFoundWins(front, k);
    } else {
      var best := FirstUnhealthy(front);
      if best.Some? {
        var j :| 0 <= j < |front| && front[j] == best.value;
        assert pods[j] == front[j];
      }
    }
  }

  ghost predicate SomeUnhealthy(pods: seq<Pod>) {
    exists p :: p in pods && !p.IsHealthy()
  }

  // ---------------------------------------------------------------- the phases

  /** What a wanted replica needs. */
  function ReplicaActions(g: Goal, pod: Pod, ordinal: int): seq<Action> {
    if pod.IsFailed() then [DeleteFailed(pod), Create(g.NewPod(ordinal))]
    else if !pod.IsCreated() then [Create(pod)]
    else if pod.conforms then []
    else [Update(pod)]
  }

  /** One replica's part of a plan that goes on with `rest`; an ordered set stops at
      a replica that is not healthy. */
  function ReplicaThen(g: Goal, pod: Pod, ordinal: int, rest: Plan): Plan {
    if !g.ordered || pod.IsHealthy() then
      Prepend(ReplicaActions(g, pod, ordinal), rest)
    else if pod.IsFailed() || !pod.IsCreated() then
      Plan(ReplicaActions(g, pod, ordinal), Stop)
    else
      Plan([], Stop)
  }

  /** Recreate failed pods, create missing ones and repair the others. */
  function ReplicaPlan(g: Goal, reps: seq<Option<Pod>>, i: nat): Plan
    requires i <= |reps|
    decreases |reps| - i
  {
    if i == |reps| then Plan([], Through)
    else match reps[i]
      case None => ReplicaPlan(g, reps, i + 1)
      case Some(pod) => ReplicaThen(g, pod, i, ReplicaPlan(g, reps, i + 1))
  }

  /** The slice of replicas once the failed pods have been replaced. */
  function Recreated(g: Goal, reps: seq<Option<Pod>>): (out: seq<Option<Pod>>)
    ensures |out| == |reps|
  {
    seq(|reps|, i requires 0 <= i < |reps| =>
      if reps[i].Some? && reps[i].value.IsFailed() then Some(g.NewPod(i)) else reps[i])
  }

  /** Delete the condemned pods below `n`, from the highest ordinal down. */
  function ScaleDownPlan(g: Goal, condemned: seq<Pod>, first: Option<Pod>, n: nat): Plan
    requires n <= |condemned|
  {
    if n == 0 then Plan([], Through)
    else
      var pod := condemned[n - 1];
      if pod.terminating then
        if g.ordered then Plan([], Stop) else ScaleDownPlan(g, condemned, first, n - 1)
      else if !g.ordered then
        Prepend([DeleteCondemned(pod)], ScaleDownPlan(g, condemned, first, n - 1))
      else if pod.IsRunningAndReady() || first == Some(pod) then
        Plan([DeleteCondemned(pod)], Stop)
      else
        Plan([], Stop)
  }

  /** Delete the highest outdated replica at or above the partition, waiting for
      the replicas above it. A negative partition runs off the slice. */
  function RollingPlan(g: Goal, reps: seq<Option<Pod>>, n: nat): Plan
    requires n <= |reps|
  {
    if n <= g.UpdateMin() then Plan([], Stop)
    else if n == 0 then Plan([], Panic)
    else match reps[n - 1]
      case None => RollingPlan(g, reps, n - 1)
      case Some(pod) =>
        if pod.revision != g.update && !pod.terminating then Plan([DeleteOutdated(pod)], Stop)
        else if !pod.IsHealthy() then Plan([], Stop)
        else RollingPlan(g, reps, n - 1)
  }

  function UpdatePlan(g: Goal, reps: seq<Option<Pod>>): Plan {
    if g.strategy.OnDelete? then Plan([], Stop)
    else if g.LacksPartition() then Plan([], Panic)
    else RollingPlan(g, reps, |reps|)
  }

  /** The phases of a sync, whose replicas have been filled in. */
  ghost function PhasePlan(g: Goal, pods: seq<Pod>, condemned: seq<Pod>): Plan {
    if g.replicaCount < 0 then Plan([], Panic)
    else
      var reps := Replicas(g, pods);
      var all := Present(reps) + condemned;
      var first := FirstUnhealthy(all);
      if SomeUnhealthy(all) && first.None? then Plan([], Panic)
      else if g.deleting then Plan([], Stop)
      else
        Then(ReplicaPlan(g, reps, 0),
             Then(ScaleDownPlan(g, condemned, first, |condemned|),
                  UpdatePlan(g, Recreated(g, reps))))
  }

  /** Without a partition no pod can be built: the plan goes as far as the deletion of a
      failed pod, which is to be replaced. */
  function Cut(plan: Plan): (cut: Plan)
    ensures cut.actions <= plan.actions
    ensures cut == plan || (cut.ending.Panic? && cut.actions != [] && cut.actions[|cut.actions| - 1].DeleteFailed?)
    decreases |plan.actions|
  {
    if plan.actions == [] then plan
    else
      var first := plan.actions[0];
      if first.DeleteFailed? then Plan([first], Panic)
      else Prepend([first], Cut(Plan(plan.actions[1..], plan.ending)))
  }

  function Feasible(g: Goal, plan: Plan): Plan {
    if g.LacksPartition() then Cut(plan) else plan
  }

  /** Some wanted ordinal has no pod. */
  ghost predicate Incomplete(g: Goal, pods: seq<Pod>) {
    exists i :: g.Wants(i) && PodAt(pods, i).None?
  }

  /** The plan of a whole sync. */
  ghost function SyncPlan(g: Goal, pods: seq<Pod>, condemned: seq<Pod>): Plan {
    if g.LacksPartition() && Incomplete(g, pods) then Plan([], Panic)
    else Feasible(g, PhasePlan(g, pods, condemned))
  }

  // ----------------------------------------------------------------- execution

  predicate FaultFree(faults: set<nat>, n: nat) {
    forall k: nat :: k < n ==> k !in faults
  }

  /** `calls` is what is attempted when the calls numbered in `faults` fail. */
  predicate Executes(plan: Plan, faults: set<nat>, calls: seq<Action>, outcome: Outcome) {
    match outcome
    case Returned => calls == plan.actions && FaultFree(faults, |calls|) && !plan.ending.Panic?
    case Crashed => calls == plan.actions && FaultFree(faults, |calls|) && plan.ending.Panic?
    case Errored =>
      && 0 < |calls| && calls <= plan.actions
      && FaultFree(faults, |calls| - 1) && |calls| - 1 in faults
  }

  /** The change of the counters on a successful call. */
  function Account(g: Goal, s: Status, action: Action): Status {
    match action
    case Create(pod) =>
      s.(replicas := s.replicas + 1,
         currentReplicas := s.currentReplicas + if pod.revision == g.current then 1 else 0,
         updatedReplicas := s.updatedReplicas + if pod.revision == g.update then 1 else 0)
    case DeleteFailed(pod) =>
      s.(replicas := s.replicas - 1,
         currentReplicas := s.currentReplicas - if pod.revision == g.current then 1 else 0,
         updatedReplicas := s.updatedReplicas - if pod.revision == g.update then 1 else 0)
    case DeleteCondemned(pod) =>
      s.(currentReplicas := s.currentReplicas - if pod.revision == g.current then 1 else 0,
         updatedReplicas := s.updatedReplicas - if pod.revision == g.update then 1 else 0)
    case DeleteOutdated(pod) =>
      s.(currentReplicas := s.currentReplicas - 1)
    case Update(pod) => s
  }

  function Settle(g: Goal, s: Status, calls: seq<Action>): Status {
    if calls == [] then s
    else Account(g, Settle(g, s, calls[..|calls| - 1]), calls[|calls| - 1])
  }
}
