/** The controller's view of one sync: the listed pods, the goal derived from the
    set and its revisions, and the status the sync computes. */
module Pods {
  import Names

  datatype Option<+T> = None | Some(value: T)

  /** A pod's phase; `NoPhase` is the empty phase of a pod not yet created. */
  datatype Phase = NoPhase | Pending | Running | Succeeded | Failed | Unknown

  /** What a sync reads from a pod. `ordinal` is the number parsed from the name
      (-1 if there is none), `revision` the revision label, and `conforms` says
      whether identity and storage match the set. */
  datatype Pod = Pod(
    name: string,
    ordinal: int,
    revision: string,
    phase: Phase,
    ready: bool,
    terminating: bool,
    conforms: bool)
  {
    predicate IsCreated() { phase != NoPhase }

    predicate IsFailed() { phase == Failed }

    predicate IsRunningAndReady() { phase == Running && ready }

    predicate IsHealthy() { IsRunningAndReady() && !terminating }
  }

  /** The update strategy's type is a free string in the API. */
  datatype Strategy = RollingUpdate | OnDelete | OtherStrategy

  /** The inputs of a sync besides the pods. `replicaCount` and `slots` come from the
      delete-slot arithmetic, `rollingUpdate` is the strategy's block with its partition,
      either of which may be nil, and `currentReplicas` is the count stored in the set's status. */
  datatype Goal = Goal(
    setName: string,
    replicaCount: int,
    slots: set<int>,
    strategy: Strategy,
    rollingUpdate: Option<Option<int>>,
    ordered: bool,
    deleting: bool,
    current: string,
    update: string,
    currentReplicas: int,
    generation: int,
    collisionCount: int)
  {
    predicate Wants(ordinal: int) {
      0 <= ordinal < replicaCount && ordinal !in slots
    }

    predicate Condemns(ordinal: int) {
      replicaCount <= ordinal || ordinal in slots
    }

    /** A block without a partition: the code reads the partition through a nil pointer
        when it builds a pod or computes where updates start. */
    predicate LacksPartition() {
      rollingUpdate == Some(None)
    }

    function Partition(): Option<int> {
      if rollingUpdate.Some? then rollingUpdate.value else None
    }

    /** Go's `&&` binds tighter than `||`, so a partition selects the current
        revision under every strategy. */
    predicate UsesCurrent(ordinal: int) {
      || (strategy.RollingUpdate? && rollingUpdate.None? && ordinal < currentReplicas)
      || (Partition().Some? && ordinal < Partition().value)
    }

    function UpdateMin(): int {
      if Partition().Some? then Partition().value else 0
    }

    /** newVersionedStatefulSetPod, unless it panics. */
    function NewPod(ordinal: int): Pod {
      Pod(Names.PodName(setName, ordinal), ordinal,
          if UsesCurrent(ordinal) then current else update,
          NoPhase, false, false, true)
    }
  }

  datatype Status = Status(
    observedGeneration: int,
    replicas: int,
    readyReplicas: int,
    currentReplicas: int,
    updatedReplicas: int,
    currentRevision: string,
    updateRevision: string,
    collisionCount: int)

  /** What a status counter counts. */
  datatype Trait = Ready | LiveAt(revision: string)

  predicate Counts(what: Trait, pod: Pod) {
    match what
    case Ready => pod.IsRunningAndReady()
    case LiveAt(revision) => pod.IsCreated() && !pod.terminating && pod.revision == revision
  }

  function Tally(what: Trait, pods: seq<Pod>): (n: nat)
    ensures n <= |pods|
  {
    if pods == [] then 0
    else Tally(what, pods[..|pods| - 1]) + if Counts(what, pods[|pods| - 1]) then 1 else 0
  }

  /** The status a fresh listing of `pods` amounts to. */
  function Observe(g: Goal, pods: seq<Pod>): Status {
    Status(g.generation, |pods|, Tally(Ready, pods),
           Tally(LiveAt(g.current), pods), Tally(LiveAt(g.update), pods),
           g.current, g.update, g.collisionCount)
  }

  /** How one more listed pod is counted; before the first all counters are zero. */
  lemma ObserveOneMore(g: Goal, pods: seq<Pod>, p: Pod)
    ensures var s, t := Observe(g, pods), Observe(g, pods + [p]);
            var live := p.phase != NoPhase && !p.terminating;
            && t == s.(replicas := s.replicas + 1,
                       readyReplicas := s.readyReplicas + if p.phase == Running && p.ready then 1 else 0,
                       currentReplicas := s.currentReplicas + if live && p.revision == g.current then 1 else 0,
                       updatedReplicas := s.updatedReplicas + if live && p.revision == g.update then 1 else 0)
            && Observe(g, []) == Status(g.generation, 0, 0, 0, 0, g.current, g.update, g.collisionCount)
  {
    assert (pods + [p])[..|pods|] == pods;
  }

  /** A full tally means every pod counts, and the other way round. */
  lemma {:induction false} TallyFull(what: Trait, pods: seq<Pod>)
    ensures Tally(what, pods) == |pods| <==> forall p :: p in pods ==> Counts(what, p)
  {
    if pods != [] {
      var front, last := pods[..|pods| - 1], pods[|pods| - 1];
      TallyFull(what, front);
      assert pods == front + [last];
    }
  }
}
