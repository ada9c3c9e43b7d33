/** A set and its cluster as a state machine: controller syncs with API failures at
    any point, pods that change, terminate and vanish, and edits of the spec. */
module Cluster {
  import opened Pods
  import opened Planning
  import opened Reconcile
  import opened StepSafety
  import opened Conservation
  import opened History
  import Slots

  /** The spec of a set; `template` is the data a revision records. */
  datatype Spec = Spec(
    setName: string,
    replicas: nat,
    deleteSlots: set<int>,
    strategy: Strategy,
    rollingUpdate: Option<Option<int>>,
    ordered: bool,
    deleting: bool,
    historyLimit: nat,
    template: string,
    generation: int)

  function ReplicaCount(spec: Spec): int {
    var count := Slots.MaxCount(spec.replicas, spec.deleteSlots);
    if count <= Slots.MAX_INT32 then count else Slots.MIN_INT32
  }

  function GoalOf(spec: Spec, stored: Status, current: string, update: string): Goal {
    Goal(spec.setName, ReplicaCount(spec), Slots.Below(spec.deleteSlots, ReplicaCount(spec)),
         spec.strategy, spec.rollingUpdate, spec.ordered, spec.deleting,
         current, update, stored.currentReplicas, spec.generation, stored.collisionCount)
  }

  // --------------------------------------------------------- one sync of a set

  /** inconsistentStatus */
  predicate Inconsistent(stored: Status, s: Status) {
    || s.observedGeneration > stored.observedGeneration
    || s.replicas != stored.replicas || s.currentReplicas != stored.currentReplicas
    || s.readyReplicas != stored.readyReplicas || s.updatedReplicas != stored.updatedReplicas
    || s.currentRevision != stored.currentRevision || s.updateRevision != stored.updateRevision
  }

  /** updateStatefulSetStatus: the stored status after a successful write. */
  function Written(strategy: Strategy, stored: Status, s: Status): Status {
    if Inconsistent(stored, Completed(strategy, s)) then Completed(strategy, s) else stored
  }

  /** The stored status after a successful write: counters, revisions and generation of the
      sync, completed if all its replicas are updated and ready. An unchanged status keeps
      the newer generation and the collision count it has. */
  lemma StoredStatus(strategy: Strategy, stored: Status, s: Status)
    ensures var t := Written(strategy, stored, s);
            var done := strategy.RollingUpdate? && s.updatedReplicas == s.replicas && s.readyReplicas == s.replicas;
            && t.replicas == s.replicas && t.readyReplicas == s.readyReplicas
            && t.updatedReplicas == s.updatedReplicas && t.updateRevision == s.updateRevision
            && t.currentReplicas == (if done then s.updatedReplicas else s.currentReplicas)
            && t.currentRevision == (if done then s.updateRevision else s.currentRevision)
            && s.observedGeneration <= t.observedGeneration
            && (t == stored || (t.observedGeneration == s.observedGeneration && t.collisionCount == s.collisionCount))
  {
  }

  /** How far a sync got: it failed before or at the write of its revision, it made
      pod calls but its status was not written, or it wrote the status and then
      deleted `deleted` revisions. */
  datatype Stage = NoHistory | HistoryOnly | PodsOnly | Finished(deleted: nat)

  /** What a sync was given and what it did. */
  datatype SyncRecord = SyncRecord(
    revisions: seq<Revision>,
    newName: string,
    listing: seq<Pod>,
    condemned: seq<Pod>,
    faults: set<nat>,
    calls: seq<Action>,
    outcome: Outcome,
    stage: Stage)

  function UpdateOf(spec: Spec, r: SyncRecord): Revision {
    UpdateRevision(r.revisions, spec.template, r.newName)
  }

  function CurrentOf(spec: Spec, stored: Status, r: SyncRecord): Revision {
    CurrentRevision(r.revisions, stored.currentRevision, UpdateOf(spec, r))
  }

  function SyncGoal(spec: Spec, stored: Status, r: SyncRecord): Goal {
    GoalOf(spec, stored, CurrentOf(spec, stored, r).name, UpdateOf(spec, r).name)
  }

  function DoomedNames(spec: Spec, stored: Status, r: SyncRecord, deleted: nat): set<string> {
    var live := LiveNames(r.listing, CurrentOf(spec, stored, r).name, UpdateOf(spec, r).name);
    var doomed := Doomed(r.revisions, live, spec.historyLimit);
    RevisionNames(doomed[..if deleted <= |doomed| then deleted else |doomed|])
  }

  /** The revisions a sync leaves behind. */
  ghost predicate StoreRan(spec: Spec, stored: Status, store: Store, r: SyncRecord, store': Store) {
    && Listing(r.revisions, store) && r.newName !in store
    && match r.stage
       case NoHistory => store' == store
       case HistoryOnly => store' == Record(store, UpdateOf(spec, r))
       case PodsOnly => store' == Record(store, UpdateOf(spec, r))
       case Finished(deleted) =>
         store' == Record(store, UpdateOf(spec, r)) - DoomedNames(spec, stored, r, deleted)
  }

  /** The pod calls a sync makes. */
  ghost predicate PodsRan(spec: Spec, stored: Status, r: SyncRecord) {
    var g := SyncGoal(spec, stored, r);
    if r.stage.NoHistory? || r.stage.HistoryOnly? then r.calls == []
    else
      && CondemnedOrder(g, r.listing, r.condemned)
      && Executes(SyncPlan(g, r.listing, r.condemned), r.faults, r.calls, r.outcome)
      && (r.stage.Finished? ==> r.outcome.Returned?)
  }

  /** The status a sync leaves stored. */
  ghost predicate StatusRan(spec: Spec, stored: Status, r: SyncRecord, stored': Status) {
    var g := SyncGoal(spec, stored, r);
    stored' == if r.stage.Finished?
               then Written(spec.strategy, stored, Settle(g, Observe(g, r.listing), r.calls))
               else stored
  }

  ghost predicate Ran(spec: Spec, stored: Status, store: Store, r: SyncRecord, stored': Status, store': Store) {
    && StoreRan(spec, stored, store, r, store')
    && PodsRan(spec, stored, r)
    && StatusRan(spec, stored, r, stored')
  }

  /** Delete-slot arithmetic, then updateStatefulSet. */
  method SyncPods(spec: Spec, stored: Status, pods: seq<Pod>, current: string, update: string,
                  control: PodControl)
    returns (outcome: Outcome, status: StatusRecord, ghost condemned: seq<Pod>)
    requires control.calls == []
    requires forall s :: s in spec.deleteSlots ==> Slots.MIN_INT32 <= s <= Slots.MAX_INT32
    requires spec.replicas <= Slots.MAX_INT32
    modifies control
    ensures fresh(status)
    ensures var g := GoalOf(spec, stored, current, update);
            && CondemnedOrder(g, pods, condemned)
            && Executes(SyncPlan(g, pods, condemned), control.faults, control.calls, outcome)
            && (outcome.Returned? ==> status.View() == Settle(g, Observe(g, pods), control.calls))
  {
    var replicaCount, slots := Slots.GetMaxReplicaCountAndDeleteSlots(spec.replicas, spec.deleteSlots);
    if replicaCount < 0 {
      slots := Slots.Below(spec.deleteSlots, replicaCount); // make panics before any slot is read
    }
    var g := Goal(spec.setName, replicaCount, slots, spec.strategy, spec.rollingUpdate, spec.ordered,
                  spec.deleting, current, update, stored.currentReplicas, spec.generation,
                  stored.collisionCount);
    CountNonNegative(spec.replicas, spec.deleteSlots);
    assert g == GoalOf(spec, stored, current, update);
    outcome, status, condemned := Reconcile.UpdateStatefulSet(g, pods, control);
  }

  lemma CountNonNegative(replicas: nat, slots: set<int>)
    ensures 0 <= Slots.MaxCount(replicas, slots)
  {
  }

  /** updateStatefulSetStatus */
  method WriteStatus(strategy: Strategy, stored: Status, status: StatusRecord, writeOk: bool)
    returns (ok: bool, stored': Status)
    modifies status
    ensures stored' == if ok then Written(strategy, stored, old(status.View())) else stored
    ensures ok <==> writeOk || !Inconsistent(stored, Completed(strategy, old(status.View())))
  {
    status.CompleteRollingUpdate(strategy);
    if !Inconsistent(stored, status.View()) {
      return true, stored;
    }
    return writeOk, if writeOk then status.View() else stored;
  }

  /** The status write of a sync succeeds or has nothing to write. */
  predicate StatusKept(spec: Spec, stored: Status, r: SyncRecord, statusOk: bool) {
    var g := SyncGoal(spec, stored, r);
    statusOk || !Inconsistent(stored, Completed(spec.strategy, Settle(g, Observe(g, r.listing), r.calls)))
  }

  function DoomedOf(spec: Spec, stored: Status, r: SyncRecord): seq<Revision> {
    Doomed(r.revisions, LiveNames(r.listing, CurrentOf(spec, stored, r).name, UpdateOf(spec, r).name), spec.historyLimit)
  }

  /** How the truncation of a sync ends whose deletions start with the API call numbered
      `from`: it succeeds exactly if none of them fails and no revision comes twice, and
      otherwise stops at the first that does. */
  ghost predicate TruncatedAs(doomed: seq<Revision>, faults: set<nat>, from: nat, deleted: nat, ok: bool) {
    && (ok <==> NoDuplicates(doomed) && NoFaults(faults, from, |doomed|))
    && (ok ==> |doomed| <= deleted)
    && (!ok ==> deleted < |doomed| && NoFaults(faults, from, deleted)
                && (from + deleted in faults || doomed[deleted].name in RevisionNames(doomed[..deleted])))
  }

  /** What truncateHistory promises means that it ends like this. */
  lemma TruncatedSo(doomed: seq<Revision>, store: Store, faults: set<nat>, from: nat, deleted: nat, ok: bool)
    requires deleted <= |doomed| && (ok <==> deleted == |doomed|) && NoFaults(faults, from, deleted)
    requires !ok ==> from + deleted in faults || doomed[deleted].name !in store - RevisionNames(doomed[..deleted])
    requires ok ==> NoDuplicates(doomed)
    ensures RevisionNames(doomed) <= store.Keys
            ==> TruncatedAs(doomed, faults, from, deleted, ok)
                && forall n: nat :: ok && deleted <= n ==> TruncatedAs(doomed, faults, from, n, ok)
  {
    if !ok && RevisionNames(doomed) <= store.Keys {
      assert doomed[deleted] in doomed;
      if doomed[deleted].name in RevisionNames(doomed[..deleted]) {
        OneMoreDistinctFails(doomed, deleted);
      }
    }
  }

  lemma OneMoreDistinctFails(doomed: seq<Revision>, k: nat)
    requires k < |doomed| && doomed[k].name in RevisionNames(doomed[..k])
    ensures !NoDuplicates(doomed)
  {
    var d :| d in doomed[..k] && d.name == doomed[k].name;
    var i :| 0 <= i < k && doomed[..k][i] == d;
    assert doomed[i].name == doomed[k].name;
  }

  /** A sync from its pod calls on, once the revisions are resolved. */
  method SyncResolved(spec: Spec, stored: Status, pods: seq<Pod>, revisions: seq<Revision>,
                      ghost start: SyncRecord, current: Revision, update: Revision,
                      control: PodControl, history: HistoryClient, statusOk: bool)
    returns (ok: bool, stored': Status, ghost r: SyncRecord)
    requires start.revisions == revisions && start.listing == pods
    requires update == UpdateOf(spec, start) && current == CurrentOf(spec, stored, start)
    requires control.calls == []
    requires forall s :: s in spec.deleteSlots ==> Slots.MIN_INT32 <= s <= Slots.MAX_INT32
    requires spec.replicas <= Slots.MAX_INT32
    modifies control, history
    ensures r.stage.PodsOnly? || r.stage.Finished?
    ensures PodsRan(spec, stored, r) && StatusRan(spec, stored, r, stored')
    ensures history.store
            == if r.stage.PodsOnly? then old(history.store)
               else old(history.store) - DoomedNames(spec, stored, start, r.stage.deleted)
    ensures r == start.(condemned := r.condemned, faults := control.faults, calls := control.calls,
                        outcome := r.outcome, stage := r.stage)
    ensures ok ==> r.stage == Finished(|revisions|)
    ensures r.stage.Finished? <==> r.outcome.Returned? && StatusKept(spec, stored, r, statusOk)
    ensures !r.stage.Finished? ==> !ok
    ensures r.stage.Finished? && RevisionNames(DoomedOf(spec, stored, start)) <= old(history.store).Keys
            ==> TruncatedAs(DoomedOf(spec, stored, start), history.faults, old(history.calls), r.stage.deleted, ok)
  {
    hide SyncPlan, PhasePlan, UpdateRevision, CurrentRevision, NonLive, LiveNames, Settle, Observe;
    hide NoDuplicates, RevisionNames, NoFaults, CondemnedOrder, Inconsistent, Completed;
    var outcome, status, condemned := SyncPods(spec, stored, pods, current.name, update.name, control);
    r := start.(condemned := condemned, faults := control.faults, calls := control.calls,
                outcome := outcome, stage := PodsOnly);
    if !outcome.Returned? {
      return false, stored, r;
    }
    var written;
    written, stored' := WriteStatus(spec.strategy, stored, status, statusOk);
    if !written {
      return false, stored, r;
    }
    ghost var deleted;
    ghost var store, from := history.store, history.calls;
    ok, deleted := TruncateHistory(pods, revisions, current.name, update.name, spec.historyLimit, history);
    assert r.revisions == revisions && r.listing == pods;
    TruncatedSo(DoomedOf(spec, stored, start), store, history.faults, from, deleted, ok);
    r := r.(stage := Finished(if ok then |revisions| else deleted));
  }

  /** UpdateStatefulSet: revisions, pods, status, history. `revisions` is what
      ListRevisions returns, in order; `statusOk` tells whether the status write
      succeeds. */
  method UpdateStatefulSet(spec: Spec, stored: Status, pods: seq<Pod>, revisions: seq<Revision>,
                           newName: string, control: PodControl, history: HistoryClient, statusOk: bool)
    returns (ok: bool, stored': Status, ghost r: SyncRecord)
    requires Listing(revisions, history.store) && newName !in history.store
    requires control.calls == []
    requires forall s :: s in spec.deleteSlots ==> Slots.MIN_INT32 <= s <= Slots.MAX_INT32
    requires spec.replicas <= Slots.MAX_INT32
    modifies control, history
    ensures Ran(spec, stored, old(history.store), r, stored', history.store)
    ensures r.revisions == revisions && r.newName == newName && r.listing == pods
    ensures r.calls == control.calls && r.faults == control.faults
    ensures ok ==> r.stage == Finished(|revisions|)
    ensures r.stage.NoHistory? <==> !Recorded(revisions, spec.template) && old(history.calls) in history.faults
    ensures !r.stage.NoHistory? ==>
              (r.stage.Finished? <==> r.outcome.Returned? && StatusKept(spec, stored, r, statusOk))
    ensures r.stage.NoHistory? || r.stage.PodsOnly? || r.stage.Finished?
    ensures !r.stage.Finished? ==> !ok
    ensures r.stage.Finished? ==>
              TruncatedAs(DoomedOf(spec, stored, r), history.faults,
                          old(history.calls) + if Recorded(revisions, spec.template) then 0 else 1, r.stage.deleted, ok)
    ensures history.faults == {} ==> (ok <==> r.stage.Finished? && NoDuplicates(DoomedOf(spec, stored, r)))
  {
    r := SyncRecord(revisions, newName, pods, [], control.faults, [], Errored, NoHistory);
    var resolved, current, update :=
      GetStatefulSetRevisions(spec.template, stored.currentRevision, revisions, newName, history);
    if !resolved {
      return false, stored, r;
    }
    ok, stored', r := SyncResolved(spec, stored, pods, revisions, r, current, update,
                                   control, history, statusOk);
  }
}
