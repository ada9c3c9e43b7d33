/** Partition safety over whole runs. */
module Partition {
  import opened Pods
  import opened Planning
  import opened Reconcile
  import opened StepSafety
  import opened Completion
  import opened Conservation
  import opened History
  import opened Cluster
  import opened Machine
  import Slots

  /** The spec keeps the partition, is not being deleted, wants some ordinal below the
      partition, and its template is not the one recorded for the old revision. */
  ghost predicate Guarded(spec: Spec, partition: int, oldData: string) {
    && spec.rollingUpdate == Some(Some(partition)) && !spec.deleting
    && spec.template != oldData
    && exists o :: 0 <= o < partition && o in WantedOrdinals(spec)
  }

  function WantedOrdinals(spec: Spec): set<int> {
    Slots.Wanted(ReplicaCount(spec), Slots.Below(spec.deleteSlots, ReplicaCount(spec)))
  }

  /** Every pod below the partition is at revision `old`, which is the current one. */
  ghost predicate Held(w: World, partition: int, old_: string, oldData: string) {
    && Guarded(w.spec, partition, oldData)
    && KeyedPods(w.pods)
    && w.status.currentRevision == old_
    && old_ in w.store && w.store[old_].data == oldData
    && forall n :: n in w.pods && 0 <= w.pods[n].ordinal < partition ==> w.pods[n].revision == old_
  }

  /** The two revisions of a sync differ. */
  lemma HeldRevisions(w: World, r: SyncRecord, partition: int, old_: string, oldData: string)
    requires Held(w, partition, old_, oldData)
    requires Listing(r.revisions, w.store) && r.newName !in w.store
    ensures CurrentOf(w.spec, w.status, r).name == old_
    ensures UpdateOf(w.spec, r).name != old_
  {
    CurrentResolved(w, r);
    RecordedData(r.revisions, w.store, w.spec.template, r.newName);
  }

  /** A sync of a held set never completes the rolling update. */
  lemma NeverCompletes(w: World, r: SyncRecord, w': World, partition: int, old_: string, oldData: string)
    requires Held(w, partition, old_, oldData)
    requires Step(w, Sync(r), w') && r.stage.Finished?
    ensures var g := SyncGoal(w.spec, w.status, r);
            !Completes(g.strategy, Settle(g, Observe(g, r.listing), r.calls))
  {
    var g := SyncGoal(w.spec, w.status, r);
    HeldRevisions(w, r, partition, old_, oldData);
    var o :| 0 <= o < partition && o in WantedOrdinals(w.spec);
    assert g.Wants(o);
    forall p | p in r.listing && p.ordinal == o
      ensures p.revision != g.update
    {
      assert w.pods[p.name] == p;
    }
    if Completes(g.strategy, Settle(g, Observe(g, r.listing), r.calls)) {
      CompletionSound(g, r.listing, r.condemned, r.faults, r.calls);
    }
  }

  /** A finished sync that completes nothing leaves its current revision stored. */
  lemma StatusKeepsCurrent(w: World, r: SyncRecord, w': World)
    requires Step(w, Sync(r), w') && r.stage.Finished?
    requires var g := SyncGoal(w.spec, w.status, r);
             !Completes(g.strategy, Settle(g, Observe(g, r.listing), r.calls))
    ensures w'.status.currentRevision == CurrentOf(w.spec, w.status, r).name
  {
    var g := SyncGoal(w.spec, w.status, r);
    SettleNames(g, Observe(g, r.listing), r.calls);
  }

  lemma PodsHeld(w: World, r: SyncRecord, w': World, partition: int, old_: string, oldData: string)
    requires Held(w, partition, old_, oldData) && Step(w, Sync(r), w')
    ensures forall n :: n in w'.pods && 0 <= w'.pods[n].ordinal < partition ==> w'.pods[n].revision == old_
    ensures KeyedPods(w'.pods)
  {
    HeldRevisions(w, r, partition, old_, oldData);
    SyncOrigins(r, w.pods, w'.pods);
    forall n | n in w'.pods && 0 <= w'.pods[n].ordinal < partition
      ensures w'.pods[n].revision == old_
    {
      var q := w'.pods[n];
      if !(q.name in w.pods && Descends(w.pods[q.name], q)) {
        var a :| a in r.calls && a.Create? && Descends(a.pod, q);
        CreationsLicensed(w, r, a);
      }
    }
  }

  lemma HeldStep(w: World, e: Event, w': World, partition: int, old_: string, oldData: string)
    requires Held(w, partition, old_, oldData) && Step(w, e, w')
    requires e.SpecEdited? ==> Guarded(e.spec, partition, oldData)
    ensures Held(w', partition, old_, oldData)
  {
    if e.Sync? {
      var r := e.r;
      HeldRevisions(w, r, partition, old_, oldData);
      StoreAfterSync(w, r, w');
      assert old_ in KeptNames(w, r);
      PodsHeld(w, r, w', partition, old_, oldData);
      if r.stage.Finished? {
        NeverCompletes(w, r, w', partition, old_, oldData);
        StatusKeepsCurrent(w, r, w');
      }
    }
  }

  /** Partition safety: over every run of syncs, API failures, pod failures,
      deletions, removals and guarded edits of the spec, every pod below the
      partition stays at the old revision and the update never completes. */
  lemma {:induction false} PartitionSafety(ws: seq<World>, es: seq<Event>, i: nat,
                                           partition: int, old_: string, oldData: string)
    requires Run(ws, es) && i < |ws|
    requires Held(ws[0], partition, old_, oldData)
    requires forall j :: 0 <= j < i && es[j].SpecEdited? ==> Guarded(es[j].spec, partition, oldData)
    ensures forall n :: n in ws[i].pods && 0 <= ws[i].pods[n].ordinal < partition
                        ==> ws[i].pods[n].revision == old_
    ensures ws[i].status.currentRevision == old_
    ensures Held(ws[i], partition, old_, oldData)
  {
    if i > 0 {
      PartitionSafety(ws, es, i - 1, partition, old_, oldData);
      HeldStep(ws[i - 1], es[i - 1], ws[i], partition, old_, oldData);
    }
  }
}
