/** Runs of the cluster, and what holds in every state of every run. */
module Machine {
  import opened Pods
  import opened Planning
  import opened Reconcile
  import opened StepSafety
  import opened Conservation
  import opened History
  import opened Cluster

  datatype World = World(spec: Spec, status: Status, pods: PodMap, store: Store)

  /** One step: a sync, a change of a pod, its removal, or an edit of the spec. */
  datatype Event =
    | Sync(r: SyncRecord)
    | PodChanged(pod: Pod)
    | PodRemoved(name: string)
    | SpecEdited(spec: Spec)

  // -------------------------------------------------------------- pods in a step

  /** The same pod later on: name, ordinal and revision stay, and a terminating pod
      never comes back. */
  predicate Descends(p: Pod, q: Pod) {
    && q.name == p.name && q.ordinal == p.ordinal && q.revision == p.revision
    && (p.terminating ==> q.terminating)
  }

  /** What a successful call may do: a deletion removes the pod at once or leaves it
      terminating, and a creation needs a free name. */
  ghost predicate MayEffect(a: Action, m: PodMap, m': PodMap) {
    match a
    case Create(pod) => pod.name !in m && m' == m[pod.name := Issued(pod)]
    case Update(_) => m' == Effect(a, m)
    case _ => m' == m - {a.pod.name} || m' == Effect(DeleteCondemned(a.pod), m)
  }

  ghost predicate MayEffects(calls: seq<Action>, m: PodMap, m': PodMap) {
    if calls == [] then m' == m
    else exists mid :: MayEffect(calls[0], m, mid) && MayEffects(calls[1..], mid, m')
  }

  /** The pods after a sync; a failed last call may have taken effect or not. */
  ghost predicate PodsAfter(r: SyncRecord, m: PodMap, m': PodMap) {
    || MayEffects(r.calls, m, m')
    || (r.outcome.Errored? && r.calls != [] && MayEffects(r.calls[..|r.calls| - 1], m, m'))
  }

  ghost predicate Step(w: World, e: Event, w': World) {
    match e
    case Sync(r) =>
      && w'.spec == w.spec
      && Ran(w.spec, w.status, w.store, r, w'.status, w'.store)
      && Lists(r.listing, w.pods)
      && PodsAfter(r, w.pods, w'.pods)
    case PodChanged(p) =>
      && p.name in w.pods && Descends(w.pods[p.name], p) && p.IsCreated()
      && w' == w.(pods := w.pods[p.name := p])
    case PodRemoved(n) => w' == w.(pods := w.pods - {n})
    case SpecEdited(spec) => spec.setName == w.spec.setName && w' == w.(spec := spec)
  }

  ghost predicate Run(ws: seq<World>, es: seq<Event>) {
    |ws| == |es| + 1 && forall i :: 0 <= i < |es| ==> Step(ws[i], es[i], ws[i + 1])
  }

  /** Where a pod comes from. */
  ghost predicate Origin(calls: seq<Action>, m: PodMap, q: Pod) {
    || (q.name in m && Descends(m[q.name], q))
    || (exists a :: a in calls && a.Create? && Descends(a.pod, q))
  }

  ghost predicate KeyedPods(m: PodMap) {
    forall n :: n in m ==> m[n].name == n
  }

  lemma OneOrigin(a: Action, m: PodMap, m': PodMap)
    requires KeyedPods(m) && MayEffect(a, m, m')
    ensures KeyedPods(m') && forall n :: n in m' ==> Origin([a], m, m'[n])
  {
    forall n | n in m'
      ensures m'[n].name == n && Origin([a], m, m'[n])
    {
      assert a in [a];
    }
  }

  lemma {:induction false} PodsTraced(calls: seq<Action>, m: PodMap, m': PodMap)
    requires KeyedPods(m) && MayEffects(calls, m, m')
    ensures KeyedPods(m') && forall n :: n in m' ==> Origin(calls, m, m'[n])
    decreases |calls|
  {
    if calls != [] {
      var mid :| MayEffect(calls[0], m, mid) && MayEffects(calls[1..], mid, m');
      OneOrigin(calls[0], m, mid);
      PodsTraced(calls[1..], mid, m');
      forall n | n in m'
        ensures Origin(calls, m, m'[n])
      {
        OriginCompose(calls, m, mid, m'[n]);
      }
    }
  }

  lemma OriginCompose(calls: seq<Action>, m: PodMap, mid: PodMap, q: Pod)
    requires calls != [] && Origin(calls[1..], mid, q)
    requires forall n :: n in mid ==> Origin([calls[0]], m, mid[n])
    ensures Origin(calls, m, q)
  {
    if q.name in mid && Descends(mid[q.name], q) {
      assert Origin([calls[0]], m, mid[q.name]);
      if !(q.name in m && Descends(m[q.name], mid[q.name])) {
        var a :| a in [calls[0]] && a.Create? && Descends(a.pod, mid[q.name]);
        assert a == calls[0] && a in calls;
      }
    } else {
      var a :| a in calls[1..] && a.Create? && Descends(a.pod, q);
      assert a in calls;
    }
  }

  /** The pods after a sync come from before it or from its own creations. */
  lemma SyncOrigins(r: SyncRecord, m: PodMap, m': PodMap)
    requires KeyedPods(m) && PodsAfter(r, m, m')
    ensures KeyedPods(m') && forall n :: n in m' ==> Origin(r.calls, m, m'[n])
  {
    if MayEffects(r.calls, m, m') {
      PodsTraced(r.calls, m, m');
    } else {
      var calls := r.calls[..|r.calls| - 1];
      PodsTraced(calls, m, m');
      forall n | n in m'
        ensures Origin(r.calls, m, m'[n])
      {
        if !(m'[n].name in m && Descends(m[m'[n].name], m'[n])) {
          var a :| a in calls && a.Create? && Descends(a.pod, m'[n]);
          assert a in r.calls;
        }
      }
    }
  }

  /** A pod created by a sync is new, or was listed as not yet created; new pods are
      at one of the two revisions. */
  lemma CreationsLicensed(w: World, r: SyncRecord, a: Action)
    requires PodsRan(w.spec, w.status, r) && a in r.calls
    ensures Licensed(SyncGoal(w.spec, w.status, r), r.listing, a)
    ensures r.stage.PodsOnly? || r.stage.Finished?
  {
    var g := SyncGoal(w.spec, w.status, r);
    assert a in SyncPlan(g, r.listing, r.condemned).actions;
    CallsLicensed(g, r.listing, r.condemned, a);
  }

  // ------------------------------------------------- history never strands a pod

  ghost predicate Coherent(w: World) {
    && KeyedPods(w.pods) && Keyed(w.store)
    && forall n :: n in w.pods ==> w.pods[n].revision in w.store
  }

  ghost predicate Anchored(w: World) {
    w.status.currentRevision in w.store
  }

  /** A sync resolves the stored current revision, or starts from the update one. */
  lemma CurrentResolved(w: World, r: SyncRecord)
    requires Listing(r.revisions, w.store)
    ensures var update, current := UpdateOf(w.spec, r), CurrentOf(w.spec, w.status, r);
            if w.status.currentRevision in w.store
            then current.name == w.status.currentRevision else current == update
  {
    if w.status.currentRevision in w.store {
      assert w.store[w.status.currentRevision] in r.revisions;
    }
  }

  /** The names a sync keeps: its two revisions and those of the listed pods. */
  function KeptNames(w: World, r: SyncRecord): set<string> {
    LiveNames(r.listing, CurrentOf(w.spec, w.status, r).name, UpdateOf(w.spec, r).name)
  }

  lemma DoomedNotKept(w: World, r: SyncRecord, deleted: nat)
    ensures DoomedNames(w.spec, w.status, r, deleted) !! KeptNames(w, r)
  {
    var doomed := Doomed(r.revisions, KeptNames(w, r), w.spec.historyLimit);
    forall n | n in DoomedNames(w.spec, w.status, r, deleted)
      ensures n !in KeptNames(w, r)
    {
      var d :| d in doomed && d.name == n;
    }
  }

  /** What a sync does to the stored revisions: its update revision is recorded, and
      neither that, nor its current revision, nor a listed pod's is deleted. */
  lemma StoreAfterSync(w: World, r: SyncRecord, w': World)
    requires StoreRan(w.spec, w.status, w.store, r, w'.store)
    ensures Keyed(w'.store)
    ensures var update := UpdateOf(w.spec, r);
            && (!r.stage.NoHistory? ==> update.name in w'.store && w'.store[update.name] == update)
            && (forall n :: n in w'.store && n != update.name ==> n in w.store && w'.store[n] == w.store[n])
            && (forall n :: n in w.store && n in KeptNames(w, r)
                            ==> n in w'.store && w'.store[n].data == w.store[n].data)
  {
    hide UpdateRevision, EqualRevisions, CurrentRevision, Doomed;
    var update := UpdateOf(w.spec, r);
    RecordedData(r.revisions, w.store, w.spec.template, r.newName);
    StoreKept(w, r, w');
    if r.stage.Finished? {
      assert update.name in KeptNames(w, r);
    }
  }

  /** A sync leaves the store alone, records its update revision, or then deletes
      revisions it need not keep. */
  lemma StoreKept(w: World, r: SyncRecord, w': World)
    requires StoreRan(w.spec, w.status, w.store, r, w'.store)
    ensures var recorded := Record(w.store, UpdateOf(w.spec, r));
            && (r.stage.NoHistory? ==> w'.store == w.store)
            && (!r.stage.NoHistory? && !r.stage.Finished? ==> w'.store == recorded)
            && (r.stage.Finished? ==> exists gone :: gone !! KeptNames(w, r) && w'.store == recorded - gone)
  {
    if r.stage.Finished? {
      DoomedNotKept(w, r, r.stage.deleted);
    }
  }

  lemma RecordedData(revisions: seq<Revision>, store: Store, data: string, newName: string)
    requires Listing(revisions, store) && newName !in store
    ensures var update := UpdateRevision(revisions, data, newName);
            && Keyed(Record(store, update))
            && (update.name in store ==> store[update.name].data == data)
            && (update.name !in store ==> update.name == newName)
  {
    var equal := EqualRevisions(revisions, data);
    if equal != [] {
      assert equal[|equal| - 1] in equal;
      assert revisions[|revisions| - 1] in revisions;
    }
  }

  /** Every step keeps the revision of every pod in the store. */
  lemma CoherentStep(w: World, e: Event, w': World)
    requires Coherent(w) && Step(w, e, w')
    ensures Coherent(w')
  {
    if e.Sync? {
      var r := e.r;
      StoreAfterSync(w, r, w');
      SyncOrigins(r, w.pods, w'.pods);
      forall n | n in w'.pods
        ensures w'.pods[n].revision in w'.store
      {
        var q := w'.pods[n];
        if q.name in w.pods && Descends(w.pods[q.name], q) {
          assert w.pods[q.name] in r.listing;
          assert q.revision in KeptNames(w, r);
        } else {
          var a :| a in r.calls && a.Create? && Descends(a.pod, q);
          CreationsLicensed(w, r, a);
          NewPodStored(w, r, w', a.pod);
        }
      }
    }
  }

  lemma NewPodStored(w: World, r: SyncRecord, w': World, p: Pod)
    requires Coherent(w) && Step(w, Sync(r), w') && (r.stage.PodsOnly? || r.stage.Finished?)
    requires p in r.listing || p == SyncGoal(w.spec, w.status, r).NewPod(p.ordinal)
    ensures p.revision in w'.store
  {
    StoreAfterSync(w, r, w');
    CurrentResolved(w, r);
    assert p.revision in KeptNames(w, r);
  }

  /** Once the current revision is stored it stays stored. */
  lemma AnchoredStep(w: World, e: Event, w': World)
    requires Anchored(w) && Step(w, e, w')
    ensures Anchored(w')
  {
    if e.Sync? {
      StoreAfterSync(w, e.r, w');
      CurrentResolved(w, e.r);
      assert CurrentOf(w.spec, w.status, e.r).name in KeptNames(w, e.r);
      if e.r.stage.Finished? {
        StatusRevisions(w, e.r, w');
      }
    }
  }

  /** The revisions named by the status a finished sync leaves. */
  lemma StatusRevisions(w: World, r: SyncRecord, w': World)
    requires Step(w, Sync(r), w') && r.stage.Finished?
    ensures w'.status.updateRevision == UpdateOf(w.spec, r).name
    ensures w'.status.currentRevision == CurrentOf(w.spec, w.status, r).name
            || w'.status.currentRevision == UpdateOf(w.spec, r).name
  {
    var g := SyncGoal(w.spec, w.status, r);
    SettleNames(g, Observe(g, r.listing), r.calls);
  }

  lemma {:induction false} SettleNames(g: Goal, s: Status, calls: seq<Action>)
    ensures Settle(g, s, calls).currentRevision == s.currentRevision
    ensures Settle(g, s, calls).updateRevision == s.updateRevision
  {
    if calls != [] {
      SettleNames(g, s, calls[..|calls| - 1]);
    }
  }

  /** History never strands a pod: in every state of every run each pod's revision is
      stored, and once the status names a stored current revision it always does. */
  lemma {:induction false} HistoryNeverStrands(ws: seq<World>, es: seq<Event>, i: nat)
    requires Run(ws, es) && i < |ws| && Coherent(ws[0])
    ensures Coherent(ws[i])
    ensures forall j :: 0 <= j <= i && Anchored(ws[j]) ==> Anchored(ws[i])
  {
    if i > 0 {
      HistoryNeverStrands(ws, es, i - 1);
      CoherentStep(ws[i - 1], es[i - 1], ws[i]);
      if Anchored(ws[i - 1]) {
        AnchoredStep(ws[i - 1], es[i - 1], ws[i]);
      }
    }
  }

  // --------------------------------------------------------- revision bookkeeping

  /** After a finished sync the status names a stored update revision that records the
      template and has the greatest number. */
  ghost predicate UpToDate(w: World) {
    && w.status.updateRevision in w.store
    && w.store[w.status.updateRevision].data == w.spec.template
    && forall n :: n in w.store && n != w.status.updateRevision ==>
         w.store[n].number < w.store[w.status.updateRevision].number
  }

  lemma TidyStep(w: World, e: Event, w': World)
    requires Tidy(w.store) && Step(w, e, w')
    ensures Tidy(w'.store)
    ensures e.Sync? && e.r.stage.Finished? ==> UpToDate(w')
  {
    if e.Sync? {
      var r := e.r;
      UpdateKeepsTidy(r.revisions, w.store, w.spec.template, r.newName);
      StoreAfterSync(w, r, w');
      if r.stage.Finished? {
        StatusRevisions(w, r, w');
      }
    }
  }

  /** Any sequence of template edits, rollbacks and syncs keeps numbers and templates
      distinct, and every finished sync ends up to date. */
  lemma {:induction false} BookkeepingHolds(ws: seq<World>, es: seq<Event>, i: nat)
    requires Run(ws, es) && i < |ws| && Tidy(ws[0].store)
    ensures Tidy(ws[i].store)
    ensures i > 0 && es[i - 1].Sync? && es[i - 1].r.stage.Finished? ==> UpToDate(ws[i])
  {
    if i > 0 {
      BookkeepingHolds(ws, es, i - 1);
      TidyStep(ws[i - 1], es[i - 1], ws[i]);
    }
  }
}
