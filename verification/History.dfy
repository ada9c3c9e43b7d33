/** The revision history of a set: resolving the current and the update revision at
    the start of a sync, and truncating the history at its end. */
module History {
  import opened Pods
  import Slots

  /** A ControllerRevision. `data` is the recorded template. */
  datatype Revision = Revision(name: string, number: int, data: string)

  /** The revisions of the set in the API server, by name. */
  type Store = map<string, Revision>

  ghost predicate Keyed(store: Store) {
    forall n :: n in store ==> store[n].name == n
  }

  ghost predicate Sorted(revisions: seq<Revision>) {
    forall i, j :: 0 <= i < j < |revisions| ==> revisions[i].number <= revisions[j].number
  }

  ghost predicate NoDuplicates(revisions: seq<Revision>) {
    forall i, j :: 0 <= i < j < |revisions| ==> revisions[i].name != revisions[j].name
  }

  /** A complete listing in the order of the revision numbers. It may list a revision
      more than once. */
  ghost predicate Listing(revisions: seq<Revision>, store: Store) {
    && Keyed(store) && Sorted(revisions)
    && (forall r :: r in revisions ==> r.name in store && store[r.name] == r)
    && (forall n :: n in store ==> store[n] in revisions)
  }

  // ------------------------------------------------------------- specification

  /** nextRevision */
  function NextNumber(revisions: seq<Revision>): int {
    if revisions == [] then 1 else revisions[|revisions| - 1].number + 1
  }

  /** FindEqualRevisions */
  function EqualRevisions(revisions: seq<Revision>, data: string): (equal: seq<Revision>)
    ensures forall r :: r in equal <==> r in revisions && r.data == data
  {
    if revisions == [] then []
    else
      EqualRevisions(revisions[..|revisions| - 1], data)
      + if revisions[|revisions| - 1].data == data then [revisions[|revisions| - 1]] else []
  }

  /** The update revision a sync settles on: the newest revision as it is, an older
      one that is renumbered, or a new one. */
  function UpdateRevision(revisions: seq<Revision>, data: string, newName: string): (update: Revision)
    ensures update.data == data
  {
    var equal := EqualRevisions(revisions, data);
    if equal == [] then Revision(newName, NextNumber(revisions), data)
    else
      var newest := equal[|equal| - 1];
      assert newest in equal;
      if revisions[|revisions| - 1].data == data then revisions[|revisions| - 1]
      else newest.(number := NextNumber(revisions))
  }

  /** The first listed revision with this name, or else the update revision. */
  function CurrentRevision(revisions: seq<Revision>, name: string, update: Revision): (current: Revision)
    ensures current == update || (current in revisions && current.name == name)
    ensures (exists r :: r in revisions && r.name == name) ==> current in revisions && current.name == name
  {
    if revisions == [] then update
    else if revisions[0].name == name then revisions[0]
    else CurrentRevision(revisions[1..], name, update)
  }

  /** The newest revision records the data, so that nothing is to be written. */
  predicate Recorded(revisions: seq<Revision>, data: string) {
    revisions != [] && revisions[|revisions| - 1].data == data
  }

  function Record(store: Store, update: Revision): Store {
    store[update.name := update]
  }

  /** The live names of a sync: its two revisions and those of the listed pods. */
  function LiveNames(pods: seq<Pod>, current: string, update: string): set<string> {
    {current, update} + set p | p in pods :: p.revision
  }

  /** The listed revisions that are not live, in order. */
  function NonLive(revisions: seq<Revision>, live: set<string>): (out: seq<Revision>)
    ensures |out| <= |revisions|
    ensures forall r :: r in out <==> r in revisions && r.name !in live
  {
    if revisions == [] then []
    else
      NonLive(revisions[..|revisions| - 1], live)
      + if revisions[|revisions| - 1].name in live then [] else [revisions[|revisions| - 1]]
  }

  /** The revisions to delete: all but the last `limit` non-live ones. */
  function Doomed(revisions: seq<Revision>, live: set<string>, limit: nat): (out: seq<Revision>)
    ensures forall r :: r in out ==> r in revisions && r.name !in live
  {
    var history := NonLive(revisions, live);
    if |history| <= limit then [] else history[..|history| - limit]
  }

  function RevisionNames(revisions: seq<Revision>): set<string> {
    set r | r in revisions :: r.name
  }

  // ------------------------------------------------------------------- the code

  /** The API server's revision endpoint. The calls numbered in `faults` fail. */
  class HistoryClient {
    const faults: set<nat>
    var store: Store
    var calls: nat

    constructor (store: Store, faults: set<nat>)
      ensures this.store == store && this.faults == faults && calls == 0
    {
      this.store, this.faults, calls := store, faults, 0;
    }

    /** Create or renumber a revision. */
    method Write(revision: Revision) returns (ok: bool)
      modifies this
      ensures ok == (old(calls) !in faults) && calls == old(calls) + 1
      ensures store == if ok then Record(old(store), revision) else old(store)
    {
      ok := calls !in faults;
      calls := calls + 1;
      if ok {
        store := store[revision.name := revision];
      }
    }

    /** Delete a revision; a missing one is not found. */
    method Delete(name: string) returns (ok: bool)
      modifies this
      ensures ok == (old(calls) !in faults && name in old(store)) && calls == old(calls) + 1
      ensures store == if ok then old(store) - {name} else old(store)
    {
      ok := calls !in faults && name in store;
      calls := calls + 1;
      if ok {
        store := store - {name};
      }
    }
  }

  method FindEqualRevisions(revisions: seq<Revision>, data: string) returns (equal: seq<Revision>)
    ensures equal == EqualRevisions(revisions, data)
  {
    equal := [];
    for i := 0 to |revisions|
      invariant equal == EqualRevisions(revisions[..i], data)
    {
      assert revisions[..i + 1][..i] == revisions[..i];
      if revisions[i].data == data {
        equal := equal + [revisions[i]];
      }
    }
    assert revisions[..|revisions|] == revisions;
  }

  method RecordUpdate(data: string, revisions: seq<Revision>, newName: string, history: HistoryClient)
    returns (ok: bool, update: Revision)
    requires Listing(revisions, history.store)
    modifies history
    ensures update == UpdateRevision(revisions, data, newName)
    ensures history.store == if ok then Record(old(history.store), update) else old(history.store)
    ensures ok <==> Recorded(revisions, data) || old(history.calls) !in history.faults
    ensures history.calls == old(history.calls) + if Recorded(revisions, data) then 0 else 1
  {
    var revisionCount := |revisions|;
    update := Revision(newName, NextNumber(revisions), data);
    var equalRevisions := FindEqualRevisions(revisions, data);
    var equalCount := |equalRevisions|;
    assert equalCount > 0 ==> equalRevisions[equalCount - 1] in equalRevisions;
    assert Recorded(revisions, data) ==> revisions[revisionCount - 1] in equalRevisions;
    if equalCount > 0 && revisions[revisionCount - 1].data == equalRevisions[equalCount - 1].data {
      update := revisions[revisionCount - 1];
      assert update in revisions;
      assert Record(history.store, update) == history.store;
      ok := true;
    } else if equalCount > 0 {
      update := equalRevisions[equalCount - 1].(number := update.number);
      ok := history.Write(update);
    } else {
      ok := history.Write(update);
    }
  }

  method FindCurrent(statusCurrent: string, revisions: seq<Revision>, update: Revision)
    returns (current: Revision)
    ensures current == CurrentRevision(revisions, statusCurrent, update)
  {
    assert revisions[0..] == revisions;
    for i := 0 to |revisions|
      invariant CurrentRevision(revisions, statusCurrent, update)
                == CurrentRevision(revisions[i..], statusCurrent, update)
    {
      if revisions[i].name == statusCurrent {
        return revisions[i];
      }
      assert revisions[i..][1..] == revisions[i + 1..];
    }
    current := update;
  }

  /** getStatefulSetRevisions. `newName` is the free name that the hash of the
      template yields once name collisions are resolved. */
  method GetStatefulSetRevisions(data: string, statusCurrent: string, revisions: seq<Revision>,
                                 newName: string, history: HistoryClient)
    returns (ok: bool, current: Revision, update: Revision)
    requires Listing(revisions, history.store) && newName !in history.store
    modifies history
    ensures update == UpdateRevision(revisions, data, newName)
    ensures current == CurrentRevision(revisions, statusCurrent, update)
    ensures history.store == if ok then Record(old(history.store), update) else old(history.store)
    ensures ok <==> Recorded(revisions, data) || old(history.calls) !in history.faults
    ensures history.calls == old(history.calls) + if Recorded(revisions, data) then 0 else 1
  {
    ok, update := RecordUpdate(data, revisions, newName, history);
    current := FindCurrent(statusCurrent, revisions, update);
  }

  method CollectLive(pods: seq<Pod>, current: string, update: string) returns (live: set<string>)
    ensures live == LiveNames(pods, current, update)
  {
    live := {current, update};
    for i := 0 to |pods|
      invariant live == LiveNames(pods[..i], current, update)
    {
      assert pods[..i + 1] == pods[..i] + [pods[i]];
      live := live + {pods[i].revision};
    }
    assert pods[..|pods|] == pods;
  }

  method CollectHistory(revisions: seq<Revision>, live: set<string>) returns (nonLive: seq<Revision>)
    ensures nonLive == NonLive(revisions, live)
  {
    nonLive := [];
    for i := 0 to |revisions|
      invariant nonLive == NonLive(revisions[..i], live)
    {
      assert revisions[..i + 1][..i] == revisions[..i];
      if revisions[i].name !in live {
        nonLive := nonLive + [revisions[i]];
      }
    }
    assert revisions[..|revisions|] == revisions;
  }

  /** None of the `n` calls from this one on fails. */
  ghost predicate NoFaults(faults: set<nat>, from: nat, n: nat) {
    forall k: nat :: from <= k < from + n ==> k !in faults
  }

  /** Delete revisions in order. One that comes again is not found. */
  method DeleteAll(doomed: seq<Revision>, history: HistoryClient) returns (ok: bool, ghost deleted: nat)
    modifies history
    ensures deleted <= |doomed| && (ok <==> deleted == |doomed|)
    ensures history.store == old(history.store) - RevisionNames(doomed[..deleted])
    ensures ok ==> NoDuplicates(doomed)
    ensures NoFaults(history.faults, old(history.calls), deleted)
    ensures !ok ==> old(history.calls) + deleted in history.faults
                    || doomed[deleted].name !in old(history.store) - RevisionNames(doomed[..deleted])
    ensures RevisionNames(doomed) <= old(history.store).Keys
            ==> (ok <==> NoDuplicates(doomed) && NoFaults(history.faults, old(history.calls), |doomed|))
  {
    deleted := 0;
    assert RevisionNames([]) == {};
    for i := 0 to |doomed|
      invariant deleted == i && history.calls == old(history.calls) + i
      invariant NoFaults(history.faults, old(history.calls), i)
      invariant history.store == old(history.store) - RevisionNames(doomed[..i])
      invariant NoDuplicates(doomed[..i])
    {
      assert doomed[..i + 1] == doomed[..i] + [doomed[i]];
      assert RevisionNames(doomed[..i + 1]) == RevisionNames(doomed[..i]) + {doomed[i].name};
      OneMoreDistinct(doomed, i);
      ok := history.Delete(doomed[i].name);
      if !ok {
        return;
      }
      deleted := i + 1;
    }
    assert doomed[..|doomed|] == doomed;
    ok := true;
  }

  lemma OneMoreDistinct(list: seq<Revision>, i: nat)
    requires i < |list| && NoDuplicates(list[..i])
    ensures NoDuplicates(list[..i + 1]) <==> list[i].name !in RevisionNames(list[..i])
    ensures NoDuplicates(list) ==> NoDuplicates(list[..i + 1])
    ensures list[i].name in RevisionNames(list)
  {
    assert list[i] in list;
    forall k | 0 <= k < i
      ensures list[k].name in RevisionNames(list[..i])
    {
      assert list[..i][k] in list[..i];
    }
    if list[i].name in RevisionNames(list[..i]) {
      var r :| r in list[..i] && r.name == list[i].name;
      var k :| 0 <= k < i && list[..i][k] == r;
      assert list[..i + 1][k].name == list[..i + 1][i].name;
    }
  }

  lemma NoNames()
    ensures RevisionNames([]) == {}
  {
  }

  lemma NoDuplicatesInNone()
    ensures NoDuplicates([])
  {
  }

  /** truncateHistory. The limit is non-negative by the schema of the resource. Without
      API failures it succeeds exactly when no revision is to be deleted twice. */
  method TruncateHistory(pods: seq<Pod>, revisions: seq<Revision>, current: string, update: string,
                         limit: nat, history: HistoryClient)
    returns (ok: bool, ghost deleted: nat)
    modifies history
    ensures var doomed := Doomed(revisions, LiveNames(pods, current, update), limit);
            && deleted <= |doomed|
            && history.store == old(history.store) - RevisionNames(doomed[..deleted])
            && (ok <==> deleted == |doomed|)
            && (ok ==> NoDuplicates(doomed))
            && NoFaults(history.faults, old(history.calls), deleted)
            && (!ok ==> old(history.calls) + deleted in history.faults
                        || doomed[deleted].name !in old(history.store) - RevisionNames(doomed[..deleted]))
            && (RevisionNames(doomed) <= old(history.store).Keys
                ==> (ok <==> NoDuplicates(doomed) && NoFaults(history.faults, old(history.calls), |doomed|)))
  {
    hide NonLive, LiveNames, NoDuplicates, RevisionNames;
    var live := CollectLive(pods, current, update);
    var nonLive := CollectHistory(revisions, live);
    if |nonLive| <= limit {
      NoNames();
      NoDuplicatesInNone();
      return true, 0;
    }
    nonLive := nonLive[..|nonLive| - limit];
    ok, deleted := DeleteAll(nonLive, history);
  }

  // ------------------------------------------------------------------ theorems

  /** No two revisions share a number or a template. */
  ghost predicate Tidy(store: Store) {
    forall m, n :: m in store && n in store && m != n ==>
      store[m].number != store[n].number && store[m].data != store[n].data
  }

  /** The next number is one more than the greatest, or 1 without revisions. */
  lemma NextNumberIs(revisions: seq<Revision>)
    requires Sorted(revisions)
    ensures revisions == [] ==> NextNumber(revisions) == 1
    ensures revisions != [] ==> exists r :: r in revisions && NextNumber(revisions) == r.number + 1
                                            && forall x :: x in revisions ==> x.number <= r.number
  {
    if revisions != [] {
      var r := revisions[|revisions| - 1];
      assert r in revisions;
    }
  }

  lemma ListedBelow(revisions: seq<Revision>, store: Store, n: string)
    requires Listing(revisions, store) && n in store
    ensures store[n].number < NextNumber(revisions)
  {
    assert store[n] in revisions;
  }

  /** The equal revisions come in listing order, each as often as it is listed. */
  lemma {:induction false} EqualConcat(a: seq<Revision>, b: seq<Revision>, data: string)
    ensures EqualRevisions(a + b, data) == EqualRevisions(a, data) + EqualRevisions(b, data)
  {
    if b == [] {
      assert a + b == a;
    } else {
      assert (a + b)[..|a + b| - 1] == a + b[..|b| - 1];
      EqualConcat(a, b[..|b| - 1], data);
    }
  }

  /** The update revision: a new one with the next number if no listed revision has the
      data, the newest if that has it, and else the last that has it, renumbered. */
  lemma UpdateRevisionIs(older: seq<Revision>, r: Revision, newer: seq<Revision>, data: string, newName: string)
    requires forall x :: x in newer ==> x.data != data
    ensures var revisions := older + [r] + newer;
            && (r.data == data ==> UpdateRevision(revisions, data, newName)
                                   == if newer == [] then r else r.(number := NextNumber(revisions)))
            && (r.data != data && (forall x :: x in older ==> x.data != data)
                ==> UpdateRevision(revisions, data, newName) == Revision(newName, NextNumber(revisions), data))
  {
    var revisions := older + [r] + newer;
    NoneEqual(newer, data);
    EqualConcat(older + [r], newer, data);
    EqualConcat(older, [r], data);
    assert [r][..0] == [];
    if r.data == data {
      var equal := EqualRevisions(revisions, data);
      assert equal == EqualRevisions(older, data) + [r];
      assert newer != [] ==> revisions[|revisions| - 1] in newer;
    } else if forall x :: x in older ==> x.data != data {
      NoneEqual(older, data);
      NoneEqual([r], data);
    }
  }

  lemma {:induction false} NoneEqual(revisions: seq<Revision>, data: string)
    requires forall x :: x in revisions ==> x.data != data
    ensures EqualRevisions(revisions, data) == []
  {
    if revisions != [] {
      NoneEqual(revisions[..|revisions| - 1], data);
    }
  }

  /** Template edits and rollbacks keep the store tidy, and the update revision
      records the template and carries the greatest number. */
  lemma UpdateKeepsTidy(revisions: seq<Revision>, store: Store, data: string, newName: string)
    requires Listing(revisions, store) && Tidy(store) && newName !in store
    ensures var update := UpdateRevision(revisions, data, newName);
            var after := Record(store, update);
            && Keyed(after) && Tidy(after)
            && update.data == data && after[update.name] == update
            && (forall n :: n in after && n != update.name ==> after[n].number < update.number)
            && (forall n :: n in store ==> n in after && after[n].data == store[n].data)
  {
    var update := UpdateRevision(revisions, data, newName);
    var after := Record(store, update);
    var equal := EqualRevisions(revisions, data);
    assert equal != [] ==> equal[|equal| - 1] in equal;
    assert revisions != [] ==> revisions[|revisions| - 1] in revisions;
    forall n | n in store
      ensures store[n].number < NextNumber(revisions) && store[n] in revisions
    {
      ListedBelow(revisions, store, n);
    }
    if equal == [] {
      assert forall n :: n in store ==> store[n] !in equal;
    }
  }

  /** A revision that is already recorded is found again, not created twice. */
  lemma RevisionReused(revisions: seq<Revision>, store: Store, data: string, newName: string)
    requires Listing(revisions, store) && newName !in store
    ensures UpdateRevision(revisions, data, newName).name in store
            <==> exists n :: n in store && store[n].data == data
  {
    var equal := EqualRevisions(revisions, data);
    if equal == [] {
      forall n | n in store
        ensures store[n].data != data
      {
        assert store[n] in revisions && store[n] !in equal;
      }
    } else {
      assert equal[|equal| - 1] in equal;
      assert revisions[|revisions| - 1] in revisions;
      var r := equal[|equal| - 1];
      assert r.name in store && store[r.name].data == data;
    }
  }

  /** The non-live revisions keep their order and multiplicity. */
  lemma {:induction false} NonLiveConcat(a: seq<Revision>, b: seq<Revision>, live: set<string>)
    ensures NonLive(a + b, live) == NonLive(a, live) + NonLive(b, live)
  {
    if b == [] {
      assert a + b == a;
    } else {
      assert (a + b)[..|a + b| - 1] == a + b[..|b| - 1];
      NonLiveConcat(a, b[..|b| - 1], live);
    }
  }

  lemma {:induction false} NonLiveSorted(revisions: seq<Revision>, live: set<string>)
    requires Sorted(revisions)
    ensures Sorted(NonLive(revisions, live))
  {
    if revisions != [] {
      var front, last := revisions[..|revisions| - 1], revisions[|revisions| - 1];
      NonLiveSorted(front, live);
      var out := NonLive(front, live);
      forall i | 0 <= i < |out|
        ensures out[i].number <= last.number
      {
        assert out[i] in front;
        var j :| 0 <= j < |front| && front[j] == out[i];
        assert revisions[j].number <= last.number;
      }
    }
  }

  lemma {:induction false} NonLiveDistinct(revisions: seq<Revision>, live: set<string>)
    requires NoDuplicates(revisions)
    ensures NoDuplicates(NonLive(revisions, live))
  {
    if revisions != [] {
      var front, last := revisions[..|revisions| - 1], revisions[|revisions| - 1];
      NonLiveDistinct(front, live);
      var out := NonLive(front, live);
      forall i | 0 <= i < |out|
        ensures out[i].name != last.name
      {
        assert out[i] in front;
        var j :| 0 <= j < |front| && front[j] == out[i];
        assert revisions[j].name != last.name;
      }
    }
  }

  lemma NamesConcat(a: seq<Revision>, b: seq<Revision>)
    ensures RevisionNames(a + b) == RevisionNames(a) + RevisionNames(b)
  {
    assert forall r :: r in a + b <==> r in a || r in b;
  }

  lemma Complement(all: set<string>, a: set<string>, b: set<string>)
    requires all == a + b && a !! b
    ensures all - a == b
  {
  }

  lemma CutApart(list: seq<Revision>, n: nat)
    requires NoDuplicates(list) && n <= |list|
    ensures NoDuplicates(list[..n]) && NoDuplicates(list[n..])
    ensures RevisionNames(list[..n]) !! RevisionNames(list[n..])
  {
    var head, rest := list[..n], list[n..];
    assert forall i :: 0 <= i < |rest| ==> rest[i] == list[n + i];
    forall s | s in RevisionNames(head)
      ensures s !in RevisionNames(rest)
    {
      var i :| 0 <= i < |head| && head[i].name == s;
      assert forall j :: 0 <= j < |rest| ==> rest[j].name != list[i].name;
    }
  }

  /** Cutting the list at `n` separates the names, and the rest has no duplicates. */
  ghost predicate CleanCut(list: seq<Revision>, n: nat)
    requires n <= |list|
  {
    NoDuplicates(list[n..]) && RevisionNames(list[..n]) !! RevisionNames(list[n..])
  }

  /** How many names outlive the first `n` revisions of a list: no more than revisions are
      left, and as many exactly if the cut is clean. */
  lemma CutNames(list: seq<Revision>, n: nat)
    requires n <= |list|
    ensures var kept := RevisionNames(list) - RevisionNames(list[..n]);
            |kept| <= |list| - n && (|kept| == |list| - n <==> CleanCut(list, n))
  {
    var head, rest := list[..n], list[n..];
    var kept := RevisionNames(list) - RevisionNames(head);
    NamesConcat(head, rest);
    assert list == head + rest;
    assert kept == RevisionNames(rest) - RevisionNames(head);
    NamesAtMost(rest);
    Slots.SubsetSize(kept, RevisionNames(rest));
    if |kept| == |rest| {
      NamesDistinct(rest);
      assert kept == RevisionNames(rest);
    } else if CleanCut(list, n) {
      NamesSize(rest);
      Complement(RevisionNames(list), RevisionNames(head), RevisionNames(rest));
    }
  }

  lemma {:induction false} NamesAtMost(revisions: seq<Revision>)
    ensures |RevisionNames(revisions)| <= |revisions|
  {
    if revisions != [] {
      var front, last := revisions[..|revisions| - 1], revisions[|revisions| - 1];
      assert revisions == front + [last];
      NamesAtMost(front);
      assert RevisionNames(revisions) == RevisionNames(front) + {last.name};
    }
  }

  /** As many names as revisions: no duplicates. */
  lemma {:induction false} NamesDistinct(revisions: seq<Revision>)
    requires |RevisionNames(revisions)| >= |revisions|
    ensures NoDuplicates(revisions)
  {
    if revisions != [] {
      var front, last := revisions[..|revisions| - 1], revisions[|revisions| - 1];
      assert revisions == front + [last];
      assert RevisionNames(revisions) == RevisionNames(front) + {last.name};
      NamesAtMost(front);
      NamesDistinct(front);
      assert last.name !in RevisionNames(front);
      forall i | 0 <= i < |front|
        ensures revisions[i].name != last.name
      {
        assert front[i] in front;
      }
    }
  }

  lemma CutOrder(list: seq<Revision>, n: nat, d: Revision, k: Revision)
    requires Sorted(list) && n <= |list|
    requires d in list[..n] && k in list && k !in list[..n]
    ensures d.number <= k.number
  {
    var i :| 0 <= i < n && list[i] == d;
    var j :| 0 <= j < |list| && list[j] == k;
    assert j < n ==> list[..n][j] == k;
  }

  /** Truncation of any sorted list deletes nothing live and keeps the newest. It keeps as
      many non-live revisions as the limit allows if and only if there are no more than
      that listed, or the cut is clean. */
  lemma TruncationExact(revisions: seq<Revision>, live: set<string>, limit: nat)
    requires Sorted(revisions)
    ensures var doomed := Doomed(revisions, live, limit);
            var nonLive := NonLive(revisions, live);
            var names := RevisionNames(nonLive);
            var kept := names - RevisionNames(doomed);
            && RevisionNames(doomed) !! live
            && |kept| <= (if |names| <= limit then |names| else limit)
            && (|kept| == (if |names| <= limit then |names| else limit)
                <==> |nonLive| <= limit || CleanCut(nonLive, |nonLive| - limit))
            && forall d, k :: d in doomed && k in nonLive && k.name in kept ==> d.number <= k.number
  {
    hide NonLive, Sorted, NoDuplicates, CleanCut, RevisionNames;
    var doomed := Doomed(revisions, live, limit);
    var nonLive := NonLive(revisions, live);
    var kept := RevisionNames(nonLive) - RevisionNames(doomed);
    NonLiveSorted(revisions, live);
    assert doomed == nonLive[..|doomed|];
    DoomedNotLive(revisions, live, limit);
    if |nonLive| <= limit {
      NoNames();
      NamesAtMost(nonLive);
    } else {
      CutNames(nonLive, |doomed|);
      SomethingGoes(nonLive, |doomed|);
    }
    KeepsNewest(nonLive, |doomed|);
  }

  lemma DoomedNotLive(revisions: seq<Revision>, live: set<string>, limit: nat)
    ensures RevisionNames(Doomed(revisions, live, limit)) !! live
  {
  }

  /** Cutting a sorted list keeps the newest. */
  lemma KeepsNewest(list: seq<Revision>, n: nat)
    requires Sorted(list) && n <= |list|
    ensures forall d, k :: d in list[..n] && k in list && k.name in RevisionNames(list) - RevisionNames(list[..n])
                           ==> d.number <= k.number
  {
    forall d, k | d in list[..n] && k in list && k.name in RevisionNames(list) - RevisionNames(list[..n])
      ensures d.number <= k.number
    {
      CutOrder(list, n, d, k);
    }
  }

  /** Deleting at least one revision leaves fewer names. */
  lemma SomethingGoes(list: seq<Revision>, n: nat)
    requires 0 < n <= |list|
    ensures |RevisionNames(list) - RevisionNames(list[..n])| < |RevisionNames(list)|
  {
    var gone := list[0].name;
    assert list[0] in list && list[..n][0] in list[..n];
    var kept := RevisionNames(list) - RevisionNames(list[..n]);
    Slots.SubsetSize(kept, RevisionNames(list) - {gone});
  }

  /** On a list without duplicates every cut is clean, and no revision goes twice. */
  lemma DistinctCutsCleanly(revisions: seq<Revision>, live: set<string>, limit: nat)
    requires NoDuplicates(revisions)
    ensures var nonLive := NonLive(revisions, live);
            |nonLive| <= limit || CleanCut(nonLive, |nonLive| - limit)
    ensures NoDuplicates(Doomed(revisions, live, limit))
  {
    hide NonLive, NoDuplicates;
    var nonLive := NonLive(revisions, live);
    NonLiveDistinct(revisions, live);
    if |nonLive| > limit {
      CutApart(nonLive, |nonLive| - limit);
    } else {
      CutApart(nonLive, 0);
    }
  }

  lemma {:induction false} NamesSize(revisions: seq<Revision>)
    requires NoDuplicates(revisions)
    ensures |RevisionNames(revisions)| == |revisions|
  {
    if revisions != [] {
      var front, last := revisions[..|revisions| - 1], revisions[|revisions| - 1];
      assert revisions == front + [last];
      NamesSize(front);
      assert RevisionNames(revisions) == RevisionNames(front) + {last.name};
      assert last.name !in RevisionNames(front);
    }
  }

  /** With a revision listed twice, truncation can delete below the limit. */
  lemma DuplicatesOvertruncate()
    ensures var r := Revision("web-1", 1, "a");
            Sorted([r, r]) && RevisionNames(Doomed([r, r], {}, 1)) == RevisionNames([r, r])
  {
    var r := Revision("web-1", 1, "a");
    assert [r, r][..1] == [r] && [r][..0] == [];
    assert NonLive([r], {}) == [r];
    assert NonLive([r, r], {}) == [r, r];
    assert Doomed([r, r], {}, 1) == [r];
  }
}
