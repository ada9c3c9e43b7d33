/** The receiving half of an upgrade: before each sync the controller brings the marked
    revisions' labels up to date and takes ownership of orphans. */
module Adoption {
  import opened Pods
  import opened Upgrade
  import History

  /** The advanced set, as the controller sees it. `template` holds its pod labels. */
  datatype AdoptingSet = AdoptingSet(name: string, uid: string, selector: Selector, template: Labels)

  /** A listed revision as it was read. */
  datatype Entry = Entry(name: string, read: RevisionMeta)

  // ------------------------------------------------------------- specification

  function MarkSelector(name: string): Selector {
    Selector(map[UPGRADE_ANNOTATION := name], [])
  }

  predicate Claimable(revision: RevisionMeta, set_: AdoptingSet) {
    revision.owner.None? || revision.owner.value == set_.uid
  }

  function Claimables(objects: Objects, set_: AdoptingSet, selector: Selector): set<string> {
    set n | n in Matching(objects, selector) && Claimable(objects.revisions[n], set_)
  }

  /** The revisions that appear in either listing. */
  function Listed(objects: Objects, set_: AdoptingSet): set<string> {
    Claimables(objects, set_, set_.selector) + Claimables(objects, set_, MarkSelector(set_.name))
  }

  /** The revisions that appear in both. */
  function ListedTwice(objects: Objects, set_: AdoptingSet): set<string> {
    Claimables(objects, set_, set_.selector) * Claimables(objects, set_, MarkSelector(set_.name))
  }

  function Orphans(objects: Objects, set_: AdoptingSet): set<string> {
    set n | n in Listed(objects, set_) && objects.revisions[n].owner.None?
  }

  /** shouldSyncLabels, where the sync changes something. */
  predicate Stale(revision: RevisionMeta, set_: AdoptingSet) {
    UPGRADE_ANNOTATION in revision.labels && revision.labels + set_.template != revision.labels
  }

  function Refreshed(revision: RevisionMeta, set_: AdoptingSet): RevisionMeta {
    if UPGRADE_ANNOTATION in revision.labels then revision.(labels := revision.labels + set_.template) else revision
  }

  function Synced(objects: Objects, set_: AdoptingSet, names: set<string>): Objects {
    objects.(revisions := map n | n in objects.revisions ::
      if n in names then Refreshed(objects.revisions[n], set_) else objects.revisions[n])
  }

  function Adopted(objects: Objects, set_: AdoptingSet, names: set<string>): Objects {
    objects.(revisions := map n | n in objects.revisions ::
      if n in names then objects.revisions[n].(owner := Some(set_.uid)) else objects.revisions[n])
  }

  /** What a successful adoption leaves. */
  function Settled(objects: Objects, set_: AdoptingSet): Objects {
    if Orphans(objects, set_) == {} then objects
    else Adopted(Synced(objects, set_, Listed(objects, set_)), set_, Listed(objects, set_))
  }

  /** When an adoption without API failures succeeds: there is no orphan, or there is
      nothing but orphans and no stale revision is listed twice. */
  ghost predicate Adoptable(objects: Objects, set_: AdoptingSet) {
    || Orphans(objects, set_) == {}
    || (Orphans(objects, set_) == Listed(objects, set_)
        && forall n :: n in ListedTwice(objects, set_) ==> !Stale(objects.revisions[n], set_))
  }

  function NamesOf(entries: seq<Entry>): set<string> {
    set e | e in entries :: e.name
  }

  ghost predicate Current(entries: seq<Entry>, objects: Objects) {
    forall e :: e in entries ==> e.name in objects.revisions && objects.revisions[e.name] == e.read
  }

  ghost predicate Distinct(entries: seq<Entry>) {
    forall i, j :: 0 <= i < j < |entries| ==> entries[i].name != entries[j].name
  }

  /** The longest prefix of orphans. */
  function OrphanPrefix(entries: seq<Entry>): (k: nat)
    ensures k <= |entries|
    ensures forall i :: 0 <= i < k ==> entries[i].read.owner.None?
    ensures k < |entries| ==> entries[k].read.owner.Some?
  {
    if entries == [] || entries[0].read.owner.Some? then 0 else 1 + OrphanPrefix(entries[1..])
  }

  // ------------------------------------------------------------------- the code

  method ListControllerRevisions(api: KubeApi, set_: AdoptingSet, selector: Selector)
    returns (ok: bool, owned: seq<Entry>)
    modifies api`calls
    ensures ok == api.fate(old(api.calls)).Replies?
    ensures NamesOf(owned) == Claimables(api.objects, set_, selector)
    ensures Distinct(owned) && Current(owned, api.objects)
  {
    var names;
    ok, names := api.List(selector);
    owned := [];
    for i := 0 to |names|
      invariant Distinct(owned) && Current(owned, api.objects)
      invariant forall n :: n in NamesOf(owned) <==> n in names[..i] && n in Claimables(api.objects, set_, selector)
    {
      assert names[i] in names && names[i] !in names[..i];
      var revision := api.objects.revisions[names[i]];
      if Claimable(revision, set_) {
        assert NamesOf(owned + [Entry(names[i], revision)]) == NamesOf(owned) + {names[i]};
        assert forall e :: e in owned ==> e.name in NamesOf(owned);
        owned := owned + [Entry(names[i], revision)];
      }
    }
    assert names[..|names|] == names;
  }

  /** ListRevisions: what the selector reaches, then what bears the mark. */
  method ListRevisions(api: KubeApi, set_: AdoptingSet) returns (ok: bool, own: seq<Entry>, marked: seq<Entry>)
    modifies api`calls
    ensures set_.selector.Parses() && (forall i :: api.fate(i).Replies?) ==> ok
    ensures ok ==> set_.selector.Parses() && Listings(api.objects, set_, own, marked)
  {
    own, marked := [], [];
    if !set_.selector.Parses() {
      return false, own, marked;
    }
    ok, own := ListControllerRevisions(api, set_, set_.selector);
    if !ok {
      return;
    }
    ok, marked := ListControllerRevisions(api, set_, MarkSelector(set_.name));
  }

  ghost predicate Listings(objects: Objects, set_: AdoptingSet, own: seq<Entry>, marked: seq<Entry>) {
    && Distinct(own) && Distinct(marked) && Current(own, objects) && Current(marked, objects)
    && NamesOf(own) == Claimables(objects, set_, set_.selector)
    && NamesOf(marked) == Claimables(objects, set_, MarkSelector(set_.name))
  }

  /** Write a revision's labels; a conflict if it is no longer what was read. */
  method SyncLabels(api: KubeApi, set_: AdoptingSet, revision: Entry) returns (ok: bool, updated: Entry)
    requires revision.name in api.objects.revisions
    modifies api
    ensures var next := revision.read.(labels := revision.read.labels + set_.template);
            && (ok ==> old(api.objects).revisions[revision.name] == revision.read
                       && api.objects == old(api.objects).(revisions := old(api.objects).revisions[revision.name := next])
                       && updated == Entry(revision.name, next))
            && (api.objects == old(api.objects)
                || (old(api.objects).revisions[revision.name] == revision.read
                    && api.objects == old(api.objects).(revisions := old(api.objects).revisions[revision.name := next])))
    ensures old(api.objects).revisions[revision.name] == revision.read && (forall i :: api.fate(i).Replies?) ==> ok
  {
    var next := revision.read.(labels := revision.read.labels + set_.template);
    updated := Entry(revision.name, next);
    if api.objects.revisions[revision.name] != revision.read {
      return false, updated;
    }
    ok := api.Write(api.objects.(revisions := api.objects.revisions[revision.name := next]));
  }

  lemma SyncedNone(objects: Objects, set_: AdoptingSet)
    ensures Synced(objects, set_, {}) == objects
  {
    assert Synced(objects, set_, {}).revisions == objects.revisions;
  }

  lemma NoRepeatsYet(listed: seq<Entry>, set_: AdoptingSet)
    ensures NoStaleRepeats(listed[..0], set_)
  {
  }

  /** One more revision: it is as it was read unless it was stale and synced before. */
  lemma SyncedGrows(objects: Objects, set_: AdoptingSet, done: set<string>, revision: Entry)
    requires revision.name in objects.revisions && objects.revisions[revision.name] == revision.read
    ensures var synced := Synced(objects, set_, done);
            var next := Synced(objects, set_, done + {revision.name});
            && revision.name in synced.revisions
            && (synced.revisions[revision.name] == revision.read
                <==> !(revision.name in done && Stale(revision.read, set_)))
            && (UPGRADE_ANNOTATION !in revision.read.labels ==> next == synced && !Stale(revision.read, set_))
            && (UPGRADE_ANNOTATION in revision.read.labels
                ==> next == synced.(revisions := synced.revisions[revision.name :=
                      revision.read.(labels := revision.read.labels + set_.template)]))
  {
    var synced := Synced(objects, set_, done);
    var next := Synced(objects, set_, done + {revision.name});
    if UPGRADE_ANNOTATION in revision.read.labels {
      assert next.revisions == synced.revisions[revision.name := Refreshed(revision.read, set_)];
    } else {
      assert next.revisions == synced.revisions;
    }
  }

  /** The labels of the first `d` listed revisions are synced, none of which was stale when
      it came again. */
  ghost predicate SyncedUpTo(before: Objects, after: Objects, set_: AdoptingSet, listed: seq<Entry>, d: nat) {
    && d <= |listed| && NoStaleRepeats(listed[..d], set_)
    && after == Synced(before, set_, NamesOf(listed[..d]))
  }

  /** The label loop over the listed revisions. */
  method SyncAll(api: KubeApi, set_: AdoptingSet, listed: seq<Entry>) returns (ok: bool, revisions: seq<Entry>)
    requires Current(listed, api.objects)
    modifies api
    ensures exists d: nat :: SyncedUpTo(old(api.objects), api.objects, set_, listed, d)
    ensures ok ==> api.objects == Synced(old(api.objects), set_, NamesOf(listed))
    ensures ok ==> |revisions| == |listed|
                   && forall i :: 0 <= i < |listed| ==> revisions[i].name == listed[i].name
                                                        && revisions[i].read.owner == listed[i].read.owner
    ensures (forall i :: api.fate(i).Replies?) ==> (ok <==> NoStaleRepeats(listed, set_))
    ensures ok ==> NoStaleRepeats(listed, set_)
  {
    hide Synced, Refreshed, Stale, NoStaleRepeats, SyncedUpTo;
    ghost var before := api.objects;
    ghost var done: set<string> := {};
    revisions := listed;
    SyncedNone(before, set_);
    NoRepeatsYet(listed, set_);
    for i := 0 to |listed|
      invariant |revisions| == |listed|
      invariant forall k :: i <= k < |listed| ==> revisions[k] == listed[k]
      invariant forall k :: 0 <= k < |listed| ==> revisions[k].name == listed[k].name
                                                  && revisions[k].read.owner == listed[k].read.owner
      invariant done == NamesOf(listed[..i])
      invariant api.objects == Synced(before, set_, done)
      invariant NoStaleRepeats(listed[..i], set_)
    {
      var revision := revisions[i];
      assert revision in listed;
      assert listed[..i + 1] == listed[..i] + [revision];
      assert NamesOf(listed[..i + 1]) == done + {revision.name};
      RepeatsGrow(listed, i, before, set_);
      SyncedGrows(before, set_, done, revision);
      if UPGRADE_ANNOTATION in revision.read.labels {
        var updated;
        ok, updated := SyncLabels(api, set_, revision);
        if !ok {
          SyncInterrupted(before, api.objects, set_, listed, i);
          return;
        }
        revisions := revisions[i := updated];
      }
      done := done + {revision.name};
    }
    assert listed[..|listed|] == listed;
    SyncedWhole(before, api.objects, set_, listed);
    ok := true;
  }

  /** A loop stopped at revision `i`, whose write may have taken effect. */
  lemma SyncInterrupted(before: Objects, after: Objects, set_: AdoptingSet, listed: seq<Entry>, i: nat)
    requires i < |listed| && NoStaleRepeats(listed[..i], set_)
    requires || after == Synced(before, set_, NamesOf(listed[..i]))
             || (after == Synced(before, set_, NamesOf(listed[..i + 1])) && NoStaleRepeats(listed[..i + 1], set_))
    ensures exists d: nat :: SyncedUpTo(before, after, set_, listed, d)
  {
    hide Synced, NoStaleRepeats;
    assert SyncedUpTo(before, after, set_, listed, i) || SyncedUpTo(before, after, set_, listed, i + 1);
  }

  /** No stale revision is listed again. */
  ghost predicate NoStaleRepeats(listed: seq<Entry>, set_: AdoptingSet) {
    forall i, j :: 0 <= i < j < |listed| && listed[i].name == listed[j].name ==> !Stale(listed[j].read, set_)
  }

  lemma RepeatsGrow(listed: seq<Entry>, i: nat, objects: Objects, set_: AdoptingSet)
    requires i < |listed| && Current(listed, objects) && NoStaleRepeats(listed[..i], set_)
    ensures NoStaleRepeats(listed[..i + 1], set_)
            <==> !(listed[i].name in NamesOf(listed[..i]) && Stale(listed[i].read, set_))
    ensures NoStaleRepeats(listed, set_) ==> NoStaleRepeats(listed[..i + 1], set_)
  {
    if listed[i].name in NamesOf(listed[..i]) {
      var e :| e in listed[..i] && e.name == listed[i].name;
      var k :| 0 <= k < i && listed[..i][k] == e;
      assert listed[..i + 1][k].name == listed[..i + 1][i].name;
    } else {
      forall k | 0 <= k < i
        ensures listed[k].name != listed[i].name
      {
        assert listed[k] in listed[..i];
      }
    }
  }

  lemma AdoptedNone(objects: Objects, set_: AdoptingSet)
    ensures Adopted(objects, set_, {}) == objects
  {
    assert Adopted(objects, set_, {}).revisions == objects.revisions;
  }

  lemma AdoptedGrows(objects: Objects, set_: AdoptingSet, done: set<string>, n: string)
    requires n in objects.revisions
    ensures var adopted := Adopted(objects, set_, done);
            && n in adopted.revisions
            && Adopted(objects, set_, done + {n}) == adopted.(revisions :=
                 adopted.revisions[n := adopted.revisions[n].(owner := Some(set_.uid))])
  {
    var adopted := Adopted(objects, set_, done);
    assert Adopted(objects, set_, done + {n}).revisions
        == adopted.revisions[n := adopted.revisions[n].(owner := Some(set_.uid))];
  }

  /** AdoptOrphanRevisions: the orphans before the first owned revision are adopted, and
      an owned one stops the loop with an error. */
  method AdoptListed(api: KubeApi, set_: AdoptingSet, listed: seq<Entry>) returns (ok: bool)
    requires forall e :: e in listed ==> e.name in api.objects.revisions
    modifies api
    ensures exists k :: 0 <= k <= OrphanPrefix(listed)
                        && api.objects == Adopted(old(api.objects), set_, NamesOf(listed[..k]))
    ensures ok ==> OrphanPrefix(listed) == |listed| && api.objects == Adopted(old(api.objects), set_, NamesOf(listed))
    ensures (forall i :: api.fate(i).Replies?)
            ==> api.objects == Adopted(old(api.objects), set_, NamesOf(listed[..OrphanPrefix(listed)]))
                && (ok <==> OrphanPrefix(listed) == |listed|)
  {
    hide Adopted, OrphanPrefix;
    ghost var before := api.objects;
    assert NamesOf(listed[..0]) == {};
    AdoptedNone(before, set_);
    for i := 0 to |listed|
      invariant i <= OrphanPrefix(listed)
      invariant api.objects == Adopted(before, set_, NamesOf(listed[..i]))
    {
      var revision := listed[i];
      if revision.read.owner.Some? {
        return false;
      }
      assert revision in listed;
      assert listed[..i + 1] == listed[..i] + [revision];
      assert NamesOf(listed[..i + 1]) == NamesOf(listed[..i]) + {revision.name};
      AdoptedGrows(before, set_, NamesOf(listed[..i]), revision.name);
      var stored := api.objects.revisions[revision.name];
      var next := api.objects.(revisions := api.objects.revisions[revision.name := stored.(owner := Some(set_.uid))]);
      ok := api.Write(next);
      if !ok {
        return;
      }
    }
    assert listed[..|listed|] == listed;
    ok := true;
  }

  /** What a call leaves that has listed the revisions in this order, stopped or not: the
      labels of the first `d` are synced, and after that the first `k`, none of them owned,
      are adopted. */
  ghost predicate StoppedAt(before: Objects, after: Objects, set_: AdoptingSet, listed: seq<Entry>, d: nat, k: nat) {
    && d <= |listed| && NoStaleRepeats(listed[..d], set_)
    && k <= OrphanPrefix(listed) && (k > 0 ==> d == |listed| && Live(before, set_))
    && after == Adopted(Synced(before, set_, NamesOf(listed[..d])), set_, NamesOf(listed[..k]))
  }

  /** What a call of adoptOrphanRevisions may leave, in any order of the listings. */
  ghost predicate Progressed(before: Objects, after: Objects, set_: AdoptingSet) {
    exists own, marked, d: nat, k: nat ::
      && Listings(before, set_, own, marked) && (d > 0 ==> set_.selector.Parses())
      && StoppedAt(before, after, set_, own + marked, d, k)
  }

  lemma PrefixOrphans(listed: seq<Entry>, objects: Objects, set_: AdoptingSet, owners: seq<Entry>, k: nat)
    requires NamesOf(listed) == Listed(objects, set_) && Current(listed, objects)
    requires |owners| == |listed| && k <= OrphanPrefix(owners)
    requires forall i :: 0 <= i < |listed| ==> owners[i].name == listed[i].name
                                               && owners[i].read.owner == listed[i].read.owner
    ensures NamesOf(owners[..k]) <= Orphans(objects, set_)
    ensures NamesOf(owners) == NamesOf(listed)
    ensures OrphanPrefix(owners) == |owners| <==> Orphans(objects, set_) == Listed(objects, set_)
  {
    hide Listed, OrphanPrefix;
    forall i | 0 <= i < |listed|
      ensures listed[i].name in Listed(objects, set_)
      ensures owners[i].name in Orphans(objects, set_) <==> owners[i].read.owner.None?
      ensures listed[i].name in NamesOf(owners) && owners[i].name in NamesOf(listed)
    {
      assert listed[i] in listed && listed[i].name in NamesOf(listed);
      assert owners[i] in owners;
    }
    if OrphanPrefix(owners) < |owners| {
      var n := owners[OrphanPrefix(owners)].name;
      assert n in Listed(objects, set_) && n !in Orphans(objects, set_);
    }
  }

  /** Two listings in a row repeat the names they share. */
  lemma ConcatRepeats(own: seq<Entry>, marked: seq<Entry>, set_: AdoptingSet)
    requires Distinct(own) && Distinct(marked)
    ensures NoStaleRepeats(own + marked, set_)
            <==> forall j :: 0 <= j < |marked| && marked[j].name in NamesOf(own) ==> !Stale(marked[j].read, set_)
  {
    hide Stale;
    var all := own + marked;
    forall j | 0 <= j < |marked|
      ensures all[|own| + j] == marked[j]
      ensures marked[j].name in NamesOf(own) <==> exists i :: 0 <= i < |own| && all[i].name == all[|own| + j].name
    {
      if marked[j].name in NamesOf(own) {
        var e :| e in own && e.name == marked[j].name;
        var i :| 0 <= i < |own| && own[i] == e;
        assert all[i].name == all[|own| + j].name;
      }
      forall i | 0 <= i < |own| && all[i].name == all[|own| + j].name
        ensures marked[j].name in NamesOf(own)
      {
        assert own[i] in own;
      }
    }
    forall i, j | 0 <= i < j < |all| && all[i].name == all[j].name
      ensures i < |own| <= j && all[j] == marked[j - |own|]
    {
      SharedApart(own, marked, i, j);
    }
  }

  lemma SharedApart(own: seq<Entry>, marked: seq<Entry>, i: nat, j: nat)
    requires Distinct(own) && Distinct(marked)
    requires i < j < |own + marked| && (own + marked)[i].name == (own + marked)[j].name
    ensures i < |own| <= j
  {
  }

  /** What is listed, and what is listed twice. */
  lemma RepeatsAreListedTwice(objects: Objects, set_: AdoptingSet, own: seq<Entry>, marked: seq<Entry>)
    requires Listings(objects, set_, own, marked)
    ensures NamesOf(own + marked) == Listed(objects, set_) && Current(own + marked, objects)
    ensures NoStaleRepeats(own + marked, set_)
            <==> forall n :: n in ListedTwice(objects, set_) ==> !Stale(objects.revisions[n], set_)
  {
    hide Stale, NoStaleRepeats, Claimables;
    ConcatRepeats(own, marked, set_);
    assert NamesOf(own + marked) == NamesOf(own) + NamesOf(marked);
    forall j | 0 <= j < |marked|
      ensures objects.revisions[marked[j].name] == marked[j].read
      ensures marked[j].name in NamesOf(own) <==> marked[j].name in ListedTwice(objects, set_)
    {
      assert marked[j] in marked;
    }
    forall n | n in ListedTwice(objects, set_)
      ensures exists j :: 0 <= j < |marked| && marked[j].name == n
    {
      var e :| e in marked && e.name == n;
      var j :| 0 <= j < |marked| && marked[j] == e;
      assert marked[j].name == n;
    }
  }

  /** A listing of these revisions. */
  lemma AnyOrder(objects: Objects, names: set<string>) returns (listed: seq<Entry>)
    requires names <= objects.revisions.Keys
    ensures Distinct(listed) && Current(listed, objects) && NamesOf(listed) == names
    decreases |names|
  {
    listed := [];
    if names != {} {
      var n :| n in names;
      var rest := AnyOrder(objects, names - {n});
      listed := rest + [Entry(n, objects.revisions[n])];
      assert NamesOf(listed) == NamesOf(rest) + {n};
      forall i | 0 <= i < |rest|
        ensures rest[i].name != n
      {
        assert rest[i] in rest && rest[i].name in NamesOf(rest);
      }
    }
  }

  /** A listing of these revisions, the orphans first. */
  lemma OrphansFirst(objects: Objects, names: set<string>) returns (listed: seq<Entry>, k: nat)
    requires names <= objects.revisions.Keys
    ensures Distinct(listed) && Current(listed, objects) && NamesOf(listed) == names
    ensures k <= OrphanPrefix(listed)
    ensures NamesOf(listed[..k]) == Unowned(objects, names)
  {
    var orphans := AnyOrder(objects, Unowned(objects, names));
    var others := AnyOrder(objects, names - Unowned(objects, names));
    listed, k := orphans + others, |orphans|;
    assert NamesOf(listed) == NamesOf(orphans) + NamesOf(others);
    assert listed[..k] == orphans;
    forall i, j | 0 <= i < |orphans| && 0 <= j < |others|
      ensures orphans[i].name != others[j].name
    {
      assert orphans[i] in orphans && orphans[i].name in NamesOf(orphans);
      assert others[j] in others && others[j].name in NamesOf(others);
    }
    forall i | 0 <= i < k
      ensures listed[i].read.owner.None?
    {
      assert orphans[i] in orphans && orphans[i].name in NamesOf(orphans);
    }
    AllInPrefix(listed, k);
  }

  function Unowned(objects: Objects, names: set<string>): set<string>
    requires names <= objects.revisions.Keys
  {
    set n | n in names && objects.revisions[n].owner.None?
  }

  lemma AllInPrefix(listed: seq<Entry>, k: nat)
    requires k <= |listed| && forall i :: 0 <= i < k ==> listed[i].read.owner.None?
    ensures k <= OrphanPrefix(listed)
  {
  }

  lemma NothingYet(objects: Objects, set_: AdoptingSet)
    ensures Progressed(objects, objects, set_)
  {
    var own := AnyOrder(objects, Claimables(objects, set_, set_.selector));
    var marked := AnyOrder(objects, Claimables(objects, set_, MarkSelector(set_.name)));
    SyncedNone(objects, set_);
    AdoptedNone(objects, set_);
    assert NamesOf((own + marked)[..0]) == {};
    assert StoppedAt(objects, objects, set_, own + marked, 0, 0);
    assert Listings(objects, set_, own, marked);
  }

  lemma SyncStopped(before: Objects, after: Objects, set_: AdoptingSet, listed: seq<Entry>, d: nat)
    requires SyncedUpTo(before, after, set_, listed, d)
    ensures StoppedAt(before, after, set_, listed, d, 0)
  {
    hide Adopted, Synced, NoStaleRepeats;
    assert NamesOf(listed[..0]) == {};
    AdoptedNone(after, set_);
  }

  lemma SyncedWhole(before: Objects, after: Objects, set_: AdoptingSet, listed: seq<Entry>)
    requires NoStaleRepeats(listed, set_) && after == Synced(before, set_, NamesOf(listed))
    ensures SyncedUpTo(before, after, set_, listed, |listed|)
  {
    assert listed[..|listed|] == listed;
  }

  lemma SyncedShape(objects: Objects, set_: AdoptingSet, names: set<string>)
    ensures Synced(objects, set_, names).advanced == objects.advanced
    ensures Synced(objects, set_, names).revisions.Keys == objects.revisions.Keys
  {
  }

  /** The scan for orphans decides whether there is one. */
  lemma OrphanListed(objects: Objects, set_: AdoptingSet, revisions: seq<Entry>)
    requires NamesOf(revisions) == Listed(objects, set_) && Current(revisions, objects)
    ensures Orphans(objects, set_) == {} <==> forall k :: 0 <= k < |revisions| ==> revisions[k].read.owner.Some?
  {
    forall k | 0 <= k < |revisions|
      ensures revisions[k].name in Orphans(objects, set_) <==> revisions[k].read.owner.None?
    {
      assert revisions[k] in revisions && revisions[k].name in NamesOf(revisions);
    }
    forall n | n in Orphans(objects, set_)
      ensures exists k :: 0 <= k < |revisions| && revisions[k].read.owner.None?
    {
      var e :| e in revisions && e.name == n;
      var k :| 0 <= k < |revisions| && revisions[k] == e;
      assert revisions[k].read.owner.None?;
    }
  }

  /** The set is still the one in the API server. */
  predicate Live(objects: Objects, set_: AdoptingSet) {
    set_.name in objects.advanced && objects.advanced[set_.name].uid == set_.uid
  }

  method Recheck(api: KubeApi, set_: AdoptingSet) returns (ok: bool)
    modifies api`calls
    ensures ok ==> Live(api.objects, set_)
    ensures (forall i :: api.fate(i).Replies?) ==> (ok <==> Live(api.objects, set_))
  {
    var found;
    ok, found := api.Get(set_.name);
    ok := ok && found && api.objects.advanced[set_.name].uid == set_.uid;
  }

  /** The rest of the call, once an orphan is found. */
  method AdoptListing(api: KubeApi, set_: AdoptingSet, listed: seq<Entry>) returns (ok: bool)
    requires NamesOf(listed) == Listed(api.objects, set_) && Current(listed, api.objects)
    modifies api
    ensures ok ==> Orphans(old(api.objects), set_) == Listed(old(api.objects), set_) && NoStaleRepeats(listed, set_)
    ensures ok ==> api.objects == Adopted(Synced(old(api.objects), set_, Listed(old(api.objects), set_)), set_,
                                          Listed(old(api.objects), set_))
    ensures exists d: nat, k: nat :: StoppedAt(old(api.objects), api.objects, set_, listed, d, k)
    ensures (forall i :: api.fate(i).Replies?)
            ==> (ok <==> Orphans(old(api.objects), set_) == Listed(old(api.objects), set_)
                         && NoStaleRepeats(listed, set_) && Live(old(api.objects), set_))
  {
    hide Listed, Orphans, Adopted, Synced, NoStaleRepeats, OrphanPrefix, SyncedUpTo;
    ghost var before := api.objects;
    var revisions;
    ok, revisions := SyncAll(api, set_, listed);
    if !ok {
      ghost var d: nat :| SyncedUpTo(before, api.objects, set_, listed, d);
      SyncStopped(before, api.objects, set_, listed, d);
      return;
    }
    ghost var synced := api.objects;
    SyncedShape(before, set_, NamesOf(listed));
    PrefixOrphans(listed, before, set_, revisions, 0);
    ok := Recheck(api, set_);
    if !ok {
      SyncedWhole(before, api.objects, set_, listed);
      SyncStopped(before, api.objects, set_, listed, |listed|);
      return;
    }
    forall e | e in revisions
      ensures e.name in api.objects.revisions
    {
      assert e.name in NamesOf(revisions);
      ListedExist(before, set_, e.name);
    }
    ok := AdoptListed(api, set_, revisions);
    ghost var k :| 0 <= k <= OrphanPrefix(revisions) && api.objects == Adopted(synced, set_, NamesOf(revisions[..k]));
    AdoptionStopped(before, api.objects, set_, listed, revisions, k);
  }

  /** A sync changes neither names nor owners. */
  lemma {:induction false} SameOwners(listed: seq<Entry>, revisions: seq<Entry>)
    requires |revisions| == |listed|
    requires forall i :: 0 <= i < |listed| ==> revisions[i].name == listed[i].name
                                               && revisions[i].read.owner == listed[i].read.owner
    ensures OrphanPrefix(revisions) == OrphanPrefix(listed)
  {
    if listed != [] {
      SameOwners(listed[1..], revisions[1..]);
    }
  }

  lemma AdoptionStopped(before: Objects, after: Objects, set_: AdoptingSet, listed: seq<Entry>,
                        revisions: seq<Entry>, k: nat)
    requires NoStaleRepeats(listed, set_) && Live(before, set_) && |revisions| == |listed|
    requires forall i :: 0 <= i < |listed| ==> revisions[i].name == listed[i].name
                                               && revisions[i].read.owner == listed[i].read.owner
    requires k <= OrphanPrefix(revisions)
    requires after == Adopted(Synced(before, set_, NamesOf(listed)), set_, NamesOf(revisions[..k]))
    ensures StoppedAt(before, after, set_, listed, |listed|, k)
  {
    hide Adopted, Synced, NoStaleRepeats;
    SameOwners(listed, revisions);
    assert listed[..|listed|] == listed;
    forall i | 0 <= i < k
      ensures revisions[i].name in NamesOf(listed[..k]) && listed[i].name in NamesOf(revisions[..k])
    {
      assert listed[i] in listed[..k] && revisions[i] in revisions[..k];
    }
    assert NamesOf(revisions[..k]) == NamesOf(listed[..k]);
  }

  lemma ListedExist(objects: Objects, set_: AdoptingSet, n: string)
    requires n in Listed(objects, set_)
    ensures n in objects.revisions
  {
  }

  lemma ProgressedIntro(before: Objects, after: Objects, set_: AdoptingSet, own: seq<Entry>, marked: seq<Entry>,
                        d: nat, k: nat)
    requires Listings(before, set_, own, marked) && set_.selector.Parses()
    requires StoppedAt(before, after, set_, own + marked, d, k)
    ensures Progressed(before, after, set_)
  {
  }

  /** adoptOrphanRevisions. Without API failures it succeeds exactly when the revisions
      are adoptable, whatever the order of the listings. */
  method AdoptOrphanRevisions(api: KubeApi, set_: AdoptingSet) returns (ok: bool)
    modifies api
    ensures ok ==> api.objects == Settled(old(api.objects), set_) && Adoptable(old(api.objects), set_)
    ensures Progressed(old(api.objects), api.objects, set_)
    ensures (forall i :: api.fate(i).Replies?) && set_.selector.Parses()
            ==> (ok <==> Adoptable(old(api.objects), set_)
                         && (Orphans(old(api.objects), set_) != {} ==> Live(old(api.objects), set_)))
  {
    hide Listed, Orphans, ListedTwice, Claimables, Adopted, Synced, Stale, NoStaleRepeats, OrphanPrefix;
    hide Progressed, StoppedAt, Current;
    ghost var before := api.objects;
    NothingYet(before, set_);
    var own, marked;
    ok, own, marked := ListRevisions(api, set_);
    if !ok {
      return;
    }
    var revisions := own + marked;
    RepeatsAreListedTwice(before, set_, own, marked);
    OrphanListed(before, set_, revisions);
    var hasOrphans := false;
    for i := 0 to |revisions|
      invariant !hasOrphans
      invariant forall k :: 0 <= k < i ==> revisions[k].read.owner.Some?
    {
      if revisions[i].read.owner.None? {
        hasOrphans := true;
        break;
      }
    }
    if !hasOrphans {
      return true;
    }
    assert Listings(before, set_, own, marked);
    ok := AdoptListing(api, set_, revisions);
    ghost var d: nat, k: nat :| StoppedAt(before, api.objects, set_, revisions, d, k);
    ProgressedIntro(before, api.objects, set_, own, marked, d, k);
  }

  // ------------------------------------------------------------------ properties

  /** A matching revision still matches with the template's labels. */
  lemma RefreshKeepsMatch(selector: Selector, labels: Labels, template: Labels)
    requires selector.Matches(template) && selector.Matches(labels)
    ensures selector.Matches(labels + template)
  {
    forall key
      ensures Lookup(labels + template, key) == if key in template then Some(template[key]) else Lookup(labels, key)
    {
    }
  }

  lemma StaysListed(before: Objects, set_: AdoptingSet, synced: set<string>, adopted: set<string>, n: string)
    requires set_.selector.Matches(set_.template) && UPGRADE_ANNOTATION !in set_.template
    requires n in before.revisions
    ensures var after := Adopted(Synced(before, set_, synced), set_, adopted);
            && n in after.revisions
            && (n in Listed(before, set_) ==> n in Listed(after, set_))
            && (n in Listed(after, set_) && (synced + adopted <= Listed(before, set_)) ==> n in Listed(before, set_))
            && after.revisions[n].owner == if n in adopted then Some(set_.uid) else before.revisions[n].owner
  {
    var revision := before.revisions[n];
    var after := Adopted(Synced(before, set_, synced), set_, adopted);
    var labels := after.revisions[n].labels;
    assert labels == revision.labels || labels == revision.labels + set_.template;
    assert Lookup(labels, UPGRADE_ANNOTATION) == Lookup(revision.labels, UPGRADE_ANNOTATION);
    assert MarkSelector(set_.name).Matches(labels) <==> MarkSelector(set_.name).Matches(revision.labels);
    if set_.selector.Matches(revision.labels) {
      RefreshKeepsMatch(set_.selector, revision.labels, set_.template);
    }
  }

  /** A successful adoption leaves no orphan; it lists what it listed, and running it
      again changes nothing. */
  lemma AdoptionSettles(before: Objects, set_: AdoptingSet)
    requires Adoptable(before, set_)
    requires set_.selector.Matches(set_.template) && UPGRADE_ANNOTATION !in set_.template
    ensures var after := Settled(before, set_);
            && Orphans(after, set_) == {} && Listed(after, set_) == Listed(before, set_)
            && Adoptable(after, set_) && Settled(after, set_) == after
  {
    var after := Settled(before, set_);
    if Orphans(before, set_) != {} {
      var listed := Listed(before, set_);
      forall n | n in before.revisions
        ensures n in after.revisions && (n in Listed(after, set_) <==> n in listed) && n !in Orphans(after, set_)
      {
        StaysListed(before, set_, listed, listed, n);
      }
      assert after.revisions.Keys == before.revisions.Keys;
      assert Listed(after, set_) == listed;
    }
  }

  /** The first `k` of a listing, none of them owned, are orphans. */
  lemma PrefixListed(objects: Objects, set_: AdoptingSet, listed: seq<Entry>, d: nat, k: nat)
    requires NamesOf(listed) == Listed(objects, set_) && Current(listed, objects)
    requires d <= |listed| && k <= OrphanPrefix(listed)
    ensures NamesOf(listed[..d]) <= Listed(objects, set_) && NamesOf(listed[..k]) <= Orphans(objects, set_)
  {
    hide Listed;
    forall n | n in NamesOf(listed[..d])
      ensures n in NamesOf(listed)
    {
    }
    forall n | n in NamesOf(listed[..k])
      ensures n in Orphans(objects, set_)
    {
      var e :| e in listed[..k] && e.name == n;
      var i :| 0 <= i < k && listed[i] == e;
      assert listed[i] in listed && n in NamesOf(listed);
    }
  }

  /** A call syncs some of the listed revisions and adopts some of the orphans. */
  lemma ProgressedSets(before: Objects, after: Objects, set_: AdoptingSet)
    returns (synced: set<string>, adopted: set<string>)
    requires Progressed(before, after, set_)
    ensures synced <= Listed(before, set_) && adopted <= Orphans(before, set_)
    ensures after == Adopted(Synced(before, set_, synced), set_, adopted)
  {
    hide Listed, Orphans, Adopted, Synced, NoStaleRepeats, OrphanPrefix, Claimables;
    var own, marked, d: nat, k: nat :|
      && Listings(before, set_, own, marked) && (d > 0 ==> set_.selector.Parses())
      && StoppedAt(before, after, set_, own + marked, d, k);
    assert StoppedAt(before, after, set_, own + marked, d, k);
    RepeatsAreListedTwice(before, set_, own, marked);
    PrefixListed(before, set_, own + marked, d, k);
    synced, adopted := NamesOf((own + marked)[..d]), NamesOf((own + marked)[..k]);
  }

  /** What a call does to one revision. */
  lemma RevisionAfter(objects: Objects, set_: AdoptingSet, synced: set<string>, adopted: set<string>, n: string)
    requires n in objects.revisions
    ensures var after := Adopted(Synced(objects, set_, synced), set_, adopted);
            var revision := if n in synced then Refreshed(objects.revisions[n], set_) else objects.revisions[n];
            && n in after.revisions
            && after.revisions[n] == if n in adopted then revision.(owner := Some(set_.uid)) else revision
  {
  }

  /** Once an owned revision is listed beside orphans, no call succeeds until one that
      fails has adopted the last orphan on its way. */
  lemma PartialAdoptionPersists(before: Objects, after: Objects, set_: AdoptingSet, owned: string, orphan: string)
    requires set_.selector.Matches(set_.template) && UPGRADE_ANNOTATION !in set_.template
    requires owned in Listed(before, set_) - Orphans(before, set_) && orphan in Orphans(before, set_)
    requires Progressed(before, after, set_)
    ensures !Adoptable(before, set_)
    ensures Orphans(after, set_) != {} ==> !Adoptable(after, set_)
    ensures Orphans(after, set_) <= Orphans(before, set_)
  {
    hide Adopted, Synced, Listed, Progressed;
    var synced, adopted := ProgressedSets(before, after, set_);
    SameRevisions(before, set_, synced, adopted);
    ListedExist(before, set_, owned);
    forall n | n in Orphans(after, set_)
      ensures n in Orphans(before, set_)
    {
      ListedExist(after, set_, n);
      StaysListed(before, set_, synced, adopted, n);
    }
    StaysListed(before, set_, synced, adopted, owned);
    assert owned in Listed(after, set_) && owned !in Orphans(after, set_);
  }

  lemma SameRevisions(objects: Objects, set_: AdoptingSet, synced: set<string>, adopted: set<string>)
    ensures Adopted(Synced(objects, set_, synced), set_, adopted).revisions.Keys == objects.revisions.Keys
  {
  }

  /** What a successful adoption makes of one revision: if any listed revision has no owner,
      each listed one gets the set as its owner and, if it is marked, the template's labels;
      nothing else changes. A revision is listed if the selector reaches it or its mark
      names the set, and it belongs to nobody or to the set. */
  lemma SettledRevisions(objects: Objects, set_: AdoptingSet, n: string)
    requires n in objects.revisions
    ensures var revision, after := objects.revisions[n], Settled(objects, set_);
            && after.advanced == objects.advanced && after.builtin == objects.builtin
            && after.revisions.Keys == objects.revisions.Keys
            && (n in Listed(objects, set_)
                <==> (set_.selector.Matches(revision.labels)
                      || Lookup(revision.labels, UPGRADE_ANNOTATION) == Some(set_.name))
                     && (revision.owner == None || revision.owner == Some(set_.uid)))
            && (n in Listed(objects, set_) && (exists m :: m in Listed(objects, set_) && objects.revisions[m].owner == None)
                ==> after.revisions[n].owner == Some(set_.uid)
                    && forall key :: Lookup(after.revisions[n].labels, key)
                         == if UPGRADE_ANNOTATION in revision.labels && key in set_.template
                            then Some(set_.template[key]) else Lookup(revision.labels, key))
            && (n !in Listed(objects, set_) || (forall m :: m in Listed(objects, set_) ==> objects.revisions[m].owner != None)
                ==> after.revisions[n] == revision)
  {
    ListedMeans(objects, set_, n);
    hide Listed;
    forall m | m in Listed(objects, set_)
      ensures m in Orphans(objects, set_) <==> objects.revisions[m].owner == None
    {
      ListedExist(objects, set_, m);
    }
    assert Orphans(objects, set_) == {}
      <==> forall m :: m in Listed(objects, set_) ==> m !in Orphans(objects, set_);
  }

  lemma ListedMeans(objects: Objects, set_: AdoptingSet, n: string)
    requires n in objects.revisions
    ensures n in Listed(objects, set_)
            <==> (set_.selector.Matches(objects.revisions[n].labels)
                  || Lookup(objects.revisions[n].labels, UPGRADE_ANNOTATION) == Some(set_.name))
                 && (objects.revisions[n].owner == None || objects.revisions[n].owner == Some(set_.uid))
  {
    MarkMatches(objects.revisions[n].labels, set_.name);
  }

  lemma MarkMatches(labels: Labels, name: string)
    ensures MarkSelector(name).Matches(labels) <==> Lookup(labels, UPGRADE_ANNOTATION) == Some(name)
  {
    assert UPGRADE_ANNOTATION in MarkSelector(name).matchLabels;
  }

  // ------------------------------------------------------------------- hand-over

  /** The upgrade of a builtin set whose revisions belong to it or to nobody, before the
      advanced set owns any. */
  ghost predicate HandsOver(before: Objects, sts: BuiltinSet, set_: AdoptingSet) {
    && set_.name == sts.name && set_.selector == sts.selector
    && set_.selector.Matches(set_.template) && UPGRADE_ANNOTATION !in set_.template
    && sts.name in before.builtin && before.builtin[sts.name] != set_.uid
    && (forall n :: n in Matching(before, sts.selector)
          ==> before.revisions[n].owner in {None, Some(before.builtin[sts.name])})
    && (forall n :: n in before.revisions ==> before.revisions[n].owner != Some(set_.uid))
  }

  /** What the upgrade leaves of one revision. */
  lemma UpgradedRevision(before: Objects, sts: BuiltinSet, uid: string, n: string)
    requires n in before.revisions && sts.name in before.builtin
    ensures var after := Upgraded(before, sts, uid);
            var revision := before.revisions[n];
            && n in after.revisions
            && after.revisions[n].labels == (if n in Matching(before, sts.selector)
                                             then Relabelled(revision.labels, sts.selector, sts.name)
                                             else revision.labels)
            && after.revisions[n].owner == (if revision.owner == Some(before.builtin[sts.name]) then None
                                            else revision.owner)
  {
  }

  /** After the upgrade every revision the builtin set's selector reached is an orphan
      the advanced set lists, and it lists nothing else but orphans. */
  lemma UpgradeOrphans(before: Objects, sts: BuiltinSet, set_: AdoptingSet, uid: string)
    requires HandsOver(before, sts, set_)
    ensures var upgraded := Upgraded(before, sts, uid);
            && Matching(before, sts.selector) <= Orphans(upgraded, set_)
            && Orphans(upgraded, set_) == Listed(upgraded, set_)
            && (Detaches(sts.selector, sts.name) ==> ListedTwice(upgraded, set_) == {})
  {
    hide Listed, Upgraded, HandsOver;
    var upgraded := Upgraded(before, sts, uid);
    CompleteAttempt(before, sts, uid);
    AttemptRemovesSafely(before, upgraded, sts, uid);
    BuiltinGiven(before, sts, set_);
    assert Detaches(sts.selector, sts.name) ==> Matching(upgraded, sts.selector) == {};
    forall n | n in Matching(before, sts.selector)
      ensures n in Orphans(upgraded, set_)
    {
      BecomesOrphan(before, sts, set_, uid, n);
    }
    forall n | n in Listed(upgraded, set_)
      ensures n in Orphans(upgraded, set_)
    {
      ListedExist(upgraded, set_, n);
      BecomesOrphan(before, sts, set_, uid, n);
    }
  }

  /** The set that an upgrade leaves is there to adopt them. */
  lemma SuccessorIsLive(before: Objects, sts: BuiltinSet, set_: AdoptingSet, uid: string)
    requires set_.name == sts.name
    requires set_.uid == if sts.name in before.advanced then before.advanced[sts.name].uid else uid
    ensures Live(Upgraded(before, sts, uid), set_)
  {
    UpgradedSets(before, sts, uid);
  }

  lemma CompleteAttempt(before: Objects, sts: BuiltinSet, uid: string)
    ensures Attempt(before, Upgraded(before, sts, uid), sts, uid)
    ensures sts.name !in Upgraded(before, sts, uid).builtin
  {
  }

  lemma BuiltinGiven(before: Objects, sts: BuiltinSet, set_: AdoptingSet)
    requires HandsOver(before, sts, set_)
    ensures sts.name in before.builtin && set_.selector == sts.selector
  {
  }

  lemma BecomesOrphan(before: Objects, sts: BuiltinSet, set_: AdoptingSet, uid: string, n: string)
    requires HandsOver(before, sts, set_) && n in before.revisions
    ensures var upgraded := Upgraded(before, sts, uid);
            && (n in Matching(before, sts.selector) || n in Listed(upgraded, set_) ==> n in Orphans(upgraded, set_))
  {
    hide Upgraded;
    UpgradedRevision(before, sts, uid, n);
    assert Lookup(Relabelled(before.revisions[n].labels, sts.selector, sts.name), UPGRADE_ANNOTATION) == Some(sts.name);
  }

  /** The labels of a revision after the upgrade and the adoption. */
  function HandedOver(labels: Labels, sts: BuiltinSet, template: Labels): Labels {
    Relabelled(labels, sts.selector, sts.name) + template
  }

  /** The set's selector reaches a handed-over revision again exactly when it does not
      reject the mark. */
  lemma HandedOverMatches(labels: Labels, sts: BuiltinSet, template: Labels)
    requires sts.selector.Matches(labels) && sts.selector.Matches(template)
    requires UPGRADE_ANNOTATION !in template
    ensures sts.selector.Matches(HandedOver(labels, sts, template))
            <==> forall e :: e in sts.selector.expressions && e.key == UPGRADE_ANNOTATION ==> e.Admits(Some(sts.name))
  {
    var selector := sts.selector;
    var labels' := HandedOver(labels, sts, template);
    assert Lookup(labels', UPGRADE_ANNOTATION) == Some(sts.name);
    forall key | key in selector.matchLabels
      ensures Lookup(labels', key) == Some(selector.matchLabels[key])
    {
      assert Lookup(template, key) == Some(selector.matchLabels[key]);
    }
    forall e | e in selector.expressions && e.key != UPGRADE_ANNOTATION
      ensures e.Admits(Lookup(labels', e.key))
    {
      assert Lookup(labels', e.key) ==
             if e.key in template then Lookup(template, e.key) else Lookup(labels, e.key);
    }
  }

  /** Interrupted or not, an upgrade and one adoption pass every revision on: the first
      adoption succeeds if the selector detaches, and then each revision of the builtin
      set is owned by the advanced set, carries its template's labels and is listed,
      twice unless the selector rejects the mark. */
  lemma HandOver(history: seq<Objects>, sts: BuiltinSet, set_: AdoptingSet, uid: string)
    requires Attempts(history, sts, uid) && HandsOver(history[0], sts, set_)
    requires Detaches(sts.selector, sts.name)
    ensures var upgraded := Upgraded(history[|history| - 1], sts, uid);
            var settled := Settled(upgraded, set_);
            && Adoptable(upgraded, set_)
            && (forall n :: n in Matching(history[0], sts.selector) ==>
                 && n in settled.revisions && n in Listed(settled, set_)
                 && settled.revisions[n] == RevisionMeta(
                      HandedOver(history[0].revisions[n].labels, sts, set_.template), Some(set_.uid))
                 && (n in ListedTwice(settled, set_) <==>
                       forall e :: e in sts.selector.expressions && e.key == UPGRADE_ANNOTATION
                                   ==> e.Admits(Some(sts.name))))
  {
    var before := history[0];
    CrashSafe(history, sts, uid);
    UpgradeOrphans(before, sts, set_, uid);
    var upgraded := Upgraded(before, sts, uid);
    var settled := Settled(upgraded, set_);
    forall n | n in Matching(before, sts.selector)
      ensures n in settled.revisions && n in Listed(settled, set_)
      ensures settled.revisions[n] == RevisionMeta(
                HandedOver(before.revisions[n].labels, sts, set_.template), Some(set_.uid))
      ensures n in ListedTwice(settled, set_) <==>
                forall e :: e in sts.selector.expressions && e.key == UPGRADE_ANNOTATION ==> e.Admits(Some(sts.name))
    {
      UpgradedRevision(before, sts, uid, n);
      SettledRevision(upgraded, set_, n);
      HandedOverMatches(before.revisions[n].labels, sts, set_.template);
      ListingsOf(settled, set_, n);
    }
  }

  /** What a successful adoption leaves of one orphan. */
  lemma SettledRevision(objects: Objects, set_: AdoptingSet, n: string)
    requires n in Orphans(objects, set_)
    ensures var after := Settled(objects, set_);
            n in objects.revisions && n in after.revisions
            && after.revisions[n] == Refreshed(objects.revisions[n], set_).(owner := Some(set_.uid))
  {
  }

  lemma ListingsOf(objects: Objects, set_: AdoptingSet, n: string)
    requires n in objects.revisions && objects.revisions[n].owner == Some(set_.uid)
    requires Lookup(objects.revisions[n].labels, UPGRADE_ANNOTATION) == Some(set_.name)
    ensures n in Listed(objects, set_)
    ensures n in ListedTwice(objects, set_) <==> set_.selector.Matches(objects.revisions[n].labels)
  {
  }

  // -------------------------------------------------- the listing a sync starts from

  /** The revisions behind a listing, given what each name holds. */
  function Contents(entries: seq<Entry>, content: map<string, History.Revision>): (out: seq<History.Revision>)
    requires forall e :: e in entries ==> e.name in content
    ensures |out| == |entries|
    ensures forall i :: 0 <= i < |entries| ==> out[i] == content[entries[i].name]
  {
    if entries == [] then [] else [content[entries[0].name]] + Contents(entries[1..], content)
  }

  /** The store of the revisions a set lists. */
  function ListedStore(objects: Objects, set_: AdoptingSet, content: map<string, History.Revision>): History.Store
    requires Listed(objects, set_) <= content.Keys
  {
    map n | n in Listed(objects, set_) :: content[n]
  }

  /** What ListRevisions returns, in the order of the numbers, is a listing of the set's
      revisions as a sync takes it, and it has duplicates exactly if some revision is in
      both listings. */
  lemma ListingFits(objects: Objects, set_: AdoptingSet, own: seq<Entry>, marked: seq<Entry>,
                    content: map<string, History.Revision>, revisions: seq<History.Revision>)
    requires Listings(objects, set_, own, marked)
    requires Listed(objects, set_) <= content.Keys && History.Keyed(content)
    requires forall e :: e in own + marked ==> e.name in content
    requires History.Sorted(revisions) && multiset(revisions) == multiset(Contents(own + marked, content))
    ensures History.Listing(revisions, ListedStore(objects, set_, content))
  {
    hide Listed, Claimables, Distinct, Current, NoStaleRepeats, Stale, ListedTwice, Contents, History.Sorted;
    var entries := own + marked;
    RepeatsAreListedTwice(objects, set_, own, marked);
    SameMembers(revisions, Contents(entries, content));
    forall r | r in revisions
      ensures r.name in Listed(objects, set_) && content[r.name] == r
    {
      ContentListed(entries, content, r);
    }
    forall n | n in Listed(objects, set_)
      ensures content[n] in revisions
    {
      ListedContent(entries, content, n);
    }
  }

  lemma SameMembers(a: seq<History.Revision>, b: seq<History.Revision>)
    requires multiset(a) == multiset(b)
    ensures forall r :: r in a <==> r in b
  {
    assert forall r :: r in a <==> r in multiset(a);
    assert forall r :: r in b <==> r in multiset(b);
  }

  lemma ContentListed(entries: seq<Entry>, content: map<string, History.Revision>, r: History.Revision)
    requires History.Keyed(content) && (forall e :: e in entries ==> e.name in content)
    requires r in Contents(entries, content)
    ensures r.name in NamesOf(entries) && r.name in content && content[r.name] == r
  {
    var i :| 0 <= i < |entries| && Contents(entries, content)[i] == r;
    assert entries[i] in entries;
  }

  lemma ListedContent(entries: seq<Entry>, content: map<string, History.Revision>, n: string)
    requires (forall e :: e in entries ==> e.name in content) && n in NamesOf(entries)
    ensures n in content && content[n] in Contents(entries, content)
  {
    var e :| e in entries && e.name == n;
    var i :| 0 <= i < |entries| && entries[i] == e;
    assert Contents(entries, content)[i] == content[n];
  }

  /** A revision in both listings comes twice. */
  lemma ListedTwiceRepeats(objects: Objects, set_: AdoptingSet, own: seq<Entry>, marked: seq<Entry>,
                           content: map<string, History.Revision>, revisions: seq<History.Revision>, n: string)
    requires Listings(objects, set_, own, marked) && n in ListedTwice(objects, set_)
    requires forall e :: e in own + marked ==> e.name in content
    requires multiset(revisions) == multiset(Contents(own + marked, content))
    ensures !History.NoDuplicates(revisions)
  {
    hide Distinct, Current;
    var entries := own + marked;
    var contents := Contents(entries, content);
    assert n in NamesOf(own) && n in NamesOf(marked);
    var e :| e in own && e.name == n;
    var f :| f in marked && f.name == n;
    var i :| 0 <= i < |own| && own[i] == e;
    var j :| 0 <= j < |marked| && marked[j] == f;
    assert entries[i] == e && entries[|own| + j] == f;
    assert entries[i] in entries;
    TwoOccurrences(contents, i, |own| + j);
    RepeatedElement(revisions, content[n]);
  }

  lemma TwoOccurrences(list: seq<History.Revision>, i: nat, j: nat)
    requires i < j < |list| && list[i] == list[j]
    ensures multiset(list)[list[i]] >= 2
  {
    assert list == list[..j] + list[j..];
    assert list[..j][i] in multiset(list[..j]) && list[j..][0] in multiset(list[j..]);
  }

  lemma {:induction false} RepeatedElement(list: seq<History.Revision>, r: History.Revision)
    requires multiset(list)[r] >= 2
    ensures !History.NoDuplicates(list)
  {
    assert list == [list[0]] + list[1..];
    if list[0] == r {
      assert r in multiset(list[1..]);
      var j :| 0 <= j < |list| - 1 && list[1..][j] == r;
      assert list[0].name == list[1 + j].name;
    } else {
      RepeatedElement(list[1..], r);
      var i, j :| 0 <= i < j < |list| - 1 && list[1..][i].name == list[1..][j].name;
      assert list[1 + i].name == list[1 + j].name;
    }
  }

  /** After the hand-over a sync of the set gets a listing of all old revisions, to which
      what is proved about runs applies. It has duplicates unless the selector rejects the
      mark or there was no revision. */
  lemma HandedOverListing(history: seq<Objects>, sts: BuiltinSet, set_: AdoptingSet, uid: string,
                          own: seq<Entry>, marked: seq<Entry>,
                          content: map<string, History.Revision>, revisions: seq<History.Revision>)
    requires Attempts(history, sts, uid) && HandsOver(history[0], sts, set_)
    requires Detaches(sts.selector, sts.name)
    requires var settled := Settled(Upgraded(history[|history| - 1], sts, uid), set_);
             Listings(settled, set_, own, marked) && Listed(settled, set_) <= content.Keys
    requires History.Keyed(content) && forall e :: e in own + marked ==> e.name in content
    requires History.Sorted(revisions) && multiset(revisions) == multiset(Contents(own + marked, content))
    ensures var settled := Settled(Upgraded(history[|history| - 1], sts, uid), set_);
            var store := ListedStore(settled, set_, content);
            && History.Listing(revisions, store)
            && Matching(history[0], sts.selector) <= store.Keys
    ensures (forall e :: e in sts.selector.expressions && e.key == UPGRADE_ANNOTATION ==> e.Admits(Some(sts.name)))
            && Matching(history[0], sts.selector) != {}
            ==> !History.NoDuplicates(revisions)
  {
    hide Attempt, HandsOver, Detaches, Settled, Upgraded, Listings, Listed, Matching;
    hide History.Listing, History.NoDuplicates;
    var settled := Settled(Upgraded(history[|history| - 1], sts, uid), set_);
    HandOver(history, sts, set_, uid);
    ListingFits(settled, set_, own, marked, content, revisions);
    if (forall e :: e in sts.selector.expressions && e.key == UPGRADE_ANNOTATION ==> e.Admits(Some(sts.name)))
       && Matching(history[0], sts.selector) != {} {
      var n :| n in Matching(history[0], sts.selector);
      ListedTwiceRepeats(settled, set_, own, marked, content, revisions, n);
    }
  }
}
