/** When adoption can get stuck for good. A call adopts the listed orphans up to the first
    owned revision, what the selector reaches before what bears only the mark; so once the
    selector reaches an owned revision, an orphan that it will not reach is never adopted. */
module Blockade {
  import opened Pods
  import opened Upgrade
  import opened Adoption

  /** The selector does not reach this revision even with the template's labels. */
  predicate Beyond(revision: RevisionMeta, set_: AdoptingSet) {
    !set_.selector.Matches(Refreshed(revision, set_).labels)
  }

  /** The selector reaches an owned revision. */
  ghost predicate ReachesOwned(objects: Objects, set_: AdoptingSet) {
    exists n :: n in Claimables(objects, set_, set_.selector) && objects.revisions[n].owner.Some?
  }

  ghost predicate Blocked(objects: Objects, set_: AdoptingSet) {
    && ReachesOwned(objects, set_)
    && exists n :: n in Orphans(objects, set_) && Beyond(objects.revisions[n], set_)
  }

  /** A template's labels are those of the set's own pods. */
  ghost predicate Sound(set_: AdoptingSet) {
    set_.selector.Matches(set_.template) && UPGRADE_ANNOTATION !in set_.template
  }

  /** Adoption calls one after the other, stopped or not. */
  ghost predicate Calls(history: seq<Objects>, set_: AdoptingSet) {
    history != [] && forall i :: 0 < i < |history| ==> Progressed(history[i - 1], history[i], set_)
  }

  /** Some calls leave no orphan. */
  ghost predicate CanSettle(objects: Objects, set_: AdoptingSet) {
    exists history :: Calls(history, set_) && history[0] == objects && Orphans(history[|history| - 1], set_) == {}
  }

  // ------------------------------------------------------------- a block persists

  lemma BeyondKept(revision: RevisionMeta, set_: AdoptingSet)
    requires Sound(set_) && Beyond(revision, set_)
    ensures !set_.selector.Matches(revision.labels) && Beyond(Refreshed(revision, set_), set_)
  {
    if set_.selector.Matches(revision.labels) {
      RefreshKeepsMatch(set_.selector, revision.labels, set_.template);
    }
    assert revision.labels + set_.template + set_.template == revision.labels + set_.template;
  }

  /** With an owned revision in the first listing, nothing of the second is adopted. */
  lemma PrefixInOwn(own: seq<Entry>, marked: seq<Entry>, k: nat)
    requires k <= OrphanPrefix(own + marked) && exists e :: e in own && e.read.owner.Some?
    ensures NamesOf((own + marked)[..k]) <= NamesOf(own)
  {
    var e :| e in own && e.read.owner.Some?;
    var i :| 0 <= i < |own| && own[i] == e;
    assert (own + marked)[i] == e;
    assert k <= i;
    assert (own + marked)[..k] == own[..k];
  }

  /** A call on a blocked set adopts only what the selector reaches. */
  lemma BlockedAdoptions(before: Objects, after: Objects, set_: AdoptingSet)
    returns (synced: set<string>, adopted: set<string>)
    requires ReachesOwned(before, set_) && Progressed(before, after, set_)
    ensures adopted <= Orphans(before, set_) * Claimables(before, set_, set_.selector)
    ensures synced <= Listed(before, set_) && after == Adopted(Synced(before, set_, synced), set_, adopted)
  {
    hide Listed, Orphans, Adopted, Synced, NoStaleRepeats, OrphanPrefix, Claimables;
    var own, marked, d: nat, k: nat :|
      && Listings(before, set_, own, marked) && (d > 0 ==> set_.selector.Parses())
      && StoppedAt(before, after, set_, own + marked, d, k);
    assert StoppedAt(before, after, set_, own + marked, d, k);
    RepeatsAreListedTwice(before, set_, own, marked);
    PrefixListed(before, set_, own + marked, d, k);
    var n :| n in Claimables(before, set_, set_.selector) && before.revisions[n].owner.Some?;
    var e :| e in own && e.name == n;
    PrefixInOwn(own, marked, k);
    synced, adopted := NamesOf((own + marked)[..d]), NamesOf((own + marked)[..k]);
  }

  /** The selector still reaches an owned revision after a call. */
  lemma OwnedStaysReached(before: Objects, set_: AdoptingSet, synced: set<string>, adopted: set<string>, n: string)
    requires Sound(set_) && n in Claimables(before, set_, set_.selector) && before.revisions[n].owner.Some?
    requires adopted <= Orphans(before, set_)
    ensures var after := Adopted(Synced(before, set_, synced), set_, adopted);
            n in Claimables(after, set_, set_.selector) && after.revisions[n].owner.Some?
  {
    RevisionAfter(before, set_, synced, adopted, n);
    RefreshKeepsMatch(set_.selector, before.revisions[n].labels, set_.template);
  }

  lemma OrphanStaysBeyond(before: Objects, set_: AdoptingSet, synced: set<string>, adopted: set<string>, n: string)
    requires Sound(set_) && n in Orphans(before, set_) && n !in adopted && Beyond(before.revisions[n], set_)
    ensures var after := Adopted(Synced(before, set_, synced), set_, adopted);
            n in Orphans(after, set_) && Beyond(after.revisions[n], set_)
  {
    RevisionAfter(before, set_, synced, adopted, n);
    StaysListed(before, set_, synced, adopted, n);
    BeyondKept(before.revisions[n], set_);
  }

  /** No call gets past a block. */
  lemma BlockedStays(before: Objects, after: Objects, set_: AdoptingSet)
    requires Sound(set_) && Blocked(before, set_) && Progressed(before, after, set_)
    ensures Blocked(after, set_) && !Adoptable(before, set_)
  {
    hide Progressed, Adopted, Synced, Beyond, Sound;
    var synced, adopted := BlockedAdoptions(before, after, set_);
    var o :| o in Claimables(before, set_, set_.selector) && before.revisions[o].owner.Some?;
    var n :| n in Orphans(before, set_) && Beyond(before.revisions[n], set_);
    BeyondKept(before.revisions[n], set_);
    OwnedStaysReached(before, set_, synced, adopted, o);
    OrphanStaysBeyond(before, set_, synced, adopted, n);
    assert o in Listed(before, set_) && o !in Orphans(before, set_);
  }

  /** A selector that does not parse, or a set that is no longer the one in the API server. */
  ghost predicate Barred(objects: Objects, set_: AdoptingSet) {
    !set_.selector.Parses() || !Live(objects, set_)
  }

  lemma BarredStays(before: Objects, after: Objects, set_: AdoptingSet)
    requires Sound(set_) && Barred(before, set_) && Orphans(before, set_) != {} && Progressed(before, after, set_)
    ensures Barred(after, set_) && Orphans(after, set_) != {}
  {
    hide Listed, Orphans, Adopted, Synced, NoStaleRepeats, OrphanPrefix, Claimables, Sound;
    var own, marked, d: nat, k: nat :|
      && Listings(before, set_, own, marked) && (d > 0 ==> set_.selector.Parses())
      && StoppedAt(before, after, set_, own + marked, d, k);
    assert StoppedAt(before, after, set_, own + marked, d, k);
    PrefixBound(own + marked);
    assert k == 0;
    var synced := NamesOf((own + marked)[..d]);
    assert NamesOf((own + marked)[..0]) == {};
    NotAdopted(before, set_, synced);
  }

  /** A set that is gone, or whose name another set has taken, adopts nothing. */
  lemma ReplacedAdoptsNothing(before: Objects, after: Objects, set_: AdoptingSet, n: string)
    requires Progressed(before, after, set_) && n in before.revisions
    requires set_.name !in before.advanced || before.advanced[set_.name].uid != set_.uid
    ensures n in after.revisions && after.revisions[n].owner == before.revisions[n].owner
  {
    hide Listed, Orphans, NoStaleRepeats, OrphanPrefix, Claimables;
    var own, marked, d: nat, k: nat :|
      && Listings(before, set_, own, marked) && (d > 0 ==> set_.selector.Parses())
      && StoppedAt(before, after, set_, own + marked, d, k);
    assert StoppedAt(before, after, set_, own + marked, d, k);
    assert k == 0;
    assert NamesOf((own + marked)[..0]) == {};
    RevisionAfter(before, set_, NamesOf((own + marked)[..d]), {}, n);
  }

  lemma PrefixBound(listed: seq<Entry>)
    ensures OrphanPrefix(listed) <= |listed|
  {
  }

  /** Without an adoption orphans remain. */
  lemma NotAdopted(before: Objects, set_: AdoptingSet, synced: set<string>)
    requires Sound(set_) && Orphans(before, set_) != {}
    ensures var after := Adopted(Synced(before, set_, synced), set_, {});
            Orphans(after, set_) != {} && after.advanced == before.advanced
  {
    hide Adopted, Synced;
    var n :| n in Orphans(before, set_);
    StaysListed(before, set_, synced, {}, n);
    assert n in Orphans(Adopted(Synced(before, set_, synced), set_, {}), set_);
    AdvancedKept(before, set_, synced, {});
  }

  lemma AdvancedKept(objects: Objects, set_: AdoptingSet, synced: set<string>, adopted: set<string>)
    ensures Adopted(Synced(objects, set_, synced), set_, adopted).advanced == objects.advanced
  {
  }

  lemma {:induction false} StuckForever(history: seq<Objects>, set_: AdoptingSet)
    requires Sound(set_) && Calls(history, set_) && Orphans(history[0], set_) != {}
    requires Blocked(history[0], set_) || Barred(history[0], set_)
    ensures var last := history[|history| - 1];
            Orphans(last, set_) != {} && (Blocked(last, set_) || Barred(last, set_))
    decreases |history|
  {
    hide Progressed, Orphans, Barred, Sound, ReachesOwned;
    var last := |history| - 1;
    if last > 0 {
      StuckForever(history[..last], set_);
      var before, after := history[last - 1], history[last];
      assert Progressed(before, after, set_);
      if Blocked(before, set_) {
        BlockedStays(before, after, set_);
      } else {
        BarredStays(before, after, set_);
      }
    }
  }

  // --------------------------------------------------------- how adoption succeeds

  /** The labels synced by a call that stops before it adopts. */
  lemma SyncOnly(objects: Objects, set_: AdoptingSet, own: seq<Entry>, marked: seq<Entry>, d: nat)
    requires Listings(objects, set_, own, marked) && set_.selector.Parses()
    requires d <= |own + marked| && NoStaleRepeats((own + marked)[..d], set_)
    ensures Progressed(objects, Synced(objects, set_, NamesOf((own + marked)[..d])), set_)
  {
    hide Listings, StoppedAt, Synced;
    var after := Synced(objects, set_, NamesOf((own + marked)[..d]));
    assert SyncedUpTo(objects, after, set_, own + marked, d);
    SyncStopped(objects, after, set_, own + marked, d);
    ProgressedIntro(objects, after, set_, own, marked, d, 0);
  }

  /** A first call that gets through the selector's listing. */
  lemma SyncOwn(objects: Objects, set_: AdoptingSet) returns (after: Objects)
    requires Sound(set_) && set_.selector.Parses()
    ensures after == Synced(objects, set_, Claimables(objects, set_, set_.selector))
    ensures Progressed(objects, after, set_)
  {
    hide Synced, Stale, Progressed;
    var own := AnyOrder(objects, Claimables(objects, set_, set_.selector));
    var marked := AnyOrder(objects, Claimables(objects, set_, MarkSelector(set_.name)));
    assert (own + marked)[..|own|] == own;
    assert NoStaleRepeats(own, set_);
    SyncOnly(objects, set_, own, marked, |own|);
    after := Synced(objects, set_, Claimables(objects, set_, set_.selector));
  }

  /** A call that gets through both listings and stops before it adopts. */
  lemma SyncListed(objects: Objects, set_: AdoptingSet) returns (after: Objects)
    requires Sound(set_) && set_.selector.Parses()
    requires forall n :: n in ListedTwice(objects, set_) ==> !Stale(objects.revisions[n], set_)
    ensures after == Synced(objects, set_, Listed(objects, set_))
    ensures Progressed(objects, after, set_)
  {
    hide Synced, Stale, Progressed, NoStaleRepeats;
    var own := AnyOrder(objects, Claimables(objects, set_, set_.selector));
    var marked := AnyOrder(objects, Claimables(objects, set_, MarkSelector(set_.name)));
    assert Listings(objects, set_, own, marked);
    RepeatsAreListedTwice(objects, set_, own, marked);
    assert (own + marked)[..|own + marked|] == own + marked;
    SyncOnly(objects, set_, own, marked, |own + marked|);
    after := Synced(objects, set_, Listed(objects, set_));
  }

  /** Every orphan can be listed before every owned revision. */
  ghost predicate Sortable(objects: Objects, set_: AdoptingSet) {
    !ReachesOwned(objects, set_) || Orphans(objects, set_) <= Claimables(objects, set_, set_.selector)
  }

  lemma OrphansListedFirst(objects: Objects, set_: AdoptingSet) returns (own: seq<Entry>, marked: seq<Entry>, k: nat)
    requires Sortable(objects, set_)
    ensures Listings(objects, set_, own, marked)
    ensures k <= OrphanPrefix(own + marked) && NamesOf((own + marked)[..k]) == Orphans(objects, set_)
  {
    var reached, borne := Claimables(objects, set_, set_.selector), Claimables(objects, set_, MarkSelector(set_.name));
    var i, j;
    own, i := OrphansFirst(objects, reached);
    marked, j := OrphansFirst(objects, borne);
    assert Unowned(objects, reached) + Unowned(objects, borne) == Orphans(objects, set_);
    assert ReachesOwned(objects, set_) || Unowned(objects, reached) == reached;
    assert ReachesOwned(objects, set_) ==> Unowned(objects, reached) == Orphans(objects, set_);
    hide Claimables, OrphanPrefix, Orphans, Unowned, ReachesOwned, Distinct, Current;
    PrefixBound(own);
    PrefixBound(marked);
    if ReachesOwned(objects, set_) {
      k := i;
      assert (own + marked)[..k] == own[..k];
    } else {
      k := |own| + j;
      assert (own + marked)[..k] == own + marked[..j];
      assert NamesOf(own + marked[..j]) == NamesOf(own) + NamesOf(marked[..j]);
    }
    PrefixOfOrphans(objects, set_, own, marked, k);
  }

  lemma PrefixOfOrphans(objects: Objects, set_: AdoptingSet, own: seq<Entry>, marked: seq<Entry>, k: nat)
    requires Listings(objects, set_, own, marked) && k <= |own + marked|
    requires NamesOf((own + marked)[..k]) == Orphans(objects, set_)
    ensures k <= OrphanPrefix(own + marked)
  {
    var listed := own + marked;
    hide Claimables;
    forall i | 0 <= i < k
      ensures listed[i].read.owner.None?
    {
      assert listed[i] in listed[..k] && listed[i].name in NamesOf(listed[..k]);
      assert listed[i] in own || listed[i] in marked;
    }
    AllInPrefix(listed, k);
  }

  /** A call that lists the orphans first adopts them all. */
  lemma AdoptAll(objects: Objects, set_: AdoptingSet) returns (after: Objects)
    requires Sound(set_) && set_.selector.Parses() && Live(objects, set_) && Sortable(objects, set_)
    requires forall n :: n in ListedTwice(objects, set_) ==> !Stale(objects.revisions[n], set_)
    ensures Progressed(objects, after, set_) && Orphans(after, set_) == {}
  {
    hide Claimables, Listed, Orphans, Synced, Adopted, Stale, NoStaleRepeats, OrphanPrefix, Progressed, Sortable;
    hide Listings, Sound, ListedTwice;
    var own, marked, k := OrphansListedFirst(objects, set_);
    var listed := own + marked;
    RepeatsAreListedTwice(objects, set_, own, marked);
    assert listed[..|listed|] == listed;
    after := Adopted(Synced(objects, set_, NamesOf(listed)), set_, Orphans(objects, set_));
    assert StoppedAt(objects, after, set_, listed, |listed|, k);
    ProgressedIntro(objects, after, set_, own, marked, |listed|, k);
    NoOrphanLeft(objects, set_);
  }

  lemma NoOrphanLeft(objects: Objects, set_: AdoptingSet)
    requires Sound(set_)
    ensures Orphans(Adopted(Synced(objects, set_, Listed(objects, set_)), set_, Orphans(objects, set_)), set_) == {}
  {
    hide Adopted, Synced, Listed;
    var after := Adopted(Synced(objects, set_, Listed(objects, set_)), set_, Orphans(objects, set_));
    SameRevisions(objects, set_, Listed(objects, set_), Orphans(objects, set_));
    forall n | n in Orphans(after, set_)
      ensures false
    {
      ListedExist(after, set_, n);
      StaysListed(objects, set_, Listed(objects, set_), Orphans(objects, set_), n);
    }
  }

  /** One revision before and after its labels may have been synced. */
  lemma SyncedRevision(objects: Objects, set_: AdoptingSet, names: set<string>, n: string)
    requires Sound(set_) && n in objects.revisions
    ensures var after := Synced(objects, set_, names);
            && n in after.revisions && after.revisions[n].owner == objects.revisions[n].owner
            && (n in names ==> after.revisions[n] == Refreshed(objects.revisions[n], set_)
                               && !Stale(after.revisions[n], set_))
            && (n !in names ==> after.revisions[n] == objects.revisions[n])
            && (n in Listed(after, set_) <== n in Listed(objects, set_))
            && (n in Claimables(after, set_, set_.selector) <== n in Claimables(objects, set_, set_.selector))
            && (n in Claimables(after, set_, MarkSelector(set_.name))
                <==> n in Claimables(objects, set_, MarkSelector(set_.name)))
  {
    var revision := objects.revisions[n];
    var labels := Refreshed(revision, set_).labels;
    assert Lookup(labels, UPGRADE_ANNOTATION) == Lookup(revision.labels, UPGRADE_ANNOTATION);
    assert MarkSelector(set_.name).Matches(labels) <==> MarkSelector(set_.name).Matches(revision.labels);
    if set_.selector.Matches(revision.labels) {
      RefreshKeepsMatch(set_.selector, revision.labels, set_.template);
    }
    assert revision.labels + set_.template + set_.template == revision.labels + set_.template;
  }

  /** One revision before and after the first call. */
  lemma OwnSyncedAt(objects: Objects, set_: AdoptingSet, n: string)
    requires Sound(set_) && n in objects.revisions
    ensures var reached := Claimables(objects, set_, set_.selector);
            var after := Synced(objects, set_, reached);
            && n in after.revisions && after.revisions[n].owner == objects.revisions[n].owner
            && (n in Claimables(after, set_, set_.selector) <==> n in reached)
            && (n in Claimables(after, set_, MarkSelector(set_.name))
                <==> n in Claimables(objects, set_, MarkSelector(set_.name)))
            && (n in reached ==> !Stale(after.revisions[n], set_))
            && (Beyond(after.revisions[n], set_) <==> Beyond(objects.revisions[n], set_))
  {
    hide Stale, Synced, Sound, Refreshed;
    var reached := Claimables(objects, set_, set_.selector);
    SyncedRevision(objects, set_, reached, n);
    RefreshedTwice(objects.revisions[n], set_);
  }

  /** After the first call the selector reaches what it reached, none of it stale. */
  lemma OwnSynced(objects: Objects, set_: AdoptingSet)
    requires Sound(set_)
    ensures var after := Synced(objects, set_, Claimables(objects, set_, set_.selector));
            && Claimables(after, set_, set_.selector) == Claimables(objects, set_, set_.selector)
            && Orphans(after, set_) == Orphans(objects, set_) && after.advanced == objects.advanced
            && (ReachesOwned(after, set_) <==> ReachesOwned(objects, set_))
            && (forall n :: n in ListedTwice(after, set_) ==> !Stale(after.revisions[n], set_))
            && (forall n :: n in Orphans(after, set_) ==>
                  (Beyond(after.revisions[n], set_) <==> Beyond(objects.revisions[n], set_)))
  {
    var reached := Claimables(objects, set_, set_.selector);
    var after := Synced(objects, set_, reached);
    SyncedShape(objects, set_, reached);
    forall n | n in objects.revisions
      ensures n in Claimables(after, set_, set_.selector) <==> n in reached
      ensures n in Claimables(after, set_, MarkSelector(set_.name))
              <==> n in Claimables(objects, set_, MarkSelector(set_.name))
      ensures after.revisions[n].owner == objects.revisions[n].owner
      ensures n in reached ==> !Stale(after.revisions[n], set_)
      ensures Beyond(after.revisions[n], set_) <==> Beyond(objects.revisions[n], set_)
    {
      OwnSyncedAt(objects, set_, n);
    }
    SameClaims(objects, after, set_);
  }

  /** Orphans and reached owners depend on claims and owners only. */
  lemma SameClaims(objects: Objects, after: Objects, set_: AdoptingSet)
    requires after.revisions.Keys == objects.revisions.Keys
    requires forall n :: n in objects.revisions ==>
               && (n in Claimables(after, set_, set_.selector) <==> n in Claimables(objects, set_, set_.selector))
               && (n in Claimables(after, set_, MarkSelector(set_.name))
                   <==> n in Claimables(objects, set_, MarkSelector(set_.name)))
               && after.revisions[n].owner == objects.revisions[n].owner
    ensures Claimables(after, set_, set_.selector) == Claimables(objects, set_, set_.selector)
    ensures Orphans(after, set_) == Orphans(objects, set_)
    ensures ReachesOwned(after, set_) <==> ReachesOwned(objects, set_)
  {
    hide Claimable;
    ClaimedExist(objects, set_, set_.selector);
    ClaimedExist(after, set_, set_.selector);
    ClaimedExist(objects, set_, MarkSelector(set_.name));
    ClaimedExist(after, set_, MarkSelector(set_.name));
    hide Claimables;
    assert Claimables(after, set_, set_.selector) == Claimables(objects, set_, set_.selector);
    assert Claimables(after, set_, MarkSelector(set_.name)) == Claimables(objects, set_, MarkSelector(set_.name));
    assert Listed(after, set_) == Listed(objects, set_);
  }

  lemma ClaimedExist(objects: Objects, set_: AdoptingSet, selector: Selector)
    ensures Claimables(objects, set_, selector) <= objects.revisions.Keys
  {
  }

  lemma RefreshedTwice(revision: RevisionMeta, set_: AdoptingSet)
    ensures Refreshed(Refreshed(revision, set_), set_) == Refreshed(revision, set_)
  {
    assert revision.labels + set_.template + set_.template == revision.labels + set_.template;
  }

  /** Once all labels are synced, the selector reaches every orphan that is not beyond it. */
  lemma ListedSynced(objects: Objects, set_: AdoptingSet)
    requires Sound(set_) && forall n :: n in Orphans(objects, set_) ==> !Beyond(objects.revisions[n], set_)
    ensures var after := Synced(objects, set_, Listed(objects, set_));
            && Sortable(after, set_) && after.advanced == objects.advanced
            && forall n :: n in ListedTwice(after, set_) ==> !Stale(after.revisions[n], set_)
  {
    var listed := Listed(objects, set_);
    var after := Synced(objects, set_, listed);
    SameListed(objects, set_, listed);
    hide Stale, Synced, Sound, Listed;
    forall n | n in Orphans(after, set_)
      ensures n in Claimables(after, set_, set_.selector)
    {
      ListedExist(objects, set_, n);
      SyncedRevision(objects, set_, listed, n);
      assert n in Orphans(objects, set_);
    }
    forall n | n in ListedTwice(after, set_)
      ensures !Stale(after.revisions[n], set_)
    {
      TwiceIsListed(after, set_, n);
      ListedExist(objects, set_, n);
      SyncedRevision(objects, set_, listed, n);
    }
  }

  lemma TwiceIsListed(objects: Objects, set_: AdoptingSet, n: string)
    requires n in ListedTwice(objects, set_)
    ensures n in Listed(objects, set_)
  {
  }

  /** Syncing the labels of listed revisions does not change what is listed. */
  lemma SameListed(objects: Objects, set_: AdoptingSet, names: set<string>)
    requires Sound(set_) && names <= Listed(objects, set_)
    ensures Listed(Synced(objects, set_, names), set_) == Listed(objects, set_)
    ensures Synced(objects, set_, names).advanced == objects.advanced
  {
    var after := Synced(objects, set_, names);
    AdoptedNone(after, set_);
    SameRevisions(objects, set_, names, {});
    AdvancedKept(objects, set_, names, {});
    hide Synced, Listed, Adopted;
    forall n
      ensures n in Listed(after, set_) <==> n in Listed(objects, set_)
    {
      if n in objects.revisions {
        StaysListed(objects, set_, names, {}, n);
      } else {
        if n in Listed(objects, set_) { ListedExist(objects, set_, n); }
        if n in Listed(after, set_) { ListedExist(after, set_, n); }
      }
    }
  }

  /** Two or three calls settle a set that is not blocked. */
  lemma Settles(objects: Objects, set_: AdoptingSet)
    requires Sound(set_) && set_.selector.Parses() && Live(objects, set_) && !Blocked(objects, set_)
    ensures CanSettle(objects, set_)
  {
    hide Claimables, Listed, Orphans, Synced, Stale, Progressed, Beyond, ReachesOwned, ListedTwice, Sound;
    var first := SyncOwn(objects, set_);
    OwnSynced(objects, set_);
    if !ReachesOwned(objects, set_) {
      var last := AdoptAll(first, set_);
      var history := [objects, first, last];
      assert Calls(history, set_);
    } else {
      var second := SyncListed(first, set_);
      ListedSynced(first, set_);
      var last := AdoptAll(second, set_);
      var history := [objects, first, second, last];
      assert Calls(history, set_);
    }
  }

  /** Some adoption calls leave no orphan if and only if there is none already, or the
      selector parses, the set is still there, and the set is not blocked. */
  lemma SettlesExactly(objects: Objects, set_: AdoptingSet)
    requires Sound(set_)
    ensures CanSettle(objects, set_)
            <==> Orphans(objects, set_) == {}
                 || (set_.selector.Parses() && Live(objects, set_) && !Blocked(objects, set_))
  {
    hide Orphans, Sound, Progressed, Blocked, Live;
    if Orphans(objects, set_) == {} {
      assert Calls([objects], set_);
    } else if set_.selector.Parses() && Live(objects, set_) && !Blocked(objects, set_) {
      Settles(objects, set_);
    } else {
      forall history | Calls(history, set_) && history[0] == objects
        ensures Orphans(history[|history| - 1], set_) != {}
      {
        StuckForever(history, set_);
      }
    }
  }

  /** A marked revision is beyond a selector that rejects the mark. */
  lemma MarkRejected(revision: RevisionMeta, set_: AdoptingSet)
    requires Sound(set_) && Lookup(revision.labels, UPGRADE_ANNOTATION) == Some(set_.name)
    requires exists e :: e in set_.selector.expressions && e.key == UPGRADE_ANNOTATION && !e.Admits(Some(set_.name))
    ensures Beyond(revision, set_)
  {
    assert Lookup(Refreshed(revision, set_).labels, UPGRADE_ANNOTATION) == Some(set_.name);
  }
}
