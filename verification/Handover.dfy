/** The hand-over of a builtin set's revisions when the controller works between the
    attempts of the upgrade, as it may from the moment the advanced set exists. */
module Handover {
  import opened Pods
  import opened Upgrade
  import opened Adoption
  import opened Blockade

  const HASH_LABEL := "controller.kubernetes.io/hash"

  /** A revision the controller creates for the set. */
  function NewRevision(set_: AdoptingSet, hash: string): RevisionMeta {
    RevisionMeta(set_.template[HASH_LABEL := hash], Some(set_.uid))
  }

  /** A sync records the set's template in a new revision. */
  ghost predicate RevisionCreated(before: Objects, after: Objects, set_: AdoptingSet) {
    && Live(before, set_)
    && exists n, hash :: n !in before.revisions && after == WithRevision(before, n, NewRevision(set_, hash))
  }

  function WithRevision(objects: Objects, n: string, revision: RevisionMeta): Objects {
    objects.(revisions := objects.revisions[n := revision])
  }

  /** An attempt of the upgrade or an adoption call, either of which may stop early, or the
      creation of a revision. */
  ghost predicate Move(before: Objects, after: Objects, sts: BuiltinSet, set_: AdoptingSet, uid: string) {
    Attempt(before, after, sts, uid) || Progressed(before, after, set_) || RevisionCreated(before, after, set_)
  }

  ghost predicate Moves(history: seq<Objects>, sts: BuiltinSet, set_: AdoptingSet, uid: string) {
    && history != []
    && forall i :: 0 < i < |history| ==> Move(history[i - 1], history[i], sts, set_, uid)
  }

  /** A successful adoption is one of these calls. */
  lemma SettledProgresses(objects: Objects, set_: AdoptingSet)
    requires Adoptable(objects, set_)
    requires Orphans(objects, set_) != {} ==> set_.selector.Parses() && Live(objects, set_)
    ensures Progressed(objects, Settled(objects, set_), set_)
  {
    hide Listed, Orphans, Synced, Adopted, Progressed, NoStaleRepeats, OrphanPrefix, Stale, ListedTwice;
    if Orphans(objects, set_) == {} {
      NothingYet(objects, set_);
    } else {
      var own := AnyOrder(objects, Claimables(objects, set_, set_.selector));
      var marked := AnyOrder(objects, Claimables(objects, set_, MarkSelector(set_.name)));
      var listed := own + marked;
      assert Listings(objects, set_, own, marked);
      RepeatsAreListedTwice(objects, set_, own, marked);
      assert listed[..|listed|] == listed;
      PrefixOfOrphans(objects, set_, own, marked, |listed|);
      assert StoppedAt(objects, Settled(objects, set_), set_, listed, |listed|, |listed|);
      ProgressedIntro(objects, Settled(objects, set_), set_, own, marked, |listed|, |listed|);
    }
  }

  /** What a move does to one revision: it may be marked, take over the template's labels
      under its mark, lose the builtin set as its owner or be adopted. */
  ghost predicate RevisionMoved(before: Objects, after: Objects, sts: BuiltinSet, set_: AdoptingSet, n: string)
    requires n in before.revisions
  {
    && n in after.revisions
    && var old_, new_ := before.revisions[n], after.revisions[n];
       && (|| new_.labels == old_.labels
           || new_.labels == Relabelled(old_.labels, sts.selector, sts.name)
           || (UPGRADE_ANNOTATION in old_.labels && new_.labels == old_.labels + set_.template))
       && (|| new_.owner == old_.owner
           || (new_.owner == None && sts.name in before.builtin && old_.owner == Some(before.builtin[sts.name]))
           || (new_.owner == Some(set_.uid) && old_.owner == None))
  }

  lemma AttemptMoves(before: Objects, after: Objects, sts: BuiltinSet, set_: AdoptingSet, uid: string, n: string)
    requires Attempt(before, after, sts, uid) && n in before.revisions
    ensures RevisionMoved(before, after, sts, set_, n)
  {
    AttemptLabels(before, after, sts, uid, n);
    AttemptOwners(before, after, sts, uid, n);
  }

  lemma AttemptOwners(before: Objects, after: Objects, sts: BuiltinSet, uid: string, n: string)
    requires Attempt(before, after, sts, uid) && n in before.revisions
    ensures n in after.revisions
    ensures var old_, new_ := before.revisions[n].owner, after.revisions[n].owner;
            || new_ == old_
            || (new_ == None && sts.name in before.builtin && old_ == Some(before.builtin[sts.name]))
  {
    hide Relabelled, Matching;
  }

  lemma AdoptionMoves(before: Objects, after: Objects, sts: BuiltinSet, set_: AdoptingSet, n: string)
    requires Progressed(before, after, set_) && n in before.revisions
    ensures RevisionMoved(before, after, sts, set_, n)
  {
    hide Listed, Orphans, Relabelled, Adopted, Synced, Progressed;
    var synced, adopted := ProgressedSets(before, after, set_);
    RevisionAfter(before, set_, synced, adopted, n);
    if n in adopted {
      OrphanUnowned(before, set_, n);
    }
  }

  lemma OrphanUnowned(objects: Objects, set_: AdoptingSet, n: string)
    requires n in Orphans(objects, set_)
    ensures n in objects.revisions && objects.revisions[n].owner == None
  {
  }

  lemma AdoptionKeepsSets(before: Objects, after: Objects, set_: AdoptingSet)
    requires Progressed(before, after, set_)
    ensures after.builtin == before.builtin && after.advanced == before.advanced
    ensures after.revisions.Keys == before.revisions.Keys
  {
    hide Listed, Orphans, Progressed;
    var synced, adopted := ProgressedSets(before, after, set_);
  }

  /** The new set has what the upgrade gives it. */
  ghost predicate Complete(objects: Objects, sts: BuiltinSet) {
    && sts.name in objects.advanced
    && objects.advanced[sts.name].spec == sts.spec && objects.advanced[sts.name].status == sts.status
  }

  /** The selector has nothing against the labels that neither the mark nor the template
      sets. */
  predicate Suits(labels: Labels, selector: Selector, template: Labels) {
    forall e | e in selector.expressions :: e.key == UPGRADE_ANNOTATION || e.key in template
                                            || e.Admits(Lookup(labels, e.key))
  }

  /** On its way, a revision is matched or marked, and belongs to the builtin set, to
      nobody or to the advanced set. */
  ghost predicate OnTheWay(revision: RevisionMeta, sts: BuiltinSet, set_: AdoptingSet, builtinUid: string) {
    && Suits(revision.labels, sts.selector, set_.template)
    && (sts.selector.Matches(revision.labels) || Lookup(revision.labels, UPGRADE_ANNOTATION) == Some(sts.name))
    && revision.owner in {None, Some(builtinUid), Some(set_.uid)}
  }

  ghost predicate Arrived(revision: RevisionMeta, sts: BuiltinSet, set_: AdoptingSet) {
    && Suits(revision.labels, sts.selector, set_.template)
    && Lookup(revision.labels, UPGRADE_ANNOTATION) == Some(sts.name)
    && revision.owner in {None, Some(set_.uid)}
  }

  /** What holds between any two moves. */
  ghost predicate Underway(start: Objects, objects: Objects, sts: BuiltinSet, set_: AdoptingSet, builtinUid: string) {
    && start.revisions.Keys <= objects.revisions.Keys
    && (sts.name in objects.builtin ==> objects.builtin[sts.name] == builtinUid)
    && (forall n :: n in Matching(start, sts.selector) ==>
          && OnTheWay(objects.revisions[n], sts, set_, builtinUid)
          && (sts.name !in objects.builtin ==> Arrived(objects.revisions[n], sts, set_)))
    && (sts.name !in objects.builtin ==> Complete(objects, sts))
  }

  lemma MarkStays(old_: RevisionMeta, new_: RevisionMeta, sts: BuiltinSet, set_: AdoptingSet)
    requires UPGRADE_ANNOTATION !in set_.template
    requires || new_.labels == old_.labels
             || new_.labels == Relabelled(old_.labels, sts.selector, sts.name)
             || (UPGRADE_ANNOTATION in old_.labels && new_.labels == old_.labels + set_.template)
    requires sts.selector.Matches(set_.template)
    ensures Lookup(old_.labels, UPGRADE_ANNOTATION) == Some(sts.name)
            ==> Lookup(new_.labels, UPGRADE_ANNOTATION) == Some(sts.name)
    ensures sts.selector.Matches(old_.labels)
            ==> sts.selector.Matches(new_.labels) || Lookup(new_.labels, UPGRADE_ANNOTATION) == Some(sts.name)
    ensures Suits(old_.labels, sts.selector, set_.template) ==> Suits(new_.labels, sts.selector, set_.template)
  {
    if sts.selector.Matches(old_.labels) && new_.labels == old_.labels + set_.template {
      RefreshKeepsMatch(sts.selector, old_.labels, set_.template);
    }
    forall key | key != UPGRADE_ANNOTATION && key !in set_.template
      ensures Lookup(new_.labels, key) == Lookup(old_.labels, key)
    {
      assert key in sts.selector.matchLabels ==> Lookup(set_.template, key) == Some(sts.selector.matchLabels[key]);
    }
  }

  /** Each revision stays on its way. */
  lemma StaysOnTheWay(before: Objects, after: Objects, sts: BuiltinSet, set_: AdoptingSet, builtinUid: string, n: string)
    requires n in before.revisions && RevisionMoved(before, after, sts, set_, n)
    requires OnTheWay(before.revisions[n], sts, set_, builtinUid)
    requires UPGRADE_ANNOTATION !in set_.template && sts.selector.Matches(set_.template)
    ensures OnTheWay(after.revisions[n], sts, set_, builtinUid)
    ensures Arrived(before.revisions[n], sts, set_) ==> Arrived(after.revisions[n], sts, set_)
  {
    hide Relabelled;
    MarkStays(before.revisions[n], after.revisions[n], sts, set_);
  }

  /** The attempt that removes the builtin set has marked and released every revision. */
  lemma RemovalArrives(before: Objects, after: Objects, sts: BuiltinSet, set_: AdoptingSet, uid: string, n: string)
    requires Attempt(before, after, sts, uid) && n in before.revisions
    requires sts.name in before.builtin && sts.name !in after.builtin && before.builtin[sts.name] != set_.uid
    requires OnTheWay(before.revisions[n], sts, set_, before.builtin[sts.name])
    requires n in after.revisions && OnTheWay(after.revisions[n], sts, set_, before.builtin[sts.name])
    ensures n in after.revisions && Arrived(after.revisions[n], sts, set_)
  {
    UpgradedRevision(before, sts, uid, n);
    assert Lookup(Relabelled(before.revisions[n].labels, sts.selector, sts.name), UPGRADE_ANNOTATION) == Some(sts.name);
  }

  lemma AttemptUnderway(start: Objects, before: Objects, after: Objects, sts: BuiltinSet, set_: AdoptingSet,
                        uid: string, builtinUid: string)
    requires Underway(start, before, sts, set_, builtinUid) && Attempt(before, after, sts, uid)
    requires UPGRADE_ANNOTATION !in set_.template && sts.selector.Matches(set_.template) && builtinUid != set_.uid
    ensures Underway(start, after, sts, set_, builtinUid)
  {
    hide Attempt, OnTheWay, Arrived, RevisionMoved, Complete, SafelyRemoved;
    AttemptRemovesSafely(before, after, sts, uid);
    AttemptKeepsBuiltin(before, after, sts, uid);
    CompletedBy(before, after, sts, uid);
    forall n | n in Matching(start, sts.selector)
      ensures OnTheWay(after.revisions[n], sts, set_, builtinUid)
      ensures sts.name !in after.builtin ==> Arrived(after.revisions[n], sts, set_)
    {
      assert n in start.revisions.Keys;
      AttemptMoves(before, after, sts, set_, uid, n);
      StaysOnTheWay(before, after, sts, set_, builtinUid, n);
      if sts.name in before.builtin && sts.name !in after.builtin {
        RemovalArrives(before, after, sts, set_, uid, n);
      }
    }
  }

  lemma CompletedBy(before: Objects, after: Objects, sts: BuiltinSet, uid: string)
    requires Attempt(before, after, sts, uid)
    requires sts.name !in before.builtin ==> Complete(before, sts)
    ensures sts.name !in after.builtin ==> Complete(after, sts)
  {
    hide Attempt;
    AttemptRemovesSafely(before, after, sts, uid);
    if sts.name !in before.builtin {
      AttemptKeepsSuccessor(before, after, sts, uid);
    }
  }

  lemma AttemptKeepsBuiltin(before: Objects, after: Objects, sts: BuiltinSet, uid: string)
    requires Attempt(before, after, sts, uid)
    ensures sts.name in after.builtin
            ==> sts.name in before.builtin && after.builtin[sts.name] == before.builtin[sts.name]
  {
    hide Matching, Relabelled;
  }

  lemma AdoptionUnderway(start: Objects, before: Objects, after: Objects, sts: BuiltinSet, set_: AdoptingSet,
                         builtinUid: string)
    requires Underway(start, before, sts, set_, builtinUid) && Progressed(before, after, set_)
    requires UPGRADE_ANNOTATION !in set_.template && sts.selector.Matches(set_.template)
    ensures Underway(start, after, sts, set_, builtinUid)
  {
    hide Progressed, OnTheWay, Arrived, RevisionMoved;
    AdoptionKeepsSets(before, after, set_);
    forall n | n in Matching(start, sts.selector)
      ensures OnTheWay(after.revisions[n], sts, set_, builtinUid)
      ensures sts.name !in after.builtin ==> Arrived(after.revisions[n], sts, set_)
    {
      assert n in start.revisions.Keys;
      AdoptionMoves(before, after, sts, set_, n);
      StaysOnTheWay(before, after, sts, set_, builtinUid, n);
    }
  }

  lemma CreationUnderway(start: Objects, before: Objects, after: Objects, sts: BuiltinSet, set_: AdoptingSet,
                         builtinUid: string)
    requires Underway(start, before, sts, set_, builtinUid) && RevisionCreated(before, after, set_)
    ensures Underway(start, after, sts, set_, builtinUid)
  {
    hide OnTheWay, Arrived, Live;
    forall n | n in Matching(start, sts.selector)
      ensures n in before.revisions && after.revisions[n] == before.revisions[n]
    {
      assert n in start.revisions.Keys;
    }
  }

  /** The selector rejects the mark. */
  ghost predicate RejectsMark(selector: Selector, name: string) {
    exists e :: e in selector.expressions && e.key == UPGRADE_ANNOTATION && !e.Admits(Some(name))
  }

  /** A handed-over revision is out of the selector's reach for good if and only if the
      selector rejects the mark. */
  lemma ArrivedBeyond(revision: RevisionMeta, sts: BuiltinSet, set_: AdoptingSet)
    requires Arrived(revision, sts, set_) && set_.name == sts.name && set_.selector == sts.selector && Sound(set_)
    ensures Beyond(revision, set_) <==> RejectsMark(sts.selector, sts.name)
  {
    var labels := Refreshed(revision, set_).labels;
    assert Lookup(labels, UPGRADE_ANNOTATION) == Some(sts.name);
    if RejectsMark(sts.selector, sts.name) {
      MarkRejected(revision, set_);
    } else {
      forall key
        ensures Lookup(labels, key) == if key in set_.template then Lookup(set_.template, key)
                                       else Lookup(revision.labels, key)
      {
      }
      assert set_.selector.Matches(labels);
    }
  }

  /** Whatever attempts, adoption calls and new revisions come in whatever order, once the
      builtin set is gone its successor is complete and lists every revision the builtin set
      reached, and an adoption that succeeds then leaves it owning them all. */
  lemma {:induction false} InterleavedHandOver(history: seq<Objects>, sts: BuiltinSet, set_: AdoptingSet, uid: string)
    requires Moves(history, sts, set_, uid) && HandsOver(history[0], sts, set_)
    ensures Underway(history[0], history[|history| - 1], sts, set_, history[0].builtin[sts.name])
    ensures sts.name !in history[|history| - 1].builtin
            ==> HandedOn(history[0], history[|history| - 1], sts, set_)
    decreases |history|
  {
    hide Attempt, Progressed, RevisionCreated, OnTheWay, Arrived;
    var last := |history| - 1;
    if last == 0 {
      StartsUnderway(history[0], sts, set_);
    } else {
      InterleavedHandOver(history[..last], sts, set_, uid);
      var before, after := history[last - 1], history[last];
      assert Move(before, after, sts, set_, uid);
      if Attempt(before, after, sts, uid) {
        AttemptUnderway(history[0], before, after, sts, set_, uid, history[0].builtin[sts.name]);
      } else if RevisionCreated(before, after, set_) {
        CreationUnderway(history[0], before, after, sts, set_, history[0].builtin[sts.name]);
      } else {
        AdoptionUnderway(history[0], before, after, sts, set_, history[0].builtin[sts.name]);
      }
    }
    if sts.name !in history[last].builtin {
      ArrivedHandedOn(history[0], history[last], sts, set_, history[0].builtin[sts.name]);
    }
  }

  /** The new set is complete and lists every revision, and owns them after a successful
      adoption. */
  ghost predicate HandedOn(start: Objects, objects: Objects, sts: BuiltinSet, set_: AdoptingSet) {
    && Complete(objects, sts)
    && Matching(start, sts.selector) <= Listed(objects, set_)
    && (Adoptable(objects, set_) ==> forall n :: n in Matching(start, sts.selector) ==>
          && n in Listed(Settled(objects, set_), set_)
          && n in Settled(objects, set_).revisions && Settled(objects, set_).revisions[n].owner == Some(set_.uid))
  }

  lemma StartsUnderway(start: Objects, sts: BuiltinSet, set_: AdoptingSet)
    requires HandsOver(start, sts, set_)
    ensures Underway(start, start, sts, set_, start.builtin[sts.name])
  {
  }

  lemma ArrivedListed(objects: Objects, sts: BuiltinSet, set_: AdoptingSet, n: string)
    requires set_.name == sts.name && n in objects.revisions && Arrived(objects.revisions[n], sts, set_)
    ensures n in Listed(objects, set_)
  {
  }

  lemma ArrivedHandedOn(start: Objects, objects: Objects, sts: BuiltinSet, set_: AdoptingSet, builtinUid: string)
    requires Underway(start, objects, sts, set_, builtinUid) && sts.name !in objects.builtin
    requires set_.name == sts.name && set_.selector == sts.selector
    requires UPGRADE_ANNOTATION !in set_.template && set_.selector.Matches(set_.template)
    ensures HandedOn(start, objects, sts, set_)
  {
    hide Listed, Settled, Adoptable, Arrived, OnTheWay, Complete;
    forall n | n in Matching(start, sts.selector)
      ensures n in Listed(objects, set_)
    {
      assert n in start.revisions.Keys;
      ArrivedListed(objects, sts, set_, n);
    }
    if Adoptable(objects, set_) {
      AdoptionSettles(objects, set_);
      forall n | n in Matching(start, sts.selector)
        ensures n in Listed(Settled(objects, set_), set_)
        ensures n in Settled(objects, set_).revisions && Settled(objects, set_).revisions[n].owner == Some(set_.uid)
      {
        ListedIsOwned(Settled(objects, set_), set_, n);
      }
    }
  }

  lemma ListedIsOwned(objects: Objects, set_: AdoptingSet, n: string)
    requires n in Listed(objects, set_) && Orphans(objects, set_) == {}
    ensures n in objects.revisions && objects.revisions[n].owner == Some(set_.uid)
  {
    assert n !in Orphans(objects, set_);
  }

  /** Whether the new set can come to own the old revisions: with no other orphans, some
      adoption calls leave none if and only if none is left, or the selector parses, the set
      is still there, and not both the selector rejects the mark and it reaches a revision
      that is owned already, such as one the controller has created. */
  lemma HandOverSettles(history: seq<Objects>, sts: BuiltinSet, set_: AdoptingSet, uid: string)
    requires Moves(history, sts, set_, uid) && HandsOver(history[0], sts, set_)
    requires var last := history[|history| - 1];
             sts.name !in last.builtin && Orphans(last, set_) <= Matching(history[0], sts.selector)
    ensures var last := history[|history| - 1];
            CanSettle(last, set_)
            <==> Orphans(last, set_) == {}
                 || (sts.selector.Parses() && Live(last, set_)
                     && !(RejectsMark(sts.selector, sts.name) && ReachesOwned(last, set_)))
  {
    assert history != [];
    hide Moves, CanSettle, Orphans, Live, ReachesOwned, RejectsMark, Beyond, OnTheWay, Arrived, Matching;
    var start, last := history[0], history[|history| - 1];
    InterleavedHandOver(history, sts, set_, uid);
    SettlesExactly(last, set_);
    forall n | n in Orphans(last, set_)
      ensures n in last.revisions && (Beyond(last.revisions[n], set_) <==> RejectsMark(sts.selector, sts.name))
    {
      OrphanUnowned(last, set_, n);
      ArrivedBeyond(last.revisions[n], sts, set_);
    }
  }
}
