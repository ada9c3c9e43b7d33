/** Moving a builtin StatefulSet to an advanced one: a sequence of API calls, any of
    which may fail or lose its reply, repeated until the builtin set is gone. */
module Upgrade {
  import opened Pods

  const UPGRADE_ANNOTATION := "apps.pingcap.com/upgrade-to-asts"

  type Labels = map<string, string>

  function Lookup(labels: Labels, key: string): Option<string> {
    if key in labels then Some(labels[key]) else None
  }

  datatype Requirement =
    | In(key: string, values: set<string>)
    | NotIn(key: string, values: set<string>)
    | Exists(key: string)
    | DoesNotExist(key: string)
  {
    predicate Parses() { (In? || NotIn?) ==> values != {} }

    predicate Admits(found: Option<string>) {
      match this
      case In(_, values) => found.Some? && found.value in values
      case NotIn(_, values) => found.None? || found.value !in values
      case Exists(_) => found.Some?
      case DoesNotExist(_) => found.None?
    }
  }

  datatype Selector = Selector(matchLabels: Labels, expressions: seq<Requirement>) {
    predicate Parses() { forall e | e in expressions :: e.Parses() }

    predicate Matches(labels: Labels) {
      && (forall key | key in matchLabels :: Lookup(labels, key) == Some(matchLabels[key]))
      && (forall e | e in expressions :: e.Admits(Lookup(labels, e.key)))
    }
  }

  /** The four kinds of requirement: two pairs of opposites. */
  lemma RequirementsMean(key: string, values: set<string>, found: Option<string>)
    ensures In(key, values).Admits(found) <==> exists v :: v in values && found == Some(v)
    ensures NotIn(key, values).Admits(found) <==> !In(key, values).Admits(found)
    ensures Exists(key).Admits(found) <==> exists v :: found == Some(v)
    ensures DoesNotExist(key).Admits(found) <==> !Exists(key).Admits(found)
  {
    assert found.Some? ==> found == Some(found.value);
  }

  /** A selector parses exactly if each of its requirements could be met by some label and
      missed by some other: only one without values cannot. */
  lemma ParsesExactly(selector: Selector)
    ensures selector.Parses()
            <==> forall e :: e in selector.expressions ==>
                   (exists found: Option<string> :: e.Admits(found)) && (exists found: Option<string> :: !e.Admits(found))
  {
    forall e | e in selector.expressions
      ensures e.Parses() <==> (exists found: Option<string> :: e.Admits(found))
                              && (exists found: Option<string> :: !e.Admits(found))
    {
      assert e.Admits(None) || e.In? || e.Exists?;
      match e
      case In(_, values) =>
        assert !e.Admits(None);
        if values != {} {
          var v :| v in values;
          assert e.Admits(Some(v));
        }
      case NotIn(_, values) =>
        assert e.Admits(None);
        if values != {} {
          var v :| v in values;
          assert !e.Admits(Some(v));
        }
      case Exists(_) => assert e.Admits(Some("")) && !e.Admits(None);
      case DoesNotExist(_) => assert e.Admits(None) && !e.Admits(Some(""));
    }
  }

  /** A ControllerRevision's metadata; `owner` is the UID of its controller. */
  datatype RevisionMeta = RevisionMeta(labels: Labels, owner: Option<string>)

  datatype AdvancedSet = AdvancedSet(uid: string, meta: string, spec: string, status: string)

  /** The objects of one namespace. `builtin` gives each builtin set's UID. */
  datatype Objects = Objects(
    revisions: map<string, RevisionMeta>,
    advanced: map<string, AdvancedSet>,
    builtin: map<string, string>)

  /** The builtin set handed to the upgrade, its parts already converted. */
  datatype BuiltinSet = BuiltinSet(name: string, meta: string, selector: Selector, spec: string, status: string)

  // ------------------------------------------------------------- specification

  /** The labels of a revision marked for the advanced set `name`. */
  function Relabelled(labels: Labels, selector: Selector, name: string): Labels {
    (labels - selector.matchLabels.Keys)[UPGRADE_ANNOTATION := name]
  }

  /** Marking takes a revision out of the selector's reach: the selector names a label
      that marking removes, or rejects the mark itself. */
  ghost predicate Detaches(selector: Selector, name: string) {
    || (exists key :: key in selector.matchLabels
                      && (key != UPGRADE_ANNOTATION || selector.matchLabels[key] != name))
    || (exists e :: e in selector.expressions && e.key == UPGRADE_ANNOTATION && !e.Admits(Some(name)))
  }

  lemma MarkedRevisionMatches(selector: Selector, name: string, labels: Labels)
    requires selector.Matches(labels)
    ensures selector.Matches(Relabelled(labels, selector, name)) <==> !Detaches(selector, name)
  {
    var marked := Relabelled(labels, selector, name);
    assert Lookup(marked, UPGRADE_ANNOTATION) == Some(name);
    forall key | key in selector.matchLabels
      ensures Lookup(marked, key) == if key == UPGRADE_ANNOTATION then Some(name) else None
    {
    }
    if forall key :: key in selector.matchLabels ==> key == UPGRADE_ANNOTATION {
      forall key | key != UPGRADE_ANNOTATION
        ensures Lookup(marked, key) == Lookup(labels, key)
      {
      }
    }
  }

  function Matching(objects: Objects, selector: Selector): set<string> {
    set n | n in objects.revisions && selector.Matches(objects.revisions[n].labels)
  }

  /** The objects once the revisions in `done` are marked. */
  function Marked(objects: Objects, sts: BuiltinSet, done: set<string>): Objects {
    objects.(revisions := map n | n in objects.revisions ::
      if n in done
      then objects.revisions[n].(labels := Relabelled(objects.revisions[n].labels, sts.selector, sts.name))
      else objects.revisions[n])
  }

  /** The objects once the advanced set has its spec; `uid` is what the server gives to
      a set it creates. */
  function Installed(objects: Objects, sts: BuiltinSet, uid: string): Objects {
    objects.(advanced := objects.advanced[sts.name :=
      if sts.name in objects.advanced then objects.advanced[sts.name].(spec := sts.spec)
      else AdvancedSet(uid, sts.meta, sts.spec, "")])
  }

  function Reported(objects: Objects, sts: BuiltinSet): Objects
    requires sts.name in objects.advanced
  {
    objects.(advanced := objects.advanced[sts.name := objects.advanced[sts.name].(status := sts.status)])
  }

  /** Deleting with the orphan policy also takes the deleted owner off its revisions. */
  function Removed(objects: Objects, name: string): Objects {
    if name !in objects.builtin then objects
    else
      objects.(builtin := objects.builtin - {name},
               revisions := map n | n in objects.revisions ::
                 if objects.revisions[n].owner == Some(objects.builtin[name])
                 then objects.revisions[n].(owner := None)
                 else objects.revisions[n])
  }

  function AllMarked(objects: Objects, sts: BuiltinSet): Objects {
    Marked(objects, sts, Matching(objects, sts.selector))
  }

  /** What an uninterrupted upgrade leaves. */
  function Upgraded(objects: Objects, sts: BuiltinSet, uid: string): Objects {
    Removed(Reported(Installed(AllMarked(objects, sts), sts, uid), sts), sts.name)
  }

  /** One attempt, stopped anywhere. */
  ghost predicate Attempt(before: Objects, after: Objects, sts: BuiltinSet, uid: string) {
    || (exists done :: done <= Matching(before, sts.selector) && after == Marked(before, sts, done))
    || after == Installed(AllMarked(before, sts), sts, uid)
    || after == Reported(Installed(AllMarked(before, sts), sts, uid), sts)
    || after == Upgraded(before, sts, uid)
  }

  /** Attempt after attempt. */
  ghost predicate Attempts(history: seq<Objects>, sts: BuiltinSet, uid: string) {
    && history != []
    && forall i :: 0 < i < |history| ==> Attempt(history[i - 1], history[i], sts, uid)
  }

  /** What an uninterrupted upgrade makes of one revision: the selector's revisions lose its
      match labels, get the mark and keep their other labels; those of the builtin set lose
      their owner; nothing else changes. */
  lemma UpgradedRevisions(objects: Objects, sts: BuiltinSet, uid: string, n: string)
    requires n in objects.revisions
    ensures var old_, after := objects.revisions[n], Upgraded(objects, sts, uid);
            && n in after.revisions
            && (forall key :: Lookup(after.revisions[n].labels, key)
                  == if !sts.selector.Matches(old_.labels) then Lookup(old_.labels, key)
                     else if key == UPGRADE_ANNOTATION then Some(sts.name)
                     else if key in sts.selector.matchLabels then None
                     else Lookup(old_.labels, key))
            && after.revisions[n].owner
               == (if sts.name in objects.builtin && old_.owner == Some(objects.builtin[sts.name]) then None
                   else old_.owner)
  {
  }

  /** And of the sets: the builtin set is gone; the advanced one of its name has its spec
      and status, its metadata if it is new, and otherwise its own; all others stay. */
  lemma UpgradedSets(objects: Objects, sts: BuiltinSet, uid: string)
    ensures var after := Upgraded(objects, sts, uid);
            && after.revisions.Keys == objects.revisions.Keys
            && after.builtin == objects.builtin - {sts.name}
            && after.advanced.Keys == objects.advanced.Keys + {sts.name}
            && (forall m :: m in objects.advanced && m != sts.name ==> after.advanced[m] == objects.advanced[m])
            && after.advanced[sts.name].spec == sts.spec && after.advanced[sts.name].status == sts.status
            && (if sts.name in objects.advanced
                then after.advanced[sts.name].uid == objects.advanced[sts.name].uid
                     && after.advanced[sts.name].meta == objects.advanced[sts.name].meta
                else after.advanced[sts.name].uid == uid && after.advanced[sts.name].meta == sts.meta)
  {
  }

  // ---------------------------------------------------------------- crash safety

  lemma MarkingIsFinal(before: Objects, sts: BuiltinSet, done: set<string>)
    requires done <= Matching(before, sts.selector)
    ensures AllMarked(Marked(before, sts, done), sts) == AllMarked(before, sts)
  {
    var after := Marked(before, sts, done);
    var selector := sts.selector;
    forall n | n in before.revisions
      ensures AllMarked(after, sts).revisions[n] == AllMarked(before, sts).revisions[n]
    {
      var labels := before.revisions[n].labels;
      var marked := Relabelled(labels, selector, sts.name);
      assert Relabelled(marked, selector, sts.name) == marked;
      assert n in Matching(before, selector) <==> selector.Matches(labels);
      assert n in Matching(after, selector) <==> selector.Matches(after.revisions[n].labels);
    }
    assert AllMarked(after, sts).revisions == AllMarked(before, sts).revisions;
  }

  /** Marking reads and writes revision labels only, so it commutes with the rest. */
  lemma MarkingIgnoresOwners(a: Objects, b: Objects, sts: BuiltinSet)
    requires a.revisions.Keys == b.revisions.Keys
    requires forall n :: n in a.revisions ==> a.revisions[n].labels == b.revisions[n].labels
    ensures Matching(a, sts.selector) == Matching(b, sts.selector)
  {
    assert forall n :: n in a.revisions.Keys <==> n in b.revisions.Keys;
  }

  /** A complete upgrade of objects whose revisions need no more marking. */
  lemma GoalOnceMarked(objects: Objects, sts: BuiltinSet, uid: string)
    requires AllMarked(objects, sts) == objects
    ensures Upgraded(objects, sts, uid) == Removed(Reported(Installed(objects, sts, uid), sts), sts.name)
  {
  }

  lemma MarkingOnlyRevisions(objects: Objects, other: Objects, sts: BuiltinSet)
    requires AllMarked(objects, sts) == objects && other.revisions == objects.revisions
    ensures AllMarked(other, sts) == other
  {
    MarkingIgnoresOwners(objects, other, sts);
    assert AllMarked(other, sts).revisions == AllMarked(objects, sts).revisions;
  }

  lemma InstalledTwice(objects: Objects, sts: BuiltinSet, uid: string)
    ensures var installed := Installed(objects, sts, uid);
            var reported := Reported(installed, sts);
            && Reported(Installed(installed, sts, uid), sts) == reported
            && Reported(Installed(reported, sts, uid), sts) == reported
  {
    var installed := Installed(objects, sts, uid);
    var reported := Reported(installed, sts);
    assert Installed(installed, sts, uid).advanced == installed.advanced;
    assert Reported(Installed(reported, sts, uid), sts).advanced == reported.advanced;
  }

  /** Removing the builtin set leaves the labels and the new set alone. */
  lemma GoalOnceRemoved(reported: Objects, sts: BuiltinSet, uid: string)
    requires AllMarked(reported, sts) == reported && sts.name in reported.advanced
    requires reported.advanced[sts.name].spec == sts.spec && reported.advanced[sts.name].status == sts.status
    ensures Upgraded(Removed(reported, sts.name), sts, uid) == Removed(reported, sts.name)
  {
    var after := Removed(reported, sts.name);
    MarkingIgnoresOwners(after, reported, sts);
    forall n | n in after.revisions
      ensures AllMarked(after, sts).revisions[n] == after.revisions[n]
    {
      assert AllMarked(reported, sts).revisions[n] == reported.revisions[n];
    }
    assert AllMarked(after, sts).revisions == after.revisions;
    assert Reported(Installed(after, sts, uid), sts).advanced == after.advanced;
  }

  /** Whatever an attempt has done, a complete one from there ends where a complete one
      would have ended at first. */
  lemma AttemptKeepsGoal(before: Objects, after: Objects, sts: BuiltinSet, uid: string)
    requires Attempt(before, after, sts, uid)
    ensures Upgraded(after, sts, uid) == Upgraded(before, sts, uid)
  {
    hide Matching, Marked;
    var marked := AllMarked(before, sts);
    var installed := Installed(marked, sts, uid);
    var reported := Reported(installed, sts);
    MarkingIsFinal(before, sts, Matching(before, sts.selector));
    InstalledTwice(marked, sts, uid);
    MarkingOnlyRevisions(marked, installed, sts);
    MarkingOnlyRevisions(marked, reported, sts);
    if after == installed || after == reported {
      GoalOnceMarked(after, sts, uid);
    } else if after == Removed(reported, sts.name) {
      GoalOnceRemoved(reported, sts, uid);
    } else {
      var done :| done <= Matching(before, sts.selector) && after == Marked(before, sts, done);
      MarkingIsFinal(before, sts, done);
    }
  }

  /** Any number of interrupted attempts followed by a complete one end in the state of
      one uninterrupted upgrade. */
  lemma {:induction false} CrashSafe(history: seq<Objects>, sts: BuiltinSet, uid: string)
    requires Attempts(history, sts, uid)
    ensures Upgraded(history[|history| - 1], sts, uid) == Upgraded(history[0], sts, uid)
  {
    if |history| > 1 {
      var last := |history| - 1;
      CrashSafe(history[..last], sts, uid);
      AttemptKeepsGoal(history[last - 1], history[last], sts, uid);
    }
  }

  /** The new set is complete, and the old selector reaches no revision it reached
      before exactly when marking detaches them. */
  ghost predicate SafelyRemoved(before: Objects, after: Objects, sts: BuiltinSet) {
    && sts.name in after.advanced
    && after.advanced[sts.name].spec == sts.spec
    && after.advanced[sts.name].status == sts.status
    && Matching(after, sts.selector)
       == if Detaches(sts.selector, sts.name) then {} else Matching(before, sts.selector)
  }

  lemma MatchingOnceMarked(before: Objects, sts: BuiltinSet)
    ensures Matching(AllMarked(before, sts), sts.selector)
            == if Detaches(sts.selector, sts.name) then {} else Matching(before, sts.selector)
  {
    forall n | n in Matching(before, sts.selector)
      ensures n in Matching(AllMarked(before, sts), sts.selector) <==> !Detaches(sts.selector, sts.name)
    {
      MarkedRevisionMatches(sts.selector, sts.name, before.revisions[n].labels);
    }
  }

  lemma AttemptRemovesSafely(before: Objects, after: Objects, sts: BuiltinSet, uid: string)
    requires Attempt(before, after, sts, uid)
    ensures after.revisions.Keys == before.revisions.Keys
    ensures sts.name in before.builtin && sts.name !in after.builtin ==> SafelyRemoved(before, after, sts)
  {
    if sts.name in before.builtin && sts.name !in after.builtin {
      MatchingOnceMarked(before, sts);
      MarkingIgnoresOwners(after, AllMarked(before, sts), sts);
    }
  }

  lemma MarkedLabels(objects: Objects, sts: BuiltinSet, done: set<string>, n: string)
    requires n in objects.revisions && done <= Matching(objects, sts.selector)
    ensures var labels := objects.revisions[n].labels;
            var after := Marked(objects, sts, done);
            && n in after.revisions
            && (after.revisions[n].labels == labels
                || (sts.selector.Matches(labels)
                    && after.revisions[n].labels == Relabelled(labels, sts.selector, sts.name)))
  {
  }

  lemma RemovedLabels(objects: Objects, name: string, n: string)
    requires n in objects.revisions
    ensures n in Removed(objects, name).revisions
    ensures Removed(objects, name).revisions[n].labels == objects.revisions[n].labels
  {
  }

  /** What an attempt does to one revision's labels. */
  lemma AttemptLabels(before: Objects, after: Objects, sts: BuiltinSet, uid: string, n: string)
    requires Attempt(before, after, sts, uid) && n in before.revisions
    ensures n in after.revisions
    ensures var labels := before.revisions[n].labels;
            || after.revisions[n].labels == labels
            || (sts.selector.Matches(labels)
                && after.revisions[n].labels == Relabelled(labels, sts.selector, sts.name))
  {
    hide Marked, Matching, Removed, Relabelled;
    if done :| done <= Matching(before, sts.selector) && after == Marked(before, sts, done) {
      MarkedLabels(before, sts, done, n);
    } else {
      MarkedLabels(before, sts, Matching(before, sts.selector), n);
      RemovedLabels(Reported(Installed(AllMarked(before, sts), sts, uid), sts), sts.name, n);
    }
  }

  /** Once the builtin set is gone and its successor complete, they stay so. */
  lemma AttemptKeepsSuccessor(before: Objects, after: Objects, sts: BuiltinSet, uid: string)
    requires Attempt(before, after, sts, uid)
    requires sts.name !in before.builtin && sts.name in before.advanced
    requires before.advanced[sts.name].spec == sts.spec && before.advanced[sts.name].status == sts.status
    ensures sts.name !in after.builtin && after.advanced == before.advanced
  {
    hide Matching;
    var installed := Installed(AllMarked(before, sts), sts, uid);
    assert installed.advanced == before.advanced;
    assert Reported(installed, sts).advanced == before.advanced;
  }

  /** An attempt never makes the selector reach more, and no less if marking does not
      detach. */
  lemma AttemptKeepsReach(before: Objects, after: Objects, sts: BuiltinSet, uid: string)
    requires Attempt(before, after, sts, uid) && after.revisions.Keys == before.revisions.Keys
    ensures Matching(after, sts.selector) <= Matching(before, sts.selector)
    ensures !Detaches(sts.selector, sts.name) ==> Matching(after, sts.selector) == Matching(before, sts.selector)
  {
    hide Attempt, Detaches, Relabelled;
    forall n | n in before.revisions
      ensures n in Matching(after, sts.selector) ==> n in Matching(before, sts.selector)
      ensures !Detaches(sts.selector, sts.name) && n in Matching(before, sts.selector)
              ==> n in Matching(after, sts.selector)
    {
      AttemptLabels(before, after, sts, uid, n);
      if sts.selector.Matches(before.revisions[n].labels) {
        MarkedRevisionMatches(sts.selector, sts.name, before.revisions[n].labels);
      }
    }
  }

  /** Over any number of attempts, the builtin set is gone only once its successor has
      the spec and the status and, if the selector detaches, no revision matches it. No
      revision is ever deleted. */
  lemma {:induction false} NeverRemovedEarly(history: seq<Objects>, sts: BuiltinSet, uid: string)
    requires Attempts(history, sts, uid)
    ensures history[|history| - 1].revisions.Keys == history[0].revisions.Keys
    ensures !Detaches(sts.selector, sts.name)
            ==> Matching(history[|history| - 1], sts.selector) == Matching(history[0], sts.selector)
    ensures sts.name in history[0].builtin && sts.name !in history[|history| - 1].builtin
            ==> SafelyRemoved(history[0], history[|history| - 1], sts)
  {
    hide Attempt, Detaches, Matching;
    var last := |history| - 1;
    if last > 0 {
      NeverRemovedEarly(history[..last], sts, uid);
      AttemptRemovesSafely(history[last - 1], history[last], sts, uid);
      if sts.name in history[0].builtin && sts.name !in history[last - 1].builtin {
        AttemptKeepsSuccessor(history[last - 1], history[last], sts, uid);
      }
      AttemptKeepsReach(history[last - 1], history[last], sts, uid);
    }
  }

  /** A selector without labels does not detach, and the builtin set goes while a
      revision still matches. */
  lemma ExpressionsDoNotDetach(name: string)
    ensures var selector := Selector(map[], [Exists("app")]);
            var sts := BuiltinSet(name, "", selector, "", "");
            var before := Objects(map["r" := RevisionMeta(map["app" := "db"], Some("u"))], map[], map[name := "u"]);
            var after := Upgraded(before, sts, "v");
            name !in after.builtin && Matching(after, selector) == {"r"}
  {
    var selector := Selector(map[], [Exists("app")]);
    var sts := BuiltinSet(name, "", selector, "", "");
    var labels: Labels := map["app" := "db"];
    var before := Objects(map["r" := RevisionMeta(labels, Some("u"))], map[], map[name := "u"]);
    assert Lookup(labels, "app") == Some("db");
    assert Matching(before, selector) == {"r"};
    MatchingOnceMarked(before, sts);
    MarkingIgnoresOwners(Upgraded(before, sts, "v"), AllMarked(before, sts), sts);
  }

  // ------------------------------------------------------------------- the code

  /** How the server treats a call: it may do it and reply, refuse it, or do it while
      the reply is lost. */
  datatype Fate = Replies | Refuses | LosesReply

  /** The API server. `newUid` is the UID of the next set it creates. */
  class KubeApi {
    const fate: nat -> Fate
    const newUid: string
    var objects: Objects
    var calls: nat

    constructor (objects: Objects, fate: nat -> Fate, newUid: string)
      ensures this.objects == objects && this.fate == fate && this.newUid == newUid && calls == 0
    {
      this.objects, this.fate, this.newUid, calls := objects, fate, newUid, 0;
    }

    /** A call that would take the objects to `next`. */
    method Write(next: Objects) returns (ok: bool)
      modifies this
      ensures calls == old(calls) + 1
      ensures ok == fate(old(calls)).Replies?
      ensures objects == if fate(old(calls)).Refuses? then old(objects) else next
    {
      ok := fate(calls).Replies?;
      if !fate(calls).Refuses? {
        objects := next;
      }
      calls := calls + 1;
    }

    /** The revisions a selector matches, in some order. */
    method List(selector: Selector) returns (ok: bool, names: seq<string>)
      modifies `calls
      ensures calls == old(calls) + 1
      ensures ok == fate(old(calls)).Replies?
      ensures forall n :: n in names <==> n in Matching(objects, selector)
      ensures forall i, j :: 0 <= i < j < |names| ==> names[i] != names[j]
    {
      var rest := Matching(objects, selector);
      names := [];
      while rest != {}
        invariant rest <= Matching(objects, selector)
        invariant forall n :: n in names <==> n in Matching(objects, selector) - rest
        invariant forall i, j :: 0 <= i < j < |names| ==> names[i] != names[j]
        decreases |rest|
      {
        var n :| n in rest;
        assert n !in names;
        names, rest := names + [n], rest - {n};
      }
      ok := fate(calls).Replies?;
      calls := calls + 1;
    }

    method Get(name: string) returns (ok: bool, found: bool)
      modifies `calls
      ensures calls == old(calls) + 1
      ensures ok == fate(old(calls)).Replies? && found == (name in objects.advanced)
    {
      ok, found := fate(calls).Replies?, name in objects.advanced;
      calls := calls + 1;
    }
  }

  datatype Outcome = Done(upgraded: AdvancedSet) | Stopped | Crashed

  method DeleteKeys(labels: Labels, keys: set<string>) returns (rest: Labels)
    ensures rest == labels - keys
  {
    rest := labels;
    var left := keys;
    while left != {}
      invariant left <= keys && rest - left == labels - keys
      decreases |left|
    {
      var key :| key in left;
      assert (rest - {key}) - (left - {key}) == rest - left;
      rest, left := rest - {key}, left - {key};
    }
  }

  /** Delete the selector's labels and set the mark. */
  method MarkLabels(labels: Labels, sts: BuiltinSet) returns (marked: Labels)
    ensures marked == Relabelled(labels, sts.selector, sts.name)
  {
    marked := DeleteKeys(labels, sts.selector.matchLabels.Keys);
    marked := marked[UPGRADE_ANNOTATION := sts.name];
  }

  /** The loop over the listed revisions. A revision without labels has a nil label
      map, which cannot be written. */
  method MarkRevisions(api: KubeApi, sts: BuiltinSet, names: seq<string>) returns (ok: bool, crashed: bool)
    requires forall n :: n in names <==> n in Matching(api.objects, sts.selector)
    requires forall i, j :: 0 <= i < j < |names| ==> names[i] != names[j]
    modifies api
    ensures exists done :: done <= Matching(old(api.objects), sts.selector)
                           && api.objects == Marked(old(api.objects), sts, done)
    ensures ok ==> !crashed && api.objects == AllMarked(old(api.objects), sts)
    ensures crashed ==> Unlabelled(old(api.objects), sts.selector)
    ensures ok ==> !Unlabelled(old(api.objects), sts.selector)
    ensures (forall i :: api.fate(i).Replies?) ==> ok || crashed
  {
    ghost var before := api.objects;
    ghost var done: set<string> := {};
    assert Marked(before, sts, {}) == before by {
      assert Marked(before, sts, {}).revisions == before.revisions;
    }
    for i := 0 to |names|
      invariant done == set n | n in names[..i]
      invariant api.objects == Marked(before, sts, done)
      invariant forall n :: n in done ==> n in before.revisions && before.revisions[n].labels != map[]
    {
      var n := names[i];
      assert n in names && n !in done;
      var revision := api.objects.revisions[n];
      if revision.labels == map[] {
        return false, true;
      }
      var labels := MarkLabels(revision.labels, sts);
      var next := api.objects.(revisions := api.objects.revisions[n := revision.(labels := labels)]);
      assert next.revisions == Marked(before, sts, done + {n}).revisions;
      var updated := api.Write(next);
      if !updated {
        return false, false;
      }
      done := done + {n};
    }
    assert done == Matching(before, sts.selector);
    return true, false;
  }

  /** Some revision the selector reaches has no labels. */
  ghost predicate Unlabelled(objects: Objects, selector: Selector) {
    exists n :: n in Matching(objects, selector) && objects.revisions[n].labels == map[]
  }

  /** Only a selector that asks for no label reaches such a revision. */
  lemma UnlabelledSelector(objects: Objects, selector: Selector)
    ensures Unlabelled(objects, selector)
            <==> selector.Matches(map[])
                 && exists n :: n in objects.revisions && objects.revisions[n].labels == map[]
  {
    if selector.Matches(map[]) && exists n :: n in objects.revisions && objects.revisions[n].labels == map[] {
      var n :| n in objects.revisions && objects.revisions[n].labels == map[];
      assert n in Matching(objects, selector);
    }
  }

  /** The upgrade. Without API failures it completes unless the selector does not parse
      or a revision it reaches has no labels. */
  method Upgrade(api: KubeApi, sts: BuiltinSet) returns (outcome: Outcome)
    modifies api
    ensures Attempt(old(api.objects), api.objects, sts, api.newUid)
    ensures outcome.Done?
            ==> api.objects == Upgraded(old(api.objects), sts, api.newUid)
                && api.objects.advanced[sts.name] == outcome.upgraded
                && sts.selector.Parses() && !Unlabelled(old(api.objects), sts.selector)
    ensures outcome.Crashed? ==> Unlabelled(old(api.objects), sts.selector)
    ensures (forall i :: api.fate(i).Replies?)
            ==> && (outcome.Done? <==> sts.selector.Parses() && !Unlabelled(old(api.objects), sts.selector))
                && (outcome.Crashed? <==> sts.selector.Parses() && Unlabelled(old(api.objects), sts.selector))
    ensures !sts.selector.Parses() ==> outcome.Stopped? && api.objects == old(api.objects) && api.calls == old(api.calls)
  {
    ghost var before := api.objects;
    assert Marked(before, sts, {}) == before by {
      assert Marked(before, sts, {}).revisions == before.revisions;
    }
    if !sts.selector.Parses() {
      return Stopped;
    }
    var listed, names := api.List(sts.selector);
    if !listed {
      return Stopped;
    }
    var marked, crashed := MarkRevisions(api, sts, names);
    if !marked {
      return if crashed then Crashed else Stopped;
    }
    var got, found := api.Get(sts.name);
    if !got {
      return Stopped;
    }
    var upgraded: AdvancedSet;
    if !found {
      upgraded := AdvancedSet(api.newUid, sts.meta, sts.spec, "");
    } else {
      upgraded := api.objects.advanced[sts.name].(spec := sts.spec);
    }
    var installed := api.Write(api.objects.(advanced := api.objects.advanced[sts.name := upgraded]));
    if !installed {
      return Stopped;
    }
    upgraded := upgraded.(status := sts.status);
    var reported := api.Write(api.objects.(advanced := api.objects.advanced[sts.name := upgraded]));
    if !reported {
      return Stopped;
    }
    var removed := api.Write(Removed(api.objects, sts.name));
    if !removed {
      return Stopped;
    }
    return Done(upgraded);
  }
}
