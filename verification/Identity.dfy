/** The identity and the storage of a pod: checking them, repairing them in place, and
    building new pods that have them. */
module Identity {
  import opened Pods
  import Names
  import Slots

  const POD_NAME_LABEL := "statefulset.kubernetes.io/pod-name"
  const REVISION_LABEL := "controller-revision-hash"

  /** A volume of a pod: its claim, if it is backed by one, or some other source. */
  datatype Volume = Volume(name: string, claim: Option<string>, source: string)

  /** The part of the set that a revision replaces. */
  datatype Template = Template(labels: map<string, string>, volumes: seq<Volume>)

  /** The set as far as its pods' identity and storage go. `claims` are the names of
      its volume claim templates. */
  datatype StatefulSet = StatefulSet(
    name: string,
    namespace: string,
    serviceName: string,
    claims: seq<string>,
    template: Template)

  /** The labels of a pod, on which a nil map reads like an empty one. */
  function LabelMap(labels: Option<map<string, string>>): map<string, string> {
    if labels.Some? then labels.value else map[]
  }

  class PodObject {
    var name: string
    var namespace: string
    var labels: Option<map<string, string>>
    var volumes: seq<Volume>
    var hostname: string
    var subdomain: string
    var phase: Phase
    var ready: bool
    var terminating: bool

    /** controller.GetPodFromTemplate: a pod that is not created yet. */
    constructor FromTemplate(template: Template)
      ensures labels == Some(template.labels) && volumes == template.volumes
      ensures phase == NoPhase && !ready && !terminating
    {
      name, namespace, hostname, subdomain := "", "", "", "";
      labels, volumes := Some(template.labels), template.volumes;
      phase, ready, terminating := NoPhase, false, false;
    }

    /** A label, or the empty string. */
    function Label(key: string): string
      reads `labels
    {
      if labels.Some? && key in labels.value then labels.value[key] else ""
    }

    method SetLabel(key: string, value: string)
      modifies this`labels
      ensures labels == Some(LabelMap(old(labels))[key := value])
    {
      if labels.None? {
        labels := Some(map[]);
      }
      labels := Some(labels.value[key := value]);
    }
  }

  // ----------------------------------------------------------------- checking

  /** The name belongs to a pod of the set. */
  predicate NameMatches(setName: string, name: string) {
    var (parent, ordinal) := Names.ParentNameAndOrdinal(name);
    0 <= ordinal && setName == parent && name == Names.PodName(setName, ordinal)
  }

  predicate IdentityMatches(set_: StatefulSet, pod: PodObject)
    reads pod`name, pod`namespace, pod`labels
  {
    && NameMatches(set_.name, pod.name)
    && pod.namespace == set_.namespace
    && pod.Label(POD_NAME_LABEL) == pod.name
  }

  /** The last volume with this name. */
  function VolumeNamed(volumes: seq<Volume>, name: string): (found: Option<Volume>)
    ensures found.Some? ==> found.value in volumes && found.value.name == name
    ensures found.None? ==> forall v :: v in volumes ==> v.name != name
  {
    if volumes == [] then None
    else if volumes[|volumes| - 1].name == name then Some(volumes[|volumes| - 1])
    else VolumeNamed(volumes[..|volumes| - 1], name)
  }

  /** Of several volumes with one name the last one counts. */
  lemma {:induction false} LastVolumeWins(volumes: seq<Volume>, k: nat)
    requires k < |volumes| && forall j :: k < j < |volumes| ==> volumes[j].name != volumes[k].name
    ensures VolumeNamed(volumes, volumes[k].name) == Some(volumes[k])
  {
    if k < |volumes| - 1 {
      LastVolumeWins(volumes[..|volumes| - 1], k);
    }
  }

  /** The volume of every claim template refers to the claim of this ordinal. */
  ghost predicate StorageMatches(set_: StatefulSet, volumes: seq<Volume>, ordinal: int) {
    && 0 <= ordinal
    && forall c :: c in set_.claims ==>
         VolumeNamed(volumes, c).Some?
         && VolumeNamed(volumes, c).value.claim == Some(Names.ClaimName(c, set_.name, ordinal))
  }

  /** The map from names to volumes that a scan of the list builds. */
  ghost predicate Indexed(volumes: seq<Volume>, index: map<string, Volume>) {
    forall n :: if n in index then VolumeNamed(volumes, n) == Some(index[n])
                else VolumeNamed(volumes, n) == None
  }

  method IndexVolumes(volumes: seq<Volume>) returns (index: map<string, Volume>)
    ensures Indexed(volumes, index)
  {
    index := map[];
    for i := 0 to |volumes|
      invariant Indexed(volumes[..i], index)
    {
      assert volumes[..i + 1][..i] == volumes[..i];
      index := index[volumes[i].name := volumes[i]];
    }
    assert volumes[..|volumes|] == volumes;
  }

  method CheckVolumes(set_: StatefulSet, volumes: seq<Volume>, ordinal: int) returns (matches: bool)
    ensures matches == StorageMatches(set_, volumes, ordinal)
  {
    if ordinal < 0 {
      return false;
    }
    var index := IndexVolumes(volumes);
    for i := 0 to |set_.claims|
      invariant forall c :: c in set_.claims[..i] ==>
                  c in index && index[c].claim == Some(Names.ClaimName(c, set_.name, ordinal))
    {
      var claim := set_.claims[i];
      if claim !in index || index[claim].claim != Some(Names.ClaimName(claim, set_.name, ordinal)) {
        assert claim in set_.claims;
        return false;
      }
      assert set_.claims[..i + 1] == set_.claims[..i] + [claim];
    }
    assert set_.claims[..|set_.claims|] == set_.claims;
    matches := true;
  }

  /** storageMatches */
  method CheckStorage(set_: StatefulSet, pod: PodObject) returns (matches: bool)
    ensures matches == StorageMatches(set_, pod.volumes, Names.Ordinal(pod.name))
  {
    matches := CheckVolumes(set_, pod.volumes, Names.Ordinal(pod.name));
  }

  // ----------------------------------------------------------------- repairing

  /** The claims of a pod by template name. */
  function ClaimsFor(set_: StatefulSet, ordinal: int): map<string, string> {
    map c | c in set_.claims :: Names.ClaimName(c, set_.name, ordinal)
  }

  /** getPersistentVolumeClaims */
  method GetPersistentVolumeClaims(set_: StatefulSet, ordinal: int) returns (claims: map<string, string>)
    ensures claims == ClaimsFor(set_, ordinal)
  {
    claims := map[];
    for i := 0 to |set_.claims|
      invariant claims == map c | c in set_.claims[..i] :: Names.ClaimName(c, set_.name, ordinal)
    {
      assert set_.claims[..i + 1] == set_.claims[..i] + [set_.claims[i]];
      claims := claims[set_.claims[i] := Names.ClaimName(set_.claims[i], set_.name, ordinal)];
    }
    assert set_.claims[..|set_.claims|] == set_.claims;
  }

  /** The volumes that do not stand for a claim, in order. */
  function Others(volumes: seq<Volume>, names: set<string>): (out: seq<Volume>)
    ensures forall v :: v in out <==> v in volumes && v.name !in names
  {
    if volumes == [] then []
    else
      Others(volumes[..|volumes| - 1], names)
      + if volumes[|volumes| - 1].name in names then [] else [volumes[|volumes| - 1]]
  }

  /** The others come in their order, each as often as it is there. */
  lemma {:induction false} OthersConcat(a: seq<Volume>, b: seq<Volume>, names: set<string>)
    ensures Others(a + b, names) == Others(a, names) + Others(b, names)
  {
    if b == [] {
      assert a + b == a;
    } else {
      assert (a + b)[..|a + b| - 1] == a + b[..|b| - 1];
      OthersConcat(a, b[..|b| - 1], names);
    }
  }

  /** One volume for each claim, in whichever order the map is iterated. */
  ghost predicate ClaimVolumes(claims: map<string, string>, volumes: seq<Volume>) {
    && (forall v :: v in volumes ==> v.name in claims && v == Volume(v.name, Some(claims[v.name]), ""))
    && (forall c :: c in claims ==> Volume(c, Some(claims[c]), "") in volumes)
    && (forall i, j :: 0 <= i < j < |volumes| ==> volumes[i] != volumes[j])
  }

  /** What updateStorage may make of the volumes: the claims' volumes in any order,
      then the others in theirs. */
  ghost predicate Rearranged(set_: StatefulSet, ordinal: int, before: seq<Volume>, after: seq<Volume>) {
    exists claimVolumes ::
      ClaimVolumes(ClaimsFor(set_, ordinal), claimVolumes)
      && after == claimVolumes + Others(before, ClaimsFor(set_, ordinal).Keys)
  }

  /** The claims' volumes come first, and what follows are the other volumes of before. */
  lemma ClaimsComeFirst(set_: StatefulSet, ordinal: int, before: seq<Volume>, after: seq<Volume>)
    requires Rearranged(set_, ordinal, before, after)
    ensures exists k: nat ::
              && k <= |after| && (forall i :: 0 <= i < k ==> after[i].name in set_.claims)
              && after[k..] == Others(before, ClaimsFor(set_, ordinal).Keys)
  {
    hide Names.ClaimName;
    var claimVolumes :| ClaimVolumes(ClaimsFor(set_, ordinal), claimVolumes)
                        && after == claimVolumes + Others(before, ClaimsFor(set_, ordinal).Keys);
    var k := |claimVolumes|;
    forall i | 0 <= i < k
      ensures after[i].name in set_.claims
    {
      assert claimVolumes[i] in claimVolumes && after[i] == claimVolumes[i];
    }
    assert after[k..] == Others(before, ClaimsFor(set_, ordinal).Keys);
  }

  method ArrangeVolumes(set_: StatefulSet, ordinal: int, currentVolumes: seq<Volume>)
    returns (newVolumes: seq<Volume>)
    ensures Rearranged(set_, ordinal, currentVolumes, newVolumes)
  {
    var claims := GetPersistentVolumeClaims(set_, ordinal);
    hide ClaimVolumes, ClaimsFor, Names.ClaimName;
    newVolumes := CollectClaimVolumes(claims);
    ghost var claimVolumes := newVolumes;
    for i := 0 to |currentVolumes|
      invariant newVolumes == claimVolumes + Others(currentVolumes[..i], claims.Keys)
    {
      assert currentVolumes[..i + 1][..i] == currentVolumes[..i];
      if currentVolumes[i].name !in claims {
        newVolumes := newVolumes + [currentVolumes[i]];
      }
    }
    assert currentVolumes[..|currentVolumes|] == currentVolumes;
  }

  /** updateStorage, for every iteration order of the claims. */
  method UpdateStorage(set_: StatefulSet, pod: PodObject)
    modifies pod`volumes
    ensures Rearranged(set_, Names.Ordinal(pod.name), old(pod.volumes), pod.volumes)
    ensures StorageMatches(set_, pod.volumes, Names.Ordinal(pod.name)) <==> 0 <= Names.Ordinal(pod.name)
  {
    var ordinal := Names.Ordinal(pod.name);
    var currentVolumes := pod.volumes;
    var newVolumes := ArrangeVolumes(set_, ordinal, currentVolumes);
    RearrangedMatches(set_, ordinal, currentVolumes, newVolumes);
    pod.volumes := newVolumes;
  }

  method CollectClaimVolumes(claims: map<string, string>) returns (volumes: seq<Volume>)
    ensures ClaimVolumes(claims, volumes)
  {
    volumes := [];
    var rest := claims.Keys;
    while rest != {}
      invariant rest <= claims.Keys
      invariant forall v :: v in volumes ==>
                  v.name in claims && v.name !in rest && v == Volume(v.name, Some(claims[v.name]), "")
      invariant forall c :: c in claims && c !in rest ==> Volume(c, Some(claims[c]), "") in volumes
      invariant forall i, j :: 0 <= i < j < |volumes| ==> volumes[i] != volumes[j]
      decreases |rest|
    {
      var name := Slots.Pick(rest);
      var volume := Volume(name, Some(claims[name]), "");
      assert volume !in volumes;
      volumes := volumes + [volume];
      rest := rest - {name};
    }
  }

  lemma RearrangedMatches(set_: StatefulSet, ordinal: int, before: seq<Volume>, after: seq<Volume>)
    requires Rearranged(set_, ordinal, before, after)
    ensures StorageMatches(set_, after, ordinal) <==> 0 <= ordinal
  {
    var claimVolumes :| ClaimVolumes(ClaimsFor(set_, ordinal), claimVolumes)
                        && after == claimVolumes + Others(before, ClaimsFor(set_, ordinal).Keys);
    RepairedStorage(set_, ordinal, claimVolumes, Others(before, ClaimsFor(set_, ordinal).Keys));
  }

  lemma RepairedStorage(set_: StatefulSet, ordinal: int, claimVolumes: seq<Volume>, others: seq<Volume>)
    requires ClaimVolumes(ClaimsFor(set_, ordinal), claimVolumes)
    requires forall v :: v in others ==> v.name !in ClaimsFor(set_, ordinal)
    ensures 0 <= ordinal ==> StorageMatches(set_, claimVolumes + others, ordinal)
  {
    var claims := ClaimsFor(set_, ordinal);
    forall c | c in set_.claims
      ensures VolumeNamed(claimVolumes + others, c) == Some(Volume(c, Some(claims[c]), ""))
    {
      var v := Volume(c, Some(claims[c]), "");
      assert v in claimVolumes && v in claimVolumes + others;
      var found := VolumeNamed(claimVolumes + others, c);
      assert found.value in claimVolumes;
    }
  }

  /** updateIdentity repairs the identity if and only if the pod has an ordinal, given
      that the set's name is a single line. */
  method UpdateIdentity(set_: StatefulSet, pod: PodObject)
    modifies pod`name, pod`namespace, pod`labels
    ensures pod.name == Names.PodName(set_.name, Names.Ordinal(old(pod.name)))
    ensures pod.namespace == set_.namespace && pod.Label(POD_NAME_LABEL) == pod.name
    ensures pod.labels == Some(LabelMap(old(pod.labels))[POD_NAME_LABEL := pod.name])
    ensures IdentityMatches(set_, pod) <==> 0 <= Names.Ordinal(old(pod.name)) && '\n' !in set_.name
    ensures 0 <= Names.Ordinal(old(pod.name)) ==> Names.Ordinal(pod.name) == Names.Ordinal(old(pod.name))
  {
    var ordinal := Names.Ordinal(pod.name);
    pod.name := Names.PodName(set_.name, ordinal);
    pod.namespace := set_.namespace;
    pod.SetLabel(POD_NAME_LABEL, pod.name);
    RepairedName(set_.name, ordinal);
  }

  /** Which generated names parse back to the set. */
  lemma RepairedName(setName: string, ordinal: int)
    requires -1 <= ordinal <= Slots.MAX_INT32
    ensures NameMatches(setName, Names.PodName(setName, ordinal)) <==> 0 <= ordinal && '\n' !in setName
    ensures 0 <= ordinal ==> Names.Ordinal(Names.PodName(setName, ordinal)) == ordinal
  {
    hide Names.ParentNameAndOrdinal, Names.PodName, Names.LastLine;
    Names.ParseRoundTrip(setName, ordinal);
    Names.ParsePodName(setName, ordinal);
    LastLineLonger(setName);
  }

  /** A set's name with a dash appended is not a set's last line. */
  lemma LastLineLonger(setName: string)
    ensures Names.LastLine(setName + "-") != setName
  {
    hide Names.LastIndex;
    var s := setName + "-";
    var i := Names.LastIndex(s, '\n');
    var line := Names.LastLine(s);
    assert line == s[i + 1..] && |line| == |s| - i - 1;
    if i == 0 {
      assert s[0] == '\n' && setName != "";
      assert setName[0] == s[0];
      assert line[0] == s[1];
    }
  }

  // ------------------------------------------------------------------ new pods

  /** newStatefulSetPod */
  method NewStatefulSetPod(set_: StatefulSet, ordinal: nat) returns (pod: PodObject)
    requires ordinal <= Slots.MAX_INT32
    ensures fresh(pod)
    ensures pod.name == Names.PodName(set_.name, ordinal) && pod.hostname == pod.name
    ensures pod.subdomain == set_.serviceName && Names.Ordinal(pod.name) == ordinal
    ensures IdentityMatches(set_, pod) <==> '\n' !in set_.name
    ensures StorageMatches(set_, pod.volumes, ordinal)
    ensures pod.phase == NoPhase && !pod.ready && !pod.terminating
    ensures FromItsTemplate(set_, ordinal, set_.template.labels, pod)
  {
    hide Names.ParentNameAndOrdinal, Names.PodName;
    pod := new PodObject.FromTemplate(set_.template);
    pod.name := Names.PodName(set_.name, ordinal);
    RepairedName(set_.name, ordinal);
    InitIdentity(set_, pod);
    UpdateStorage(set_, pod);
  }

  /** The pod has these labels, with its name as the pod-name label, the volumes of the
      set's template with those of its claims in front, and the set's namespace. */
  ghost predicate FromItsTemplate(set_: StatefulSet, ordinal: int, labels: map<string, string>, pod: PodObject)
    reads pod
  {
    && pod.labels == Some(labels[POD_NAME_LABEL := Names.PodName(set_.name, ordinal)])
    && Rearranged(set_, ordinal, set_.template.volumes, pod.volumes)
    && pod.namespace == set_.namespace
  }

  /** initIdentity */
  method InitIdentity(set_: StatefulSet, pod: PodObject)
    requires 0 <= Names.Ordinal(pod.name)
    modifies pod`name, pod`namespace, pod`labels, pod`hostname, pod`subdomain
    ensures pod.name == Names.PodName(set_.name, Names.Ordinal(old(pod.name)))
    ensures pod.hostname == pod.name && pod.subdomain == set_.serviceName
    ensures pod.labels == Some(LabelMap(old(pod.labels))[POD_NAME_LABEL := pod.name])
    ensures pod.namespace == set_.namespace
    ensures IdentityMatches(set_, pod) <==> '\n' !in set_.name
  {
    hide Names.ParentNameAndOrdinal, Names.PodName;
    UpdateIdentity(set_, pod);
    pod.hostname := pod.name;
    pod.subdomain := set_.serviceName;
  }

  /** What a sync reads from the pod. */
  ghost function Observed(set_: StatefulSet, pod: PodObject): Pod
    reads pod
  {
    Pod(pod.name, Names.Ordinal(pod.name), pod.Label(REVISION_LABEL), pod.phase, pod.ready, pod.terminating,
        IdentityMatches(set_, pod) && StorageMatches(set_, pod.volumes, Names.Ordinal(pod.name)))
  }

  /** setPodRevision */
  method SetPodRevision(pod: PodObject, revision: string)
    modifies pod`labels
    ensures pod.labels == Some(LabelMap(old(pod.labels))[REVISION_LABEL := revision])
    ensures pod.Label(REVISION_LABEL) == revision
    ensures pod.Label(POD_NAME_LABEL) == old(pod.Label(POD_NAME_LABEL))
  {
    pod.SetLabel(REVISION_LABEL, revision);
    assert POD_NAME_LABEL[0] != REVISION_LABEL[0];
  }

  lemma LabelsCommute(labels: map<string, string>, name: string, revision: string)
    ensures labels[POD_NAME_LABEL := name][REVISION_LABEL := revision]
            == labels[REVISION_LABEL := revision][POD_NAME_LABEL := name]
  {
    assert POD_NAME_LABEL[0] != REVISION_LABEL[0];
  }

  /** newVersionedStatefulSetPod builds exactly the new pod of the sync, or panics on a
      block without a partition. The two sets differ from `set_` in their templates only. */
  method NewVersionedStatefulSetPod(set_: StatefulSet, currentTemplate: Template, updateTemplate: Template,
                                    g: Goal, ordinal: nat)
    returns (pod: PodObject?)
    requires g.setName == set_.name && '\n' !in set_.name && ordinal <= Slots.MAX_INT32
    ensures pod == null <==> g.LacksPartition()
    ensures pod != null ==> fresh(pod) && Observed(set_, pod) == g.NewPod(ordinal)
    ensures pod != null ==>
              var template := if g.UsesCurrent(ordinal) then currentTemplate else updateTemplate;
              FromItsTemplate(set_.(template := template), ordinal,
                              template.labels[REVISION_LABEL := g.NewPod(ordinal).revision], pod)
    ensures pod != null ==> pod.hostname == pod.name && pod.subdomain == set_.serviceName
  {
    hide Names.ParentNameAndOrdinal;
    if g.rollingUpdate.Some? && g.rollingUpdate.value.None? {
      return null; // *Partition is read whatever the type
    }
    var current := (g.strategy.RollingUpdate? && g.rollingUpdate.None? && ordinal < g.currentReplicas)
                   || (g.rollingUpdate.Some? && ordinal < g.rollingUpdate.value.value);
    var restored := set_.(template := if current then currentTemplate else updateTemplate);
    var built := NewStatefulSetPod(restored, ordinal);
    assert StorageMatches(set_, built.volumes, ordinal);
    hide Names.PodName, Rearranged, StorageMatches, NameMatches;
    LabelsCommute(restored.template.labels, built.name, if current then g.current else g.update);
    SetPodRevision(built, if current then g.current else g.update);
    pod := built;
  }
}
