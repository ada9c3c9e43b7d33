/** Creating and repairing pods through the API server. */
module PodControl {
  import opened Pods
  import opened Identity
  import Names
  import Slots

  /** What is submitted of a pod. */
  datatype PodData = PodData(
    name: string,
    namespace: string,
    labels: Option<map<string, string>>,
    volumes: seq<Volume>)

  function Submitted(pod: PodObject): PodData
    reads pod
  {
    PodData(pod.name, pod.namespace, pod.labels, pod.volumes)
  }

  function LabelOf(data: PodData, key: string): string {
    if data.labels.Some? && key in data.labels.value then data.labels.value[key] else ""
  }

  /** The submitted pod has the identity and the storage the set demands. */
  ghost predicate Conforms(set_: StatefulSet, data: PodData, ordinal: int) {
    && data.name == Names.PodName(set_.name, ordinal)
    && data.namespace == set_.namespace
    && LabelOf(data, POD_NAME_LABEL) == data.name
    && StorageMatches(set_, data.volumes, ordinal)
  }

  datatype Reply = Accepted | Conflict | OtherError

  /** The API server and the controller's caches. `claimCache` and `podCache` are the
      listers' views; a claim in `lookupFails` cannot be looked up and one in
      `createFails` cannot be created; pod updates are answered by `replies`. */
  class Server {
    const claimCache: set<string>
    const lookupFails: set<string>
    const createFails: set<string>
    const podCache: map<string, PodData>
    const replies: nat -> Reply
    const createReply: Reply
    var claims: set<string>
    var updates: seq<PodData>
    var created: seq<PodData>

    constructor (claims: set<string>, claimCache: set<string>, lookupFails: set<string>,
                 createFails: set<string>, podCache: map<string, PodData>,
                 replies: nat -> Reply, createReply: Reply)
      ensures this.claims == claims && updates == [] && created == []
      ensures this.claimCache == claimCache && this.podCache == podCache
      ensures this.lookupFails == lookupFails && this.createFails == createFails
      ensures this.replies == replies && this.createReply == createReply
    {
      this.claims, this.claimCache := claims, claimCache;
      this.lookupFails, this.createFails := lookupFails, createFails;
      this.podCache, this.replies, this.createReply := podCache, replies, createReply;
      updates, created := [], [];
    }

    /** Whether this claim ends up available. */
    predicate Obtains(claim: string, existing: set<string>) {
      claim !in lookupFails && (claim in claimCache || (claim !in existing && claim !in createFails))
    }

    /** Whether this claim is created if it does not exist yet. */
    predicate Attempts(claim: string) {
      claim !in lookupFails && claim !in claimCache && claim !in createFails
    }

    /** Create a claim; fails if it exists. */
    method CreateClaim(claim: string) returns (ok: bool)
      modifies `claims
      ensures ok == (claim !in old(claims) && claim !in createFails)
      ensures claims == if ok then old(claims) + {claim} else old(claims)
    {
      ok := claim !in claims && claim !in createFails;
      if ok {
        claims := claims + {claim};
      }
    }

    method UpdatePod(data: PodData) returns (reply: Reply)
      modifies `updates
      ensures updates == old(updates) + [data] && reply == replies(|old(updates)|)
    {
      reply := replies(|updates|);
      updates := updates + [data];
    }

    method CreatePod(data: PodData) returns (ok: bool)
      modifies `created
      ensures created == old(created) + [data] && ok == createReply.Accepted?
    {
      created := created + [data];
      ok := createReply.Accepted?;
    }
  }

  lemma AppendInjective(c: string, d: string, suffix: string)
    requires c + suffix == d + suffix
    ensures c == d
  {
    assert |c| == |d|;
    assert c == (c + suffix)[..|c|] && d == (d + suffix)[..|d|];
  }

  lemma ClaimNamesApart(setName: string, ordinal: int, c: string, d: string)
    requires Names.ClaimName(c, setName, ordinal) == Names.ClaimName(d, setName, ordinal)
    ensures c == d
  {
    hide Names.Decimal;
    var tail := Names.Decimal(ordinal);
    AppendInjective(c + "-" + setName + "-", d + "-" + setName + "-", tail);
    AppendInjective(c + "-" + setName, d + "-" + setName, "-");
    AppendInjective(c + "-", d + "-", setName);
    AppendInjective(c, d, "-");
  }

  /** Different templates have different claims. */
  ghost predicate Apart(claims: map<string, string>) {
    forall t, u :: t in claims && u in claims && t != u ==> claims[t] != claims[u]
  }

  lemma ClaimsApart(set_: StatefulSet, ordinal: int)
    ensures Apart(ClaimsFor(set_, ordinal))
  {
    hide Names.ClaimName;
    var claims := ClaimsFor(set_, ordinal);
    forall t, u | t in claims && u in claims && claims[t] == claims[u]
      ensures t == u
    {
      ClaimNamesApart(set_.name, ordinal, t, u);
    }
  }

  /** The claims that get created when these templates are visited. */
  ghost function Attempted(server: Server, claims: map<string, string>, visited: set<string>): set<string> {
    set t | t in visited && t in claims && server.Attempts(claims[t]) :: claims[t]
  }

  /** One claim: looked up, and created if it is not found. */
  method EnsureClaim(claim: string, server: Server) returns (ok: bool)
    modifies server`claims
    ensures ok == server.Obtains(claim, old(server.claims))
    ensures server.claims == old(server.claims) + if server.Attempts(claim) then {claim} else {}
  {
    if claim in server.lookupFails {
      return false;
    }
    if claim in server.claimCache {
      return true;
    }
    ok := server.CreateClaim(claim);
  }

  /** The state of the loop once these templates have been visited. */
  ghost predicate Progress(server: Server, claims: map<string, string>, visited: set<string>,
                           before: set<string>, errors: nat)
    reads server
  {
    && visited <= claims.Keys
    && (errors == 0 <==> ObtainsAll(server, claims, visited, before))
    && server.claims == before + Attempted(server, claims, visited)
  }

  method VisitClaim(claims: map<string, string>, template: string, server: Server, errors: nat,
                    ghost visited: set<string>, ghost before: set<string>)
    returns (errors': nat)
    requires Apart(claims) && template in claims && template !in visited
    requires Progress(server, claims, visited, before, errors)
    modifies server`claims
    ensures Progress(server, claims, visited + {template}, before, errors')
  {
    AttemptMore(server, claims, visited, template);
    ObtainMore(server, claims, visited, before, template);
    var ok := EnsureClaim(claims[template], server);
    errors' := if ok then errors else errors + 1;
  }

  lemma NoClaimYet(server: Server, claims: map<string, string>)
    ensures Progress(server, claims, {}, server.claims, 0)
  {
  }

  /** createPersistentVolumeClaims on given claims, in whichever order the map is
      iterated: no error if and only if every claim is obtained, and the others are
      attempted all the same. */
  method EnsureClaims(claims: map<string, string>, server: Server) returns (errors: nat)
    requires Apart(claims)
    modifies server`claims
    ensures Progress(server, claims, claims.Keys, old(server.claims), errors)
  {
    hide Progress, Apart;
    var rest := claims.Keys;
    errors := 0;
    ghost var visited := {};
    NoClaimYet(server, claims);
    while rest != {}
      invariant rest + visited == claims.Keys && rest !! visited
      invariant Progress(server, claims, visited, old(server.claims), errors)
      decreases |rest|
    {
      var t := Slots.Pick(rest);
      errors := VisitClaim(claims, t, server, errors, visited, old(server.claims));
      rest, visited := rest - {t}, visited + {t};
    }
    assert visited == claims.Keys;
  }

  ghost predicate ObtainsAll(server: Server, claims: map<string, string>, visited: set<string>, before: set<string>) {
    forall t :: t in visited && t in claims ==> server.Obtains(claims[t], before)
  }

  /** Whether a claim is obtained does not depend on the claims visited before. */
  lemma ObtainMore(server: Server, claims: map<string, string>, visited: set<string>, before: set<string>, t: string)
    requires Apart(claims) && visited <= claims.Keys && t in claims && t !in visited
    ensures server.Obtains(claims[t], before + Attempted(server, claims, visited))
            <==> server.Obtains(claims[t], before)
    ensures ObtainsAll(server, claims, visited + {t}, before)
            <==> ObtainsAll(server, claims, visited, before) && server.Obtains(claims[t], before)
  {
    assert claims[t] !in Attempted(server, claims, visited);
  }

  lemma AttemptMore(server: Server, claims: map<string, string>, visited: set<string>, t: string)
    requires t in claims
    ensures Attempted(server, claims, visited + {t})
            == Attempted(server, claims, visited) + if server.Attempts(claims[t]) then {claims[t]} else {}
  {
  }

  /** createPersistentVolumeClaims */
  method CreatePersistentVolumeClaims(set_: StatefulSet, ordinal: int, server: Server)
    returns (errors: nat)
    modifies server`claims
    ensures var claims := ClaimsFor(set_, ordinal);
            && (errors == 0 <==> ObtainsAll(server, claims, claims.Keys, old(server.claims)))
            && server.claims == old(server.claims) + Attempted(server, claims, claims.Keys)
            && (errors == 0 ==> Available(server, claims, server.claims))
  {
    hide Names.ClaimName;
    ClaimsApart(set_, ordinal);
    var claims := GetPersistentVolumeClaims(set_, ordinal);
    errors := EnsureClaims(claims, server);
    if errors == 0 {
      forall t | t in claims
        ensures claims[t] in server.claims + server.claimCache
      {
        assert server.Obtains(claims[t], old(server.claims));
        assert claims[t] in Attempted(server, claims, claims.Keys) || claims[t] in server.claimCache;
      }
    }
  }

  /** Every claim is in the API server or in the controller's cache. */
  ghost predicate Available(server: Server, claims: map<string, string>, existing: set<string>) {
    forall t :: t in claims ==> claims[t] in existing + server.claimCache
  }

  /** CreateStatefulPod submits the pod if and only if all its claims are obtained,
      after which they are available. */
  method CreateStatefulPod(set_: StatefulSet, pod: PodObject, server: Server) returns (ok: bool)
    modifies server`claims, server`created
    ensures var claims := ClaimsFor(set_, Names.Ordinal(pod.name));
            var obtained := ObtainsAll(server, claims, claims.Keys, old(server.claims));
            && server.created == (if obtained then old(server.created) + [Submitted(pod)] else old(server.created))
            && (ok <==> obtained && server.createReply.Accepted?)
            && (obtained ==> Available(server, claims, server.claims))
            && server.claims == old(server.claims) + Attempted(server, claims, claims.Keys)
  {
    hide Names.ParentNameAndOrdinal, Names.ClaimName, ClaimsFor;
    var errors := CreatePersistentVolumeClaims(set_, Names.Ordinal(pod.name), server);
    if errors > 0 {
      return false;
    }
    ok := server.CreatePod(Submitted(pod));
  }

  /** Nothing fails at the server, and the cache knows exactly the claims that exist. */
  ghost predicate Undisturbed(server: Server, claims: map<string, string>, existing: set<string>) {
    forall t :: t in claims ==> claims[t] !in server.lookupFails + server.createFails
                                && (claims[t] in server.claimCache <==> claims[t] in existing)
  }

  /** Undisturbed, every claim is obtained, exactly those are created that did not exist, and
      all exist afterwards, so that the pod is submitted. */
  lemma FreshClaimsCreated(server: Server, claims: map<string, string>, existing: set<string>)
    requires Undisturbed(server, claims, existing)
    ensures ObtainsAll(server, claims, claims.Keys, existing)
    ensures Attempted(server, claims, claims.Keys) == claims.Values - existing
    ensures claims.Values <= existing + Attempted(server, claims, claims.Keys)
  {
    forall c
      ensures c in Attempted(server, claims, claims.Keys) <==> c in claims.Values && c !in existing
    {
      if c in claims.Values {
        var t :| t in claims && claims[t] == c;
      }
    }
  }

  /** A claim that exists but is not cached yet cannot be created again. */
  lemma UncachedClaimRefused(server: Server, claims: map<string, string>, existing: set<string>, t: string)
    requires t in claims && claims[t] in existing && claims[t] !in server.claimCache
    ensures !ObtainsAll(server, claims, claims.Keys, existing)
  {
    assert t in claims.Keys;
  }

  // ------------------------------------------------------------ the retry loop

  /** A pod object as the lister's copy. */
  method CopyFrom(data: PodData) returns (pod: PodObject)
    ensures fresh(pod) && Submitted(pod) == data
  {
    pod := new PodObject.FromTemplate(Template(map[], data.volumes));
    pod.name, pod.namespace, pod.labels := data.name, data.namespace, data.labels;
  }

  /** A pod with an ordinal is consistent if what would be submitted of it conforms. */
  lemma ConsistentConforms(set_: StatefulSet, pod: PodObject)
    requires '\n' !in set_.name && 0 <= Names.Ordinal(pod.name)
    ensures IdentityMatches(set_, pod) && StorageMatches(set_, pod.volumes, Names.Ordinal(pod.name))
            <==> Conforms(set_, Submitted(pod), Names.Ordinal(pod.name))
  {
    hide Names.ParentNameAndOrdinal, Names.ClaimName, Names.PodName, StorageMatches;
    RepairedName(set_.name, Names.Ordinal(pod.name));
  }

  /** What would be submitted has the identity of the set's pod of this ordinal. */
  predicate HasIdentity(set_: StatefulSet, data: PodData, ordinal: int) {
    && data.name == Names.PodName(set_.name, ordinal) && data.namespace == set_.namespace
    && LabelOf(data, POD_NAME_LABEL) == data.name
  }

  /** `after` is `before` repaired: of identity and storage, what was right stays, and the
      rest is set without touching other labels or volumes. */
  ghost predicate Repaired(set_: StatefulSet, ordinal: int, before: PodData, after: PodData) {
    && after.name == Names.PodName(set_.name, ordinal) && after.namespace == set_.namespace
    && after.labels == (if HasIdentity(set_, before, ordinal) then before.labels
                        else Some(LabelMap(before.labels)[POD_NAME_LABEL := after.name]))
    && (if StorageMatches(set_, before.volumes, ordinal) then after.volumes == before.volumes
        else Rearranged(set_, ordinal, before.volumes, after.volumes))
  }

  /** All claims of the pod are obtained, given those that exist. */
  ghost predicate Obtained(set_: StatefulSet, server: Server, ordinal: int, existing: set<string>) {
    ObtainsAll(server, ClaimsFor(set_, ordinal), ClaimsFor(set_, ordinal).Keys, existing)
  }

  /** The claims that an attempt on a pod with wrong storage creates. */
  ghost function Provided(set_: StatefulSet, server: Server, ordinal: int): set<string> {
    Attempted(server, ClaimsFor(set_, ordinal), ClaimsFor(set_, ordinal).Keys)
  }

  /** One attempt of UpdateStatefulPod: repair the pod unless it is consistent, and see to
      its claims if its storage was wrong. */
  method RepairPod(set_: StatefulSet, pod: PodObject, server: Server)
    returns (consistent: bool, claimsOk: bool)
    requires '\n' !in set_.name && 0 <= Names.Ordinal(pod.name)
    modifies pod`name, pod`namespace, pod`labels, pod`volumes, server`claims
    ensures Names.Ordinal(pod.name) == Names.Ordinal(old(pod.name))
    ensures Repaired(set_, Names.Ordinal(old(pod.name)), old(Submitted(pod)), Submitted(pod))
    ensures Conforms(set_, Submitted(pod), Names.Ordinal(old(pod.name)))
    ensures consistent <==> old(Conforms(set_, Submitted(pod), Names.Ordinal(pod.name)))
    ensures consistent ==> Submitted(pod) == old(Submitted(pod))
    ensures if old(StorageMatches(set_, pod.volumes, Names.Ordinal(pod.name)))
            then claimsOk && server.claims == old(server.claims)
            else (claimsOk <==> Obtained(set_, server, Names.Ordinal(old(pod.name)), old(server.claims)))
                 && server.claims == old(server.claims) + Provided(set_, server, Names.Ordinal(old(pod.name)))
  {
    hide Names.ParentNameAndOrdinal, Names.ClaimName, Names.PodName, Rearranged, ClaimsFor, ObtainsAll, Attempted;
    hide StorageMatches;
    ConsistentConforms(set_, pod);
    IdentityOfOrdinal(set_, pod);
    consistent, claimsOk := true, true;
    if !IdentityMatches(set_, pod) {
      UpdateIdentity(set_, pod);
      consistent := false;
    }
    var matches := CheckStorage(set_, pod);
    if !matches {
      UpdateStorage(set_, pod);
      consistent := false;
      var errors := CreatePersistentVolumeClaims(set_, Names.Ordinal(pod.name), server);
      claimsOk := errors == 0;
    }
    ConsistentConforms(set_, pod);
  }

  lemma IdentityOfOrdinal(set_: StatefulSet, pod: PodObject)
    requires '\n' !in set_.name && 0 <= Names.Ordinal(pod.name)
    ensures IdentityMatches(set_, pod) <==> HasIdentity(set_, Submitted(pod), Names.Ordinal(pod.name))
  {
    hide Names.ParentNameAndOrdinal, Names.PodName;
    RepairedName(set_.name, Names.Ordinal(pod.name));
  }

  /** What the lister returns for the pod conforms already, or the lister does not find
      it and the pod stays as it was repaired. */
  ghost predicate CacheSatisfies(set_: StatefulSet, server: Server, ordinal: int) {
    var name := Names.PodName(set_.name, ordinal);
    name in server.podCache ==> Conforms(set_, server.podCache[name], ordinal)
  }

  /** When UpdateStatefulPod succeeds after `n` updates: nothing had to be changed, or the
      last update was accepted, or after a conflict the next attempt found nothing to
      change. If the lister lacks the pod, that attempt looks at the repaired pod which
      has just been refused. */
  ghost predicate Succeeds(set_: StatefulSet, server: Server, ordinal: int, consistent: bool, before: nat, n: nat) {
    if n == 0 then consistent
    else
      || server.replies(before + n - 1).Accepted?
      || (server.replies(before + n - 1).Conflict? && n < 4 && CacheSatisfies(set_, server, ordinal))
  }

  /** What a success should mean: nothing had to be changed, or an update was accepted, or
      what the lister returned needs no change. */
  ghost predicate Kept(set_: StatefulSet, server: Server, ordinal: int, consistent: bool, before: nat, n: nat) {
    var name := Names.PodName(set_.name, ordinal);
    if n == 0 then consistent
    else
      || server.replies(before + n - 1).Accepted?
      || (name in server.podCache && Conforms(set_, server.podCache[name], ordinal))
  }

  /** A success means what it should exactly when no update was refused or the lister has
      the pod under its generated name. */
  lemma SuccessKept(set_: StatefulSet, server: Server, ordinal: int, consistent: bool, before: nat, n: nat)
    requires Succeeds(set_, server, ordinal, consistent, before, n)
    ensures Kept(set_, server, ordinal, consistent, before, n)
            <==> n == 0 || server.replies(before + n - 1).Accepted?
                 || Names.PodName(set_.name, ordinal) in server.podCache
  {
    hide Conforms, Names.PodName;
  }

  /** What attempt `i` starts from: the pod as it was given, then the lister's copy. */
  function AttemptedOn(set_: StatefulSet, server: Server, ordinal: int, first: PodData, i: nat): PodData {
    var name := Names.PodName(set_.name, ordinal);
    if i > 0 && name in server.podCache then server.podCache[name] else first
  }

  /** The claims there are once `n` attempts have been made. */
  ghost function ClaimsAfter(set_: StatefulSet, server: Server, ordinal: int, first: PodData,
                             existing: set<string>, n: nat): set<string> {
    if forall i: nat :: i < n ==> StorageMatches(set_, AttemptedOn(set_, server, ordinal, first, i).volumes, ordinal)
    then existing
    else existing + Provided(set_, server, ordinal)
  }

  /** The attempt after `n` conflicts finds the storage wrong and cannot obtain the claims. */
  ghost predicate ClaimsRefused(set_: StatefulSet, server: Server, ordinal: int, first: PodData,
                                existing: set<string>, before: nat, n: nat) {
    && n < 4 && (n > 0 ==> server.replies(before + n - 1).Conflict?)
    && (n > 0 ==> Names.PodName(set_.name, ordinal) in server.podCache)
    && !StorageMatches(set_, AttemptedOn(set_, server, ordinal, first, n).volumes, ordinal)
    && !Obtained(set_, server, ordinal, ClaimsAfter(set_, server, ordinal, first, existing, n))
  }

  /** When UpdateStatefulPod fails after `n` updates. */
  ghost predicate Fails(set_: StatefulSet, server: Server, ordinal: int, first: PodData,
                        existing: set<string>, before: nat, n: nat) {
    || (n == 4 && server.replies(before + 3).Conflict?)
    || (n > 0 && server.replies(before + n - 1).OtherError?)
    || ClaimsRefused(set_, server, ordinal, first, existing, before, n)
  }

  /** UpdateStatefulPod: at most four attempts, going on with the lister's copy of the
      pod after a conflict. Whatever the replies and the caches, every pod submitted is
      what the attempt started from, repaired, and each but the last met a conflict. The
      call fails exactly after four conflicts, after another error, or when an attempt on
      a pod with wrong storage cannot obtain all its claims. */
  method UpdateStatefulPod(set_: StatefulSet, original: PodObject, server: Server) returns (ok: bool)
    requires '\n' !in set_.name && 0 <= Names.Ordinal(original.name)
    requires forall n :: n in server.podCache ==> server.podCache[n].name == n
    modifies original, server`claims, server`updates
    ensures |old(server.updates)| <= |server.updates| <= |old(server.updates)| + 4
    ensures server.updates[..|old(server.updates)|] == old(server.updates)
    ensures forall i :: |old(server.updates)| <= i < |server.updates| ==>
              && Repaired(set_, Names.Ordinal(old(original.name)),
                          AttemptedOn(set_, server, Names.Ordinal(old(original.name)), old(Submitted(original)),
                                      i - |old(server.updates)|), server.updates[i])
              && Conforms(set_, server.updates[i], Names.Ordinal(old(original.name)))
    ensures forall i :: |old(server.updates)| <= i < |server.updates| - 1 ==> server.replies(i).Conflict?
    ensures ok <==> Succeeds(set_, server, Names.Ordinal(old(original.name)),
                             old(Conforms(set_, Submitted(original), Names.Ordinal(original.name))),
                             |old(server.updates)|, |server.updates| - |old(server.updates)|)
    ensures !ok <==> Fails(set_, server, Names.Ordinal(old(original.name)), old(Submitted(original)),
                           old(server.claims), |old(server.updates)|, |server.updates| - |old(server.updates)|)
    ensures |server.updates| >= |old(server.updates)| + 2
            ==> !CacheSatisfies(set_, server, Names.Ordinal(old(original.name)))
    ensures var ordinal, first := Names.Ordinal(old(original.name)), old(Submitted(original));
            var before, n := |old(server.updates)|, |server.updates| - |old(server.updates)|;
            server.claims == if ClaimsRefused(set_, server, ordinal, first, old(server.claims), before, n)
                             then old(server.claims) + Provided(set_, server, ordinal)
                             else ClaimsAfter(set_, server, ordinal, first, old(server.claims), n)
  {
    hide Names.ParentNameAndOrdinal, Names.ClaimName, Names.PodName, Conforms, Repaired, SoFar, Ready, Ended;
    ghost var ordinal := Names.Ordinal(original.name);
    ghost var earlier, first, existing := server.updates, Submitted(original), server.claims;
    var pod := original;
    var steps := 4;
    NoAttempts(set_, server, ordinal, first, existing, original);
    while steps > 0
      invariant 0 <= steps <= 4
      invariant pod == original || fresh(pod)
      invariant SoFar(set_, server, ordinal, first, existing, earlier, 4 - steps)
      invariant Ready(set_, server, ordinal, first, 4 - steps, pod)
    {
      var done;
      done, ok, pod := Attempt(set_, pod, server, ordinal, first, existing, earlier, 4 - steps);
      if done {
        EndedMeans(set_, server, ordinal, first, existing, earlier, ok);
        return;
      }
      steps := steps - 1;
    }
    OutOfAttempts(set_, server, ordinal, first, existing, earlier);
    EndedMeans(set_, server, ordinal, first, existing, earlier, false);
    ok := false;
  }

  /** `n` updates have met a conflict. */
  ghost predicate SoFar(set_: StatefulSet, server: Server, ordinal: int, first: PodData, existing: set<string>,
                        earlier: seq<PodData>, n: nat)
    reads server
  {
    && |server.updates| == |earlier| + n && server.updates[..|earlier|] == earlier
    && server.claims == ClaimsAfter(set_, server, ordinal, first, existing, n)
    && (forall i :: |earlier| <= i < |earlier| + n ==>
          && Repaired(set_, ordinal, AttemptedOn(set_, server, ordinal, first, i - |earlier|), server.updates[i])
          && server.replies(i).Conflict?)
    && (n > 0 ==> !Conforms(set_, first, ordinal)) && (n > 1 ==> !CacheSatisfies(set_, server, ordinal))
  }

  /** The pod the next attempt works on: as given, the lister's copy, or, if the lister lacks
      it, what the last attempt has repaired. */
  ghost predicate Ready(set_: StatefulSet, server: Server, ordinal: int, first: PodData, n: nat, pod: PodObject)
    reads pod
  {
    && Names.Ordinal(pod.name) == ordinal
    && if n > 0 && Names.PodName(set_.name, ordinal) !in server.podCache then Conforms(set_, Submitted(pod), ordinal)
       else Submitted(pod) == AttemptedOn(set_, server, ordinal, first, n)
  }

  /** What is true when the call returns. */
  ghost predicate Ended(set_: StatefulSet, server: Server, ordinal: int, first: PodData, existing: set<string>,
                        earlier: seq<PodData>, ok: bool)
    reads server
  {
    && |earlier| <= |server.updates| <= |earlier| + 4 && server.updates[..|earlier|] == earlier
    && var n := |server.updates| - |earlier|;
       && (forall i :: |earlier| <= i < |server.updates| ==>
             Repaired(set_, ordinal, AttemptedOn(set_, server, ordinal, first, i - |earlier|), server.updates[i]))
       && (forall i :: |earlier| <= i < |server.updates| - 1 ==> server.replies(i).Conflict?)
       && (ok <==> Succeeds(set_, server, ordinal, Conforms(set_, first, ordinal), |earlier|, n))
       && (!ok <==> Fails(set_, server, ordinal, first, existing, |earlier|, n))
       && (n > 1 ==> !CacheSatisfies(set_, server, ordinal))
       && server.claims == if ClaimsRefused(set_, server, ordinal, first, existing, |earlier|, n)
                           then existing + Provided(set_, server, ordinal)
                           else ClaimsAfter(set_, server, ordinal, first, existing, n)
  }

  /** One attempt: repair, submit, and after a conflict take the lister's copy. */
  method Attempt(set_: StatefulSet, pod: PodObject, server: Server, ghost ordinal: int, ghost first: PodData,
                 ghost existing: set<string>, ghost earlier: seq<PodData>, ghost n: nat)
    returns (done: bool, ok: bool, next: PodObject)
    requires '\n' !in set_.name && 0 <= ordinal && n < 4
    requires forall m :: m in server.podCache ==> server.podCache[m].name == m
    requires SoFar(set_, server, ordinal, first, existing, earlier, n) && Ready(set_, server, ordinal, first, n, pod)
    modifies pod`name, pod`namespace, pod`labels, pod`volumes, server`claims, server`updates
    ensures done ==> Ended(set_, server, ordinal, first, existing, earlier, ok)
    ensures !done ==> SoFar(set_, server, ordinal, first, existing, earlier, n + 1)
                      && Ready(set_, server, ordinal, first, n + 1, next)
    ensures next == pod || fresh(next)
  {
    hide Names.ParentNameAndOrdinal, Names.ClaimName, Names.PodName, Conforms, Repaired, Obtained, Provided;
    hide StorageMatches, ClaimsAfter, HasIdentity;
    ghost var before := |server.updates|;
    next, ok := pod, false;
    ConformsInStorage(set_, Submitted(pod), ordinal);
    ProvidedOnce(set_, server, ordinal, first, existing, n);
    OneMoreAttempt(set_, server, ordinal, first, existing, n);
    var consistent, claimsOk := RepairPod(set_, pod, server);
    if consistent {
      return true, true, pod;
    }
    if !claimsOk {
      return true, false, pod;
    }
    SubmittedName(set_, pod, ordinal);
    var reply := server.UpdatePod(Submitted(pod));
    assert server.updates[..|earlier|] == earlier;
    assert forall i :: |earlier| <= i < before ==> server.updates[i] == old(server.updates[i]);
    if reply.Accepted? {
      return true, true, pod;
    }
    if pod.name in server.podCache {
      next := CopyFrom(server.podCache[pod.name]);
    }
    done := !reply.Conflict?;
  }

  lemma OutOfAttempts(set_: StatefulSet, server: Server, ordinal: int, first: PodData, existing: set<string>,
                      earlier: seq<PodData>)
    requires SoFar(set_, server, ordinal, first, existing, earlier, 4)
    ensures Ended(set_, server, ordinal, first, existing, earlier, false)
  {
    hide Repaired, Conforms, ClaimsAfter, Provided, Obtained;
  }

  /** What the contract of the call says. */
  lemma EndedMeans(set_: StatefulSet, server: Server, ordinal: int, first: PodData, existing: set<string>,
                   earlier: seq<PodData>, ok: bool)
    requires Ended(set_, server, ordinal, first, existing, earlier, ok) && 0 <= ordinal
    ensures |earlier| <= |server.updates| <= |earlier| + 4 && server.updates[..|earlier|] == earlier
    ensures forall i :: |earlier| <= i < |server.updates| ==>
              && Repaired(set_, ordinal, AttemptedOn(set_, server, ordinal, first, i - |earlier|), server.updates[i])
              && Conforms(set_, server.updates[i], ordinal)
    ensures forall i :: |earlier| <= i < |server.updates| - 1 ==> server.replies(i).Conflict?
    ensures var n := |server.updates| - |earlier|;
            && (ok <==> Succeeds(set_, server, ordinal, Conforms(set_, first, ordinal), |earlier|, n))
            && (!ok <==> Fails(set_, server, ordinal, first, existing, |earlier|, n))
            && (n > 1 ==> !CacheSatisfies(set_, server, ordinal))
            && server.claims == if ClaimsRefused(set_, server, ordinal, first, existing, |earlier|, n)
                                then existing + Provided(set_, server, ordinal)
                                else ClaimsAfter(set_, server, ordinal, first, existing, n)
  {
    hide Repaired, Conforms, ClaimsAfter, Provided, Obtained, Succeeds, Fails, CacheSatisfies, ClaimsRefused;
    forall i | |earlier| <= i < |server.updates|
      ensures Conforms(set_, server.updates[i], ordinal)
    {
      RepairedConforms(set_, ordinal, AttemptedOn(set_, server, ordinal, first, i - |earlier|), server.updates[i]);
    }
  }

  /** A repaired pod conforms. */
  lemma RepairedConforms(set_: StatefulSet, ordinal: int, before: PodData, after: PodData)
    requires Repaired(set_, ordinal, before, after) && 0 <= ordinal
    ensures Conforms(set_, after, ordinal)
  {
    hide Names.PodName, StorageMatches, Rearranged;
    if !StorageMatches(set_, before.volumes, ordinal) {
      RearrangedMatches(set_, ordinal, before.volumes, after.volumes);
    }
  }

  lemma NoAttempts(set_: StatefulSet, server: Server, ordinal: int, first: PodData, existing: set<string>, pod: PodObject)
    requires first == Submitted(pod) && existing == server.claims && ordinal == Names.Ordinal(pod.name)
    ensures SoFar(set_, server, ordinal, first, existing, server.updates, 0)
    ensures Ready(set_, server, ordinal, first, 0, pod)
  {
    hide Names.ParentNameAndOrdinal, Conforms, Repaired;
    assert server.updates[..|server.updates|] == server.updates;
  }

  lemma ConformsInStorage(set_: StatefulSet, data: PodData, ordinal: int)
    ensures Conforms(set_, data, ordinal) ==> StorageMatches(set_, data.volumes, ordinal)
  {
  }

  lemma ProvidedOnce(set_: StatefulSet, server: Server, ordinal: int, first: PodData, existing: set<string>, n: nat)
    ensures ClaimsAfter(set_, server, ordinal, first, existing, n) + Provided(set_, server, ordinal)
            == existing + Provided(set_, server, ordinal)
  {
    hide StorageMatches, AttemptedOn, Provided;
  }

  /** One attempt more: its claims are provided if its storage is wrong. */
  lemma OneMoreAttempt(set_: StatefulSet, server: Server, ordinal: int, first: PodData, existing: set<string>, n: nat)
    ensures ClaimsAfter(set_, server, ordinal, first, existing, n + 1)
            == if StorageMatches(set_, AttemptedOn(set_, server, ordinal, first, n).volumes, ordinal)
               then ClaimsAfter(set_, server, ordinal, first, existing, n)
               else ClaimsAfter(set_, server, ordinal, first, existing, n) + Provided(set_, server, ordinal)
  {
    hide StorageMatches, AttemptedOn, Provided;
  }

  lemma SubmittedName(set_: StatefulSet, pod: PodObject, ordinal: int)
    requires Conforms(set_, Submitted(pod), ordinal)
    ensures pod.name == Names.PodName(set_.name, ordinal)
  {
  }

  /** Any pod that needs repair is an example of a lost update: its set has no claims, the
      lister does not know it, the only update meets a conflict, and the call succeeds. */
  method LostUpdate(set_: StatefulSet, pod: PodObject) returns (ok: bool, server: Server)
    requires '\n' !in set_.name && set_.claims == [] && 0 <= Names.Ordinal(pod.name)
    requires !Conforms(set_, Submitted(pod), Names.Ordinal(pod.name))
    modifies pod
    ensures fresh(server) && ok
    ensures |server.updates| == 1 && server.replies(0).Conflict?
  {
    hide Names.ParentNameAndOrdinal, Names.ClaimName, Names.PodName, Conforms;
    server := new Server({}, {}, {}, {}, map[], n => if n == 0 then Conflict else OtherError, Accepted);
    ok := UpdateStatefulPod(set_, pod, server);
  }

  /** There is such a pod. */
  lemma UnlabelledNeedsRepair(set_: StatefulSet, data: PodData, ordinal: int)
    requires data.labels.None?
    ensures !Conforms(set_, data, ordinal)
  {
    assert Names.PodName(set_.name, ordinal) == set_.name + "-" + Names.Decimal(ordinal);
  }
}
