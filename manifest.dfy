/** Manifest building in src/cli/utils.ts: findFunction,
    getAssociatedDistributions, assertFunctionDistributionCompatibility and
    createAssociationManifest, with its strict mode (associate) and its
    non-strict mode (destroy, where a missing distribution is skipped). The
    strict copies in src/cli/commands/associate/utils.ts are the same
    functions with `failOnDistributionNotFound` fixed to true. */
module Manifest {
  import opened Wrappers
  import opened Types
  import opened Behaviours

  // ---- the configured associations, in visiting order ----

  function Pairs(functionName: string, associations: seq<FunctionAssociationConfig>): (ps: seq<ConfiguredAssociation>)
    ensures |ps| == |associations|
    ensures forall j :: 0 <= j < |ps| ==> ps[j] == ConfiguredAssociation(functionName, associations[j])
  {
    seq(|associations|, j requires 0 <= j < |associations| => ConfiguredAssociation(functionName, associations[j]))
  }

  /** Every configured association with its function's name, function by
      function in key order and association by association in list order:
      the order of both `for ... in` loops and of `Object.values(...).flatMap`. */
  function Flatten(config: FunctionConfigMap): (flat: seq<ConfiguredAssociation>)
    ensures forall ca :: ca in flat <==>
              exists k :: 0 <= k < |config| && ca.functionName == config[k].0 && ca.association in config[k].1.associations
    decreases |config|
  {
    if config == [] then []
    else
      var rest := Flatten(config[1..]);
      assert forall k :: 0 < k < |config| ==> config[k] == config[1..][k - 1];
      Pairs(config[0].0, config[0].1.associations) + rest
  }

  // ---- findFunction ----

  /** The first deployed function with that Name; a missing one is fatal. */
  function FindFunction(name: string, list: seq<FunctionSummary>): (r: Result<FunctionSummary, Error>)
    ensures r.Success? ==> r.value in list && r.value.name == name
    ensures r.Success? ==> exists k :: 0 <= k < |list| && list[k] == r.value && forall j :: 0 <= j < k ==> list[j].name != name
    ensures r.Failure? <==> forall s :: s in list ==> s.name != name
    ensures r.Failure? ==> r.error == FunctionNotInAws(name)
    decreases |list|
  {
    if list == [] then Failure(FunctionNotInAws(name))
    else if list[0].name == name then Success(list[0])
    else
      var r := FindFunction(name, list[1..]);
      if r.Success? then
        ghost var k :| 0 <= k < |list[1..]| && list[1..][k] == r.value && forall j :: 0 <= j < k ==> list[1..][j].name != name;
        assert list[k + 1] == r.value && forall j :: 0 <= j < k + 1 ==> list[j].name != name;
        r
      else
        assert forall s :: s in list ==> s == list[0] || s in list[1..];
        r
  }

  // ---- getAssociatedDistributions ----

  type DistributionMap = map<string, DistributionResult>

  /** A fetch failure that is rethrown: any error other than
      DISTRIBUTION_NOT_FOUND, and every error in strict mode. */
  predicate Fatal(reply: RemoteReply, strict: bool)
  {
    reply.Failure? && (reply.error != AwsError(DistributionNotFound) || strict)
  }

  /** The reply whose rejection Promise.all reports: taken here as the first by position. */
  function FirstFatal(fetched: seq<RemoteReply>, strict: bool): (r: Option<nat>)
    ensures r.Some? ==> r.value < |fetched| && Fatal(fetched[r.value], strict)
    ensures r.Some? ==> forall j :: 0 <= j < r.value ==> !Fatal(fetched[j], strict)
    ensures r.None? <==> forall j :: 0 <= j < |fetched| ==> !Fatal(fetched[j], strict)
    decreases |fetched|
  {
    if fetched == [] then None
    else if Fatal(fetched[0], strict) then Some(0)
    else match FirstFatal(fetched[1..], strict)
      case None => None
      case Some(k) => Some(k + 1)
  }

  /** The fetched snapshots, one per configured association; a swallowed
      failure is `undefined`. */
  function FetchResults(flat: seq<ConfiguredAssociation>, fetched: seq<RemoteReply>): (rs: seq<Option<DistributionResult>>)
    requires |fetched| == |flat|
    ensures |rs| == |flat|
    ensures forall k :: 0 <= k < |rs| ==> (rs[k].Some? <==> fetched[k].Success?)
    ensures forall k :: 0 <= k < |rs| && rs[k].Some? ==>
              rs[k].value == ParseDistributionResult(flat[k].association.distributionId, fetched[k].value)
  {
    seq(|flat|, k requires 0 <= k < |flat| =>
      if fetched[k].Success? then Some(ParseDistributionResult(flat[k].association.distributionId, fetched[k].value)) else None)
  }

  /** The reduce: keep defined results whose id is not yet a key. */
  function Collect(results: seq<Option<DistributionResult>>, acc: DistributionMap): DistributionMap
    decreases |results|
  {
    if results == [] then acc
    else
      var acc' := if results[0].Some? && results[0].value.id !in acc then acc[results[0].value.id := results[0].value] else acc;
      Collect(results[1..], acc')
  }

  /** getAssociatedDistributions. `fetched[k]` is what fetchDistribution
      answers for the k-th configured association's distributionId. */
  function GetAssociatedDistributions(flat: seq<ConfiguredAssociation>, fetched: seq<RemoteReply>, strict: bool)
    : (r: Result<DistributionMap, Error>)
    requires |fetched| == |flat|
    ensures r.Failure? <==> exists k :: 0 <= k < |fetched| && Fatal(fetched[k], strict)
    ensures r.Failure? ==> exists k :: 0 <= k < |fetched| && Fatal(fetched[k], strict) && r.error == fetched[k].error
  {
    match FirstFatal(fetched, strict)
    case Some(k) => Failure(fetched[k].error)
    case None => Success(Collect(FetchResults(flat, fetched), map[]))
  }

  lemma {:induction false} CollectKeys(results: seq<Option<DistributionResult>>, acc: DistributionMap)
    ensures forall id :: id in Collect(results, acc) <==>
              id in acc || exists k :: 0 <= k < |results| && results[k].Some? && results[k].value.id == id
    decreases |results|
  {
    if results != [] {
      var acc' := if results[0].Some? && results[0].value.id !in acc then acc[results[0].value.id := results[0].value] else acc;
      CollectKeys(results[1..], acc');
      assert forall k :: 0 < k < |results| ==> results[k] == results[1..][k - 1];
      assert forall k :: 0 <= k < |results[1..]| ==> results[1..][k] == results[k + 1];
    }
  }

  lemma {:induction false} CollectKeeps(results: seq<Option<DistributionResult>>, acc: DistributionMap, id: string)
    requires id in acc
    ensures id in Collect(results, acc) && Collect(results, acc)[id] == acc[id]
    decreases |results|
  {
    if results != [] {
      var acc' := if results[0].Some? && results[0].value.id !in acc then acc[results[0].value.id := results[0].value] else acc;
      CollectKeeps(results[1..], acc', id);
    }
  }

  /** First wins: a key takes the first defined result carrying it. */
  lemma {:induction false} CollectFirst(results: seq<Option<DistributionResult>>, acc: DistributionMap, k: nat)
    requires k < |results| && results[k].Some? && results[k].value.id !in acc
    requires forall j :: 0 <= j < k ==> !(results[j].Some? && results[j].value.id == results[k].value.id)
    ensures results[k].value.id in Collect(results, acc)
    ensures Collect(results, acc)[results[k].value.id] == results[k].value
    decreases |results|
  {
    var acc' := if results[0].Some? && results[0].value.id !in acc then acc[results[0].value.id := results[0].value] else acc;
    if k == 0 {
      CollectKeeps(results[1..], acc', results[0].value.id);
    } else {
      CollectFirst(results[1..], acc', k - 1);
    }
  }

  /** Each key is one of the requested ids that was fetched, and maps to a
      snapshot carrying that id. */
  lemma {:induction false} CollectIds(results: seq<Option<DistributionResult>>, acc: DistributionMap)
    requires forall id :: id in acc ==> acc[id].id == id
    ensures forall id :: id in Collect(results, acc) ==> Collect(results, acc)[id].id == id
    decreases |results|
  {
    if results != [] {
      var acc' := if results[0].Some? && results[0].value.id !in acc then acc[results[0].value.id := results[0].value] else acc;
      CollectIds(results[1..], acc');
    }
  }

  /** No earlier configured association with the same distributionId was fetched successfully. */
  predicate FirstFetchOf(flat: seq<ConfiguredAssociation>, fetched: seq<RemoteReply>, k: nat)
    requires |fetched| == |flat| && k < |flat|
  {
    forall j :: 0 <= j < k ==> !(fetched[j].Success? && flat[j].association.distributionId == flat[k].association.distributionId)
  }

  /** The keys are exactly the distinct ids whose fetch succeeded, each
      mapped to the first snapshot fetched for it. */
  lemma DistributionsByFirstFetch(flat: seq<ConfiguredAssociation>, fetched: seq<RemoteReply>, strict: bool)
    requires |fetched| == |flat|
    requires GetAssociatedDistributions(flat, fetched, strict).Success?
    ensures var dists := GetAssociatedDistributions(flat, fetched, strict).value;
            && (forall id :: id in dists <==>
                  exists k :: 0 <= k < |flat| && fetched[k].Success? && flat[k].association.distributionId == id)
            && (forall id :: id in dists ==> dists[id].id == id)
            && (forall k :: (0 <= k < |flat| && fetched[k].Success? && FirstFetchOf(flat, fetched, k)) ==>
                  dists[flat[k].association.distributionId] == ParseDistributionResult(flat[k].association.distributionId, fetched[k].value))
  {
    var results := FetchResults(flat, fetched);
    CollectKeys(results, map[]);
    CollectIds(results, map[]);
    forall k | 0 <= k < |flat| && fetched[k].Success? && FirstFetchOf(flat, fetched, k)
      ensures Collect(results, map[])[flat[k].association.distributionId] ==
              ParseDistributionResult(flat[k].association.distributionId, fetched[k].value)
    {
      CollectFirst(results, map[], k);
    }
  }

  /** Every requested id is a key of the map, whenever none was skipped. */
  predicate Resolved(rest: seq<ConfiguredAssociation>, dists: DistributionMap)
  {
    forall ca :: ca in rest ==> ca.association.distributionId in dists
  }

  /** In strict mode a successful fetch leaves no configured distribution out. */
  lemma StrictResolvesAll(flat: seq<ConfiguredAssociation>, fetched: seq<RemoteReply>, strict: bool)
    requires |fetched| == |flat|
    requires GetAssociatedDistributions(flat, fetched, strict).Success?
    ensures strict ==> Resolved(flat, GetAssociatedDistributions(flat, fetched, strict).value)
  {
    DistributionsByFirstFetch(flat, fetched, strict);
    if strict {
      forall ca | ca in flat ensures ca.association.distributionId in GetAssociatedDistributions(flat, fetched, strict).value {
        var k :| 0 <= k < |flat| && flat[k] == ca;
        assert !Fatal(fetched[k], strict);
      }
    }
  }

  // ---- assertFunctionDistributionCompatibility ----

  function Lookup(dists: DistributionMap, id: string): Option<DistributionResult>
  {
    if id in dists then Some(dists[id]) else None
  }

  predicate Compatible(ca: ConfiguredAssociation, dists: DistributionMap)
  {
    DoesBehaviourExist(ca.association.behaviourPattern, Lookup(dists, ca.association.distributionId))
  }

  /** Stops at the first association whose pattern matches no behaviour of
      its distribution, naming the distribution, the pattern and the function. */
  function CheckCompatibility(flat: seq<ConfiguredAssociation>, dists: DistributionMap): (r: Outcome<Error>)
    ensures r.Pass? <==> forall k :: 0 <= k < |flat| ==> Compatible(flat[k], dists)
    ensures r.Fail? ==>
              exists k :: && 0 <= k < |flat|
                          && !Compatible(flat[k], dists)
                          && (forall j :: 0 <= j < k ==> Compatible(flat[j], dists))
                          && r.error == NoMatchingBehaviour(flat[k].association.distributionId, flat[k].association.behaviourPattern, flat[k].functionName)
    decreases |flat|
  {
    if flat == [] then Pass
    else if !Compatible(flat[0], dists) then
      Fail(NoMatchingBehaviour(flat[0].association.distributionId, flat[0].association.behaviourPattern, flat[0].functionName))
    else
      var r := CheckCompatibility(flat[1..], dists);
      assert forall k :: 0 < k < |flat| ==> flat[k] == flat[1..][k - 1];
      if r.Fail? then
        ghost var k :| 0 <= k < |flat[1..]| && !Compatible(flat[1..][k], dists) &&
                 (forall j :: 0 <= j < k ==> Compatible(flat[1..][j], dists)) &&
                 r.error == NoMatchingBehaviour(flat[1..][k].association.distributionId, flat[1..][k].association.behaviourPattern, flat[1..][k].functionName);
        assert forall j :: 0 <= j < k + 1 ==> Compatible(flat[j], dists);
        r
      else r
  }

  /** A distribution that was not found passes only the sentinel pattern. */
  lemma MissingDistributionPassesOnlyDefault(ca: ConfiguredAssociation, dists: DistributionMap)
    requires ca.association.distributionId !in dists
    ensures Compatible(ca, dists) <==> ca.association.behaviourPattern == DefaultPattern
  {
  }

  // ---- the manifest ----

  /** `manifest[id] ??= {distribution, associations: []}` then `.associations.push(a)`. */
  function Push(m: AssociationManifest, id: string, distribution: DistributionResult, a: ManifestAssociation): AssociationManifest
    decreases |m|
  {
    if m == [] then [ManifestEntry(id, distribution, [a])]
    else if m[0].distributionId == id then [m[0].(associations := m[0].associations + [a])] + m[1..]
    else [m[0]] + Push(m[1..], id, distribution, a)
  }

  /** The associations stored under `id`, or [] when there is no such key. */
  function AssocsOf(m: AssociationManifest, id: string): seq<ManifestAssociation>
    decreases |m|
  {
    if m == [] then []
    else if m[0].distributionId == id then m[0].associations
    else AssocsOf(m[1..], id)
  }

  predicate DistinctIds(m: AssociationManifest)
  {
    forall i, j :: 0 <= i < j < |m| ==> m[i].distributionId != m[j].distributionId
  }

  /** Every entry is stored under its key with the map's snapshot and at least one association. */
  predicate EntriesFrom(m: AssociationManifest, dists: DistributionMap)
  {
    forall e :: e in m ==> e.distributionId in dists && e.distribution == dists[e.distributionId] && e.associations != []
  }

  /** The remaining configured associations turned into manifest entries,
      `manifest` holding the entries built so far. findFunction runs before
      the skip test, so an undeployed function aborts even a skipped one. */
  function BuildFrom(manifest: AssociationManifest, rest: seq<ConfiguredAssociation>, dists: DistributionMap,
                     deployed: seq<FunctionSummary>, strict: bool): Result<AssociationManifest, Error>
    requires strict ==> Resolved(rest, dists)
    decreases |rest|
  {
    if rest == [] then Success(manifest)
    else
      var ca := rest[0];
      assert rest[1..] == rest[1..] && forall x :: x in rest[1..] ==> x in rest;
      match FindFunction(ca.functionName, deployed)
      case Failure(e) => Failure(e)
      case Success(f) =>
        var id := ca.association.distributionId;
        if !strict && id !in dists then BuildFrom(manifest, rest[1..], dists, deployed, strict)
        else
          var a := ManifestAssociation(ca.association.behaviourPattern, ca.association.eventType, f.functionArn);
          BuildFrom(Push(manifest, id, dists[id], a), rest[1..], dists, deployed, strict)
  }

  /** createAssociationManifest as a function of the config map, the deployed
      functions, the fetch replies and the strictness flag. */
  function CreateManifest(config: FunctionConfigMap, deployed: seq<FunctionSummary>, fetched: seq<RemoteReply>, strict: bool)
    : Result<AssociationManifest, Error>
    requires |fetched| == |Flatten(config)|
  {
    var flat := Flatten(config);
    match GetAssociatedDistributions(flat, fetched, strict)
    case Failure(e) => Failure(e)
    case Success(dists) =>
      if strict && CheckCompatibility(flat, dists).Fail? then Failure(CheckCompatibility(flat, dists).error)
      else
        StrictResolvesAll(flat, fetched, strict);
        BuildFrom([], flat, dists, deployed, strict)
  }


  lemma FlattenAt(config: FunctionConfigMap, i: nat)
    requires i < |config|
    ensures Flatten(config[i..]) == Pairs(config[i].0, config[i].1.associations) + Flatten(config[i + 1..])
  {
    assert config[i..][1..] == config[i + 1..];
  }

  lemma RestStep(ps: seq<ConfiguredAssociation>, tail: seq<ConfiguredAssociation>, j: nat)
    requires j < |ps|
    ensures (ps[j..] + tail)[0] == ps[j]
    ensures (ps[j..] + tail)[1..] == ps[j + 1..] + tail
  {
  }

  /** One step of the inner loop, in terms of the remaining associations. */
  lemma BuildStep(manifest: AssociationManifest, rest: seq<ConfiguredAssociation>, dists: DistributionMap,
                  deployed: seq<FunctionSummary>, strict: bool)
    requires rest != [] && (strict ==> Resolved(rest, dists))
    ensures strict ==> Resolved(rest[1..], dists)
    ensures FindFunction(rest[0].functionName, deployed).Failure? ==>
              BuildFrom(manifest, rest, dists, deployed, strict) == Failure(FindFunction(rest[0].functionName, deployed).error)
    ensures FindFunction(rest[0].functionName, deployed).Success? && !strict && rest[0].association.distributionId !in dists ==>
              BuildFrom(manifest, rest, dists, deployed, strict) == BuildFrom(manifest, rest[1..], dists, deployed, strict)
    ensures FindFunction(rest[0].functionName, deployed).Success? && (strict || rest[0].association.distributionId in dists) ==>
              var a := rest[0].association;
              && a.distributionId in dists
              && BuildFrom(manifest, rest, dists, deployed, strict) ==
                 BuildFrom(Push(manifest, a.distributionId, dists[a.distributionId],
                                ManifestAssociation(a.behaviourPattern, a.eventType, FindFunction(rest[0].functionName, deployed).value.functionArn)),
                           rest[1..], dists, deployed, strict)
  {
    assert forall x :: x in rest[1..] ==> x in rest;
  }

  /** createAssociationManifest with its two nested loops filling the manifest. */
  method CreateAssociationManifest(config: FunctionConfigMap, deployed: seq<FunctionSummary>, fetched: seq<RemoteReply>, strict: bool)
    returns (r: Result<AssociationManifest, Error>)
    requires |fetched| == |Flatten(config)|
    ensures r == CreateManifest(config, deployed, fetched, strict)
  {
    var distributions := GetAssociatedDistributions(Flatten(config), fetched, strict);
    if distributions.Failure? {
      return Failure(distributions.error);
    }
    var dists := distributions.value;
    if strict {
      var compatibility := CheckCompatibility(Flatten(config), dists);
      if compatibility.Fail? {
        return Failure(compatibility.error);
      }
    }
    StrictResolvesAll(Flatten(config), fetched, strict);
    ghost var spec := BuildFrom([], Flatten(config), dists, deployed, strict);
    ghost var rest := Flatten(config);
    assert config[0..] == config;
    var manifest: AssociationManifest := [];
    for i := 0 to |config|
      invariant rest == Flatten(config[i..])
      invariant strict ==> Resolved(rest, dists)
      invariant spec == BuildFrom(manifest, rest, dists, deployed, strict)
    {
      var functionName := config[i].0;
      var associations := config[i].1.associations;
      FlattenAt(config, i);
      for j := 0 to |associations|
        invariant rest == Pairs(functionName, associations)[j..] + Flatten(config[i + 1..])
        invariant strict ==> Resolved(rest, dists)
        invariant spec == BuildFrom(manifest, rest, dists, deployed, strict)
      {
        var association := associations[j];
        RestStep(Pairs(functionName, associations), Flatten(config[i + 1..]), j);
        BuildStep(manifest, rest, dists, deployed, strict);
        var deployedFunction := FindFunction(functionName, deployed);
        if deployedFunction.Failure? {
          return Failure(deployedFunction.error);
        }
        if !strict && association.distributionId !in dists {
          rest := rest[1..];
          continue;
        }
        manifest := Push(manifest, association.distributionId, dists[association.distributionId],
                         ManifestAssociation(association.behaviourPattern, association.eventType, deployedFunction.value.functionArn));
        rest := rest[1..];
      }
    }
    return Success(manifest);
  }

  // ---- what the manifest holds ----

  /** Every remaining association's function is deployed. */
  predicate AllDeployed(rest: seq<ConfiguredAssociation>, deployed: seq<FunctionSummary>)
  {
    forall ca :: ca in rest ==> FindFunction(ca.functionName, deployed).Success?
  }

  /** The manifest associations configured for `id`, in configuration order. */
  function ForDistribution(rest: seq<ConfiguredAssociation>, deployed: seq<FunctionSummary>, id: string): seq<ManifestAssociation>
    requires AllDeployed(rest, deployed)
    decreases |rest|
  {
    if rest == [] then []
    else
      assert forall x :: x in rest[1..] ==> x in rest;
      var ca := rest[0];
      var tail := ForDistribution(rest[1..], deployed, id);
      if ca.association.distributionId == id then
        [ManifestAssociation(ca.association.behaviourPattern, ca.association.eventType,
                             FindFunction(ca.functionName, deployed).value.functionArn)] + tail
      else tail
  }

  lemma {:induction false} PushEffect(m: AssociationManifest, id: string, d: DistributionResult, a: ManifestAssociation)
    requires DistinctIds(m)
    ensures DistinctIds(Push(m, id, d, a))
    ensures AssocsOf(Push(m, id, d, a), id) == AssocsOf(m, id) + [a]
    ensures forall id' :: id' != id ==> AssocsOf(Push(m, id, d, a), id') == AssocsOf(m, id')
    ensures forall e :: e in Push(m, id, d, a) ==>
              e in m || (e.distributionId == id && e.associations != [] && (e.distribution == d || exists e' :: e' in m && e'.distributionId == id && e'.distribution == e.distribution))
    decreases |m|
  {
    if m != [] && m[0].distributionId != id {
      PushEffect(m[1..], id, d, a);
      var p := Push(m[1..], id, d, a);
      forall e | e in Push(m, id, d, a) && e != m[0] ensures e in p { }
      forall i, j | 0 <= i < j < |[m[0]] + p| ensures ([m[0]] + p)[i].distributionId != ([m[0]] + p)[j].distributionId {
        if i == 0 {
          var e := p[j - 1];
          assert e in p;
          if e !in m[1..] {
            assert e.distributionId == id;
          } else {
            var k :| 0 <= k < |m[1..]| && m[1..][k] == e;
            assert m[k + 1] == e;
          }
        }
      }
    } else if m != [] {
      var p := Push(m, id, d, a);
      forall i, j | 0 <= i < j < |p| ensures p[i].distributionId != p[j].distributionId {
        assert p[i].distributionId == m[i].distributionId && p[j].distributionId == m[j].distributionId;
      }
    }
  }

  /** Pushing under `id` extends that id's associations by `a` and leaves every other id's alone. */
  lemma {:induction false} PushAssocs(m: AssociationManifest, id: string, d: DistributionResult, a: ManifestAssociation, id': string)
    ensures AssocsOf(Push(m, id, d, a), id') == AssocsOf(m, id') + (if id' == id then [a] else [])
    decreases |m|
  {
    if m != [] && m[0].distributionId != id {
      PushAssocs(m[1..], id, d, a, id');
      assert ([m[0]] + Push(m[1..], id, d, a))[1..] == Push(m[1..], id, d, a);
    } else if m != [] {
      assert ([m[0].(associations := m[0].associations + [a])] + m[1..])[1..] == m[1..];
    }
  }

  lemma PushKeepsEntries(m: AssociationManifest, dists: DistributionMap, id: string, a: ManifestAssociation)
    requires DistinctIds(m) && EntriesFrom(m, dists) && id in dists
    ensures EntriesFrom(Push(m, id, dists[id], a), dists)
  {
    PushEffect(m, id, dists[id], a);
  }

  /** Building from `m0` keeps the ids distinct and every entry taken from the map. */
  lemma {:induction false} BuildKeepsEntries(m0: AssociationManifest, rest: seq<ConfiguredAssociation>, dists: DistributionMap,
                                             deployed: seq<FunctionSummary>, strict: bool)
    requires strict ==> Resolved(rest, dists)
    requires DistinctIds(m0) && EntriesFrom(m0, dists)
    requires BuildFrom(m0, rest, dists, deployed, strict).Success?
    ensures DistinctIds(BuildFrom(m0, rest, dists, deployed, strict).value)
    ensures EntriesFrom(BuildFrom(m0, rest, dists, deployed, strict).value, dists)
    decreases |rest|
  {
    if rest != [] {
      BuildStep(m0, rest, dists, deployed, strict);
      var ca := rest[0];
      var id0 := ca.association.distributionId;
      if !strict && id0 !in dists {
        BuildKeepsEntries(m0, rest[1..], dists, deployed, strict);
      } else {
        var a := ManifestAssociation(ca.association.behaviourPattern, ca.association.eventType,
                                     FindFunction(ca.functionName, deployed).value.functionArn);
        PushEffect(m0, id0, dists[id0], a);
        PushKeepsEntries(m0, dists, id0, a);
        BuildKeepsEntries(Push(m0, id0, dists[id0], a), rest[1..], dists, deployed, strict);
      }
    }
  }

  /** What a non-empty remainder whose functions are all deployed passes on to its tail. */
  lemma DeployedTail(rest: seq<ConfiguredAssociation>, dists: DistributionMap, deployed: seq<FunctionSummary>, strict: bool)
    requires rest != [] && AllDeployed(rest, deployed) && (strict ==> Resolved(rest, dists))
    ensures FindFunction(rest[0].functionName, deployed).Success?
    ensures AllDeployed(rest[1..], deployed) && (strict ==> Resolved(rest[1..], dists))
  {
    assert rest[0] in rest;
    assert forall x :: x in rest[1..] ==> x in rest;
  }

  /** Building from `m0` appends to `id` exactly its configured associations,
      in order, unless its distribution is skipped. */
  lemma {:induction false} BuildAssocsOf(m0: AssociationManifest, rest: seq<ConfiguredAssociation>, dists: DistributionMap,
                                         deployed: seq<FunctionSummary>, strict: bool, id: string)
    requires strict ==> Resolved(rest, dists)
    requires AllDeployed(rest, deployed)
    requires BuildFrom(m0, rest, dists, deployed, strict).Success?
    ensures AssocsOf(BuildFrom(m0, rest, dists, deployed, strict).value, id) ==
            AssocsOf(m0, id) + (if strict || id in dists then ForDistribution(rest, deployed, id) else [])
    decreases |rest|
  {
    if rest != [] {
      var ca := rest[0];
      var id0 := ca.association.distributionId;
      DeployedTail(rest, dists, deployed, strict);
      var f := FindFunction(ca.functionName, deployed).value;
      var tail := ForDistribution(rest[1..], deployed, id);
      if !strict && id0 !in dists {
        assert BuildFrom(m0, rest, dists, deployed, strict) == BuildFrom(m0, rest[1..], dists, deployed, strict);
        BuildAssocsOf(m0, rest[1..], dists, deployed, strict, id);
        if id in dists {
          assert ForDistribution(rest, deployed, id) == tail;
        }
      } else {
        var a := ManifestAssociation(ca.association.behaviourPattern, ca.association.eventType, f.functionArn);
        var m1 := Push(m0, id0, dists[id0], a);
        assert BuildFrom(m0, rest, dists, deployed, strict) == BuildFrom(m1, rest[1..], dists, deployed, strict);
        PushAssocs(m0, id0, dists[id0], a, id);
        BuildAssocsOf(m1, rest[1..], dists, deployed, strict, id);
        assert strict || id0 in dists;
        if id == id0 {
          assert ForDistribution(rest, deployed, id) == [a] + tail;
          assert (AssocsOf(m0, id) + [a]) + tail == AssocsOf(m0, id) + ([a] + tail);
        } else {
          assert ForDistribution(rest, deployed, id) == tail;
          assert AssocsOf(m0, id) + [] == AssocsOf(m0, id);
        }
      }
    } else {
      assert AssocsOf(m0, id) + [] == AssocsOf(m0, id);
    }
  }

  /** Building from `m0` appends to each kept id exactly its configured
      associations, in order; ids of skipped distributions get none. */
  lemma BuildGroups(m0: AssociationManifest, rest: seq<ConfiguredAssociation>, dists: DistributionMap,
                    deployed: seq<FunctionSummary>, strict: bool)
    requires strict ==> Resolved(rest, dists)
    requires DistinctIds(m0) && EntriesFrom(m0, dists)
    requires BuildFrom(m0, rest, dists, deployed, strict).Success?
    ensures AllDeployed(rest, deployed)
    ensures var m := BuildFrom(m0, rest, dists, deployed, strict).value;
            && DistinctIds(m) && EntriesFrom(m, dists)
            && forall id :: AssocsOf(m, id) == AssocsOf(m0, id) + (if strict || id in dists then ForDistribution(rest, deployed, id) else [])
  {
    BuildFailsIffUndeployed(m0, rest, dists, deployed, strict);
    BuildKeepsEntries(m0, rest, dists, deployed, strict);
    forall id ensures AssocsOf(BuildFrom(m0, rest, dists, deployed, strict).value, id) ==
                      AssocsOf(m0, id) + (if strict || id in dists then ForDistribution(rest, deployed, id) else []) {
      BuildAssocsOf(m0, rest, dists, deployed, strict, id);
    }
  }

  /** The manifest fails exactly when some configured function is undeployed,
      whether or not its distribution was skipped. */
  lemma {:induction false} BuildFailsIffUndeployed(m0: AssociationManifest, rest: seq<ConfiguredAssociation>, dists: DistributionMap,
                                                   deployed: seq<FunctionSummary>, strict: bool)
    requires strict ==> Resolved(rest, dists)
    ensures BuildFrom(m0, rest, dists, deployed, strict).Failure? <==> !AllDeployed(rest, deployed)
    ensures BuildFrom(m0, rest, dists, deployed, strict).Failure? ==>
              exists ca :: ca in rest && FindFunction(ca.functionName, deployed).Failure? &&
                           BuildFrom(m0, rest, dists, deployed, strict).error == FunctionNotInAws(ca.functionName)
    decreases |rest|
  {
    if rest != [] {
      BuildStep(m0, rest, dists, deployed, strict);
      var ca := rest[0];
      assert forall x :: x in rest ==> x == ca || x in rest[1..];
      if FindFunction(ca.functionName, deployed).Success? {
        var id0 := ca.association.distributionId;
        if !strict && id0 !in dists {
          BuildFailsIffUndeployed(m0, rest[1..], dists, deployed, strict);
        } else {
          var a := ManifestAssociation(ca.association.behaviourPattern, ca.association.eventType, FindFunction(ca.functionName, deployed).value.functionArn);
          BuildFailsIffUndeployed(Push(m0, id0, dists[id0], a), rest[1..], dists, deployed, strict);
        }
      }
    }
  }

  /** A successful manifest has one entry per kept distribution id, holding
      the map's snapshot and that id's configured associations in order; a
      distribution skipped in non-strict mode has no entry. */
  lemma ManifestGroups(config: FunctionConfigMap, deployed: seq<FunctionSummary>, fetched: seq<RemoteReply>, strict: bool)
    requires |fetched| == |Flatten(config)|
    requires CreateManifest(config, deployed, fetched, strict).Success?
    ensures GetAssociatedDistributions(Flatten(config), fetched, strict).Success?
    ensures AllDeployed(Flatten(config), deployed)
    ensures var m := CreateManifest(config, deployed, fetched, strict).value;
            var dists := GetAssociatedDistributions(Flatten(config), fetched, strict).value;
            && DistinctIds(m) && EntriesFrom(m, dists)
            && forall id :: AssocsOf(m, id) == if strict || id in dists then ForDistribution(Flatten(config), deployed, id) else []
  {
    var flat := Flatten(config);
    var dists := GetAssociatedDistributions(flat, fetched, strict).value;
    StrictResolvesAll(flat, fetched, strict);
    BuildGroups([], flat, dists, deployed, strict);
  }

  /** findFunction runs before the skip test: an undeployed function aborts
      the manifest once the fetches and the compatibility check are through. */
  lemma UndeployedFunctionAborts(config: FunctionConfigMap, deployed: seq<FunctionSummary>, fetched: seq<RemoteReply>, strict: bool,
                                 ca: ConfiguredAssociation)
    requires |fetched| == |Flatten(config)|
    requires ca in Flatten(config) && FindFunction(ca.functionName, deployed).Failure?
    ensures CreateManifest(config, deployed, fetched, strict).Failure?
  {
    var flat := Flatten(config);
    if GetAssociatedDistributions(flat, fetched, strict).Success? {
      StrictResolvesAll(flat, fetched, strict);
      BuildFailsIffUndeployed([], flat, GetAssociatedDistributions(flat, fetched, strict).value, deployed, strict);
    }
  }

  /** In strict mode an association whose pattern matches no behaviour of its
      distribution aborts the manifest with NoMatchingBehaviour. */
  lemma StrictIncompatibleFails(config: FunctionConfigMap, deployed: seq<FunctionSummary>, fetched: seq<RemoteReply>, k: nat)
    requires |fetched| == |Flatten(config)| && k < |Flatten(config)|
    requires GetAssociatedDistributions(Flatten(config), fetched, true).Success?
    requires !Compatible(Flatten(config)[k], GetAssociatedDistributions(Flatten(config), fetched, true).value)
    ensures CreateManifest(config, deployed, fetched, true).Failure?
    ensures CreateManifest(config, deployed, fetched, true).error.NoMatchingBehaviour?
  {
  }

  /** In non-strict mode behaviour patterns are never checked: once the fetches
      are through and every function is deployed, the manifest is built. */
  lemma NonStrictIgnoresBehaviours(config: FunctionConfigMap, deployed: seq<FunctionSummary>, fetched: seq<RemoteReply>)
    requires |fetched| == |Flatten(config)|
    requires GetAssociatedDistributions(Flatten(config), fetched, false).Success?
    requires AllDeployed(Flatten(config), deployed)
    ensures CreateManifest(config, deployed, fetched, false).Success?
  {
    BuildFailsIffUndeployed([], Flatten(config), GetAssociatedDistributions(Flatten(config), fetched, false).value, deployed, false);
  }

  // ---- the strict variant ----

  /** A configured association leaves an association for its distribution. */
  lemma {:induction false} ForDistributionHas(rest: seq<ConfiguredAssociation>, deployed: seq<FunctionSummary>, ca: ConfiguredAssociation)
    requires AllDeployed(rest, deployed) && ca in rest
    ensures ForDistribution(rest, deployed, ca.association.distributionId) != []
    decreases |rest|
  {
    assert forall x :: x in rest[1..] ==> x in rest;
    if rest[0] != ca {
      assert ca in rest[1..];
      ForDistributionHas(rest[1..], deployed, ca);
    }
  }

  /** An id with associations has an entry. */
  lemma {:induction false} AssocsOfHasEntry(m: AssociationManifest, id: string)
    requires AssocsOf(m, id) != []
    ensures exists e :: e in m && e.distributionId == id
    decreases |m|
  {
    if m[0].distributionId != id {
      AssocsOfHasEntry(m[1..], id);
      var e :| e in m[1..] && e.distributionId == id;
      assert e in m;
    }
  }

  lemma StrictKeysPresent(m: AssociationManifest, rest: seq<ConfiguredAssociation>, deployed: seq<FunctionSummary>)
    requires AllDeployed(rest, deployed)
    requires forall id :: AssocsOf(m, id) == ForDistribution(rest, deployed, id)
    ensures forall ca :: ca in rest ==> exists e :: e in m && e.distributionId == ca.association.distributionId
  {
    forall ca | ca in rest ensures exists e :: e in m && e.distributionId == ca.association.distributionId {
      ForDistributionHas(rest, deployed, ca);
      AssocsOfHasEntry(m, ca.association.distributionId);
    }
  }

  /** createAssociationManifest of src/cli/commands/associate/utils.ts, always
      strict: any failed fetch aborts with its error; an association whose
      pattern matches no behaviour aborts with NoMatchingBehaviour naming the
      first such one; a manifest is returned only when every pattern matched,
      and then it holds an entry for every configured distribution id, with
      exactly that id's configured associations in order. */
  function CreateStrictManifest(config: FunctionConfigMap, deployed: seq<FunctionSummary>, fetched: seq<RemoteReply>)
    : (r: Result<AssociationManifest, Error>)
    requires |fetched| == |Flatten(config)|
    ensures (exists k :: 0 <= k < |fetched| && fetched[k].Failure?) ==>
              r.Failure? && exists k :: 0 <= k < |fetched| && fetched[k].Failure? && r.error == fetched[k].error
    ensures (forall k :: 0 <= k < |fetched| ==> fetched[k].Success?) ==>
              var flat := Flatten(config);
              var dists := GetAssociatedDistributions(flat, fetched, true).value;
              (exists k :: 0 <= k < |flat| && !Compatible(flat[k], dists)) ==>
                && r.Failure?
                && exists k :: && 0 <= k < |flat|
                              && !Compatible(flat[k], dists)
                              && (forall j :: 0 <= j < k ==> Compatible(flat[j], dists))
                              && r.error == NoMatchingBehaviour(flat[k].association.distributionId,
                                                                flat[k].association.behaviourPattern, flat[k].functionName)
    ensures r.Success? ==>
              var flat := Flatten(config);
              && GetAssociatedDistributions(flat, fetched, true).Success?
              && (forall k :: 0 <= k < |flat| ==> Compatible(flat[k], GetAssociatedDistributions(flat, fetched, true).value))
              && AllDeployed(flat, deployed)
              && (forall id :: AssocsOf(r.value, id) == ForDistribution(flat, deployed, id))
              && (forall ca :: ca in flat ==> exists e :: e in r.value && e.distributionId == ca.association.distributionId)
  {
    var m := CreateManifest(config, deployed, fetched, true);
    if m.Success? then
      ManifestGroups(config, deployed, fetched, true);
      StrictKeysPresent(m.value, Flatten(config), deployed);
      m
    else m
  }
}
