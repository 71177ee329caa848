/** The destroy command of src/cli/commands/destroy/main.ts: removing
    associations on a cloned snapshot (removeAssociation,
    removeAssociationsFromDistribution), the write-if-changed step
    (disassociateFunctionsFromDistribution), the tolerant deletion of
    functions (destroyAllFunctions) and the order of the handler's steps. */
module Destroy {
  import opened Wrappers
  import opened Types
  import opened Snapshot
  import opened Behaviours
  import opened ChangeDetection
  import opened Reconcile
  import opened Manifest
  import opened Settle
  import opened Poller

  // ---- removeAssociation ----

  /** What `Array.prototype.splice(start, deleteCount)` returns: the removed
      elements, a negative start counting back from the end. */
  function Splice<T>(items: seq<T>, start: int, deleteCount: nat): (removed: seq<T>)
    ensures |removed| <= deleteCount
    ensures forall x :: x in removed ==> x in items
  {
    var from := if start < 0 then (if |items| + start < 0 then 0 else |items| + start)
                else if start > |items| then |items| else start;
    var to := if from + deleteCount > |items| then |items| else from + deleteCount;
    items[from..to]
  }

  /** `Items.indexOf(association)` compares identity, and the association is
      the object built for the manifest, which is never an element of Items. */
  const IdentityIndex: int := -1

  /** removeAssociation on the behaviour `r`: nothing when no item has the
      association's FunctionARN and EventType; otherwise Items becomes what
      `splice(indexOf(association), 1)` returns and Quantity goes down by one. */
  function RemoveAt(c: DistributionConfig, r: BehaviourRef, a: ManifestAssociation): DistributionConfig
    requires ValidRef(c, r)
  {
    var fa := AssociationsAt(c, r);
    if !DoesAssociationExist(Key(a), fa) then c
    else WithAssociationsAt(c, r, Some(FunctionAssociations(fa.value.quantity - 1, Some(Splice(fa.value.items.value, IdentityIndex, 1)))))
  }

  /** One step of the forEach: findBehaviour on the clone, then removeAssociation
      (reading through an undefined behaviour throws). */
  function RemoveOne(c: DistributionConfig, a: ManifestAssociation): Result<DistributionConfig, Error>
  {
    match FindBehaviour(a.pathPattern, c)
    case None => Failure(UndefinedBehaviour(a.pathPattern))
    case Some(r) => Success(RemoveAt(c, r, a))
  }

  function RemoveAll(c: DistributionConfig, associations: seq<ManifestAssociation>): Result<DistributionConfig, Error>
    decreases |associations|
  {
    if associations == [] then Success(c)
    else match RemoveOne(c, associations[0])
      case Failure(e) => Failure(e)
      case Success(c') => RemoveAll(c', associations[1..])
  }

  /** removeAssociation, editing the clone's behaviour in place. The splice
      also shortens the old array, which is dropped at once. */
  method RemoveAssociation(association: ManifestAssociation, d: Draft, behaviour: BehaviourRef)
    requires ValidRef(d.config, behaviour)
    modifies d
    ensures d.id == old(d.id) && d.eTag == old(d.eTag)
    ensures d.config == RemoveAt(old(d.config), behaviour, association)
  {
    var fa := AssociationsAt(d.config, behaviour);
    if !DoesAssociationExist(Key(association), fa) {
      return;
    }
    var items := Splice(fa.value.items.value, IdentityIndex, 1);
    WithAssociationsAtTwice(d.config, behaviour, Some(fa.value.(items := Some(items))),
                            Some(FunctionAssociations(fa.value.quantity - 1, Some(items))));
    d.config := WithAssociationsAt(d.config, behaviour, Some(fa.value.(items := Some(items))));
    d.config := WithAssociationsAt(d.config, behaviour, Some(FunctionAssociations(fa.value.quantity - 1, Some(items))));
  }

  /** removeAssociationsFromDistribution. */
  method RemoveAssociationsFromDistribution(associations: seq<ManifestAssociation>, d: Draft) returns (outcome: Outcome<Error>)
    modifies d
    ensures d.id == old(d.id) && d.eTag == old(d.eTag)
    ensures RemoveAll(old(d.config), associations) == if outcome.Pass? then Success(d.config) else Failure(outcome.error)
  {
    for i := 0 to |associations|
      invariant d.id == old(d.id) && d.eTag == old(d.eTag)
      invariant RemoveAll(old(d.config), associations) == RemoveAll(d.config, associations[i..])
    {
      var association := associations[i];
      assert associations[i..] == [association] + associations[i + 1..];
      var behaviour := FindBehaviour(association.pathPattern, d.config);
      if behaviour.None? {
        return Fail(UndefinedBehaviour(association.pathPattern));
      }
      RemoveAssociation(association, d, behaviour.value);
    }
    return Pass;
  }

  /** disassociateFunctionsFromDistribution. */
  method DisassociateFunctionsFromDistribution(associations: seq<ManifestAssociation>, distribution: DistributionResult,
                                               reply: RemoteReply) returns (attempt: Attempt)
    ensures attempt == WriteIfChanged(associations, distribution, RemoveAll(distribution.config, associations), reply)
  {
    var newDistribution := new Draft.Clone(distribution);
    var removed := RemoveAssociationsFromDistribution(associations, newDistribution);
    if removed.Fail? {
      return Attempt(Failure(AssociateResultError(distribution, removed.error)), None);
    }
    var snapshot := newDistribution.Snapshot();
    var changed := HaveAssociationsChanged(snapshot, distribution);
    var sent: Option<UpdateRequest> := None;
    if changed {
      var request := UpdateRequest(snapshot.id, snapshot.config, snapshot.eTag);
      sent := Some(request);
      if reply.Failure? {
        return Attempt(Failure(AssociateResultError(distribution, reply.error)), sent);
      }
      snapshot := ParseDistributionResult(request.id, reply.value);
    }
    return Attempt(Success(AssociateResult(associations, snapshot)), sent);
  }

  // ---- properties of the removal, as written ----

  /** On a non-empty list the splice at the identity index returns the last item alone. */
  lemma SpliceAtIdentityIndexIsLast<T>(items: seq<T>)
    requires items != []
    ensures Splice(items, IdentityIndex, 1) == [items[|items| - 1]]
  {
  }

  /** No (ARN, EventType) match, an absent FunctionAssociations included: nothing changes. */
  lemma RemoveWithoutMatchIsNoop(c: DistributionConfig, r: BehaviourRef, a: ManifestAssociation)
    requires ValidRef(c, r) && Key(a) !in ItemsOf(AssociationsAt(c, r))
    ensures RemoveAt(c, r, a) == c
  {
  }

  /** With a match, Quantity goes down by exactly one and Items becomes the
      one-element list holding the previous last item, whichever item matched;
      no other behaviour changes. */
  lemma RemoveWithMatchKeepsLast(c: DistributionConfig, r: BehaviourRef, a: ManifestAssociation)
    requires ValidRef(c, r) && Key(a) in ItemsOf(AssociationsAt(c, r))
    ensures var before := AssociationsAt(c, r).value;
            var items := before.items.value;
            && AssociationsAt(RemoveAt(c, r, a), r) == Some(FunctionAssociations(before.quantity - 1, Some([items[|items| - 1]])))
            && SameShape(c, RemoveAt(c, r, a))
            && forall r' :: ValidRef(c, r') && r' != r ==> AssociationsAt(RemoveAt(c, r, a), r') == AssociationsAt(c, r')
  {
    SpliceAtIdentityIndexIsLast(AssociationsAt(c, r).value.items.value);
  }

  /** Removing the only association of a behaviour leaves it in place, with Quantity 0. */
  lemma RemovingOnlyItemKeepsIt(arn: string, e: EventType)
    ensures var item := FunctionAssociation(arn, e);
            var c := DistributionConfig(DefaultCacheBehavior(Some(FunctionAssociations(1, Some([item])))), None);
            RemoveOne(c, ManifestAssociation(DefaultPattern, e, arn)) ==
            Success(DistributionConfig(DefaultCacheBehavior(Some(FunctionAssociations(0, Some([item])))), None))
  {
    var item := FunctionAssociation(arn, e);
    SpliceAtIdentityIndexIsLast([item]);
  }

  /** Removing the second of two associations keeps it and drops the first instead. */
  lemma RemovingSecondDropsFirst(x: FunctionAssociation, y: FunctionAssociation)
    ensures var c := DistributionConfig(DefaultCacheBehavior(Some(FunctionAssociations(2, Some([x, y])))), None);
            RemoveOne(c, ManifestAssociation(DefaultPattern, y.eventType, y.functionArn)) ==
            Success(DistributionConfig(DefaultCacheBehavior(Some(FunctionAssociations(1, Some([y])))), None))
  {
    SpliceAtIdentityIndexIsLast([x, y]);
  }

  lemma RemoveAtShrinks(c: DistributionConfig, r: BehaviourRef, a: ManifestAssociation)
    requires ValidRef(c, r)
    ensures Shrunk(RemoveAt(c, r, a), c)
  {
    var c' := RemoveAt(c, r, a);
    if DoesAssociationExist(Key(a), AssociationsAt(c, r)) {
      assert ItemsSubset(AssociationsAt(c', r), AssociationsAt(c, r));
      match r
      case DefaultBehaviour =>
        assert Named(c') == Named(c);
      case NamedBehaviour(i) =>
        assert c'.defaultCacheBehavior == c.defaultCacheBehavior;
        forall j | 0 <= j < |Named(c')|
          ensures ItemsSubset(Named(c')[j].functionAssociations, Named(c)[j].functionAssociations)
        {
          assert j != i ==> AssociationsAt(c', NamedBehaviour(j)) == AssociationsAt(c, NamedBehaviour(j));
        }
    }
  }

  lemma ShrunkTransitive(c1: DistributionConfig, c2: DistributionConfig, c3: DistributionConfig)
    requires Shrunk(c2, c1) && Shrunk(c3, c2)
    ensures Shrunk(c3, c1)
  {
    forall i | 0 <= i < |Named(c3)|
      ensures ItemsSubset(Named(c3)[i].functionAssociations, Named(c1)[i].functionAssociations)
    {
      assert ItemsSubset(Named(c3)[i].functionAssociations, Named(c2)[i].functionAssociations);
    }
  }

  /** After any sequence of removals every behaviour's Items is a subset of its original Items. */
  lemma {:induction false} RemoveAllShrinks(c: DistributionConfig, associations: seq<ManifestAssociation>)
    requires RemoveAll(c, associations).Success?
    ensures Shrunk(RemoveAll(c, associations).value, c)
    decreases |associations|
  {
    if associations == [] {
      forall i | 0 <= i < |Named(c)|
        ensures ItemsSubset(Named(c)[i].functionAssociations, Named(c)[i].functionAssociations)
      {
      }
    } else {
      var r := FindBehaviour(associations[0].pathPattern, c).value;
      var c' := RemoveAt(c, r, associations[0]);
      RemoveAtShrinks(c, r, associations[0]);
      RemoveAllShrinks(c', associations[1..]);
      ShrunkTransitive(c, c', RemoveAll(c, associations).value);
    }
  }

  /** The removal throws exactly when some association's pattern names no behaviour. */
  lemma {:induction false} RemoveAllSucceedsIff(c: DistributionConfig, associations: seq<ManifestAssociation>)
    ensures RemoveAll(c, associations).Success? <==>
            forall k :: 0 <= k < |associations| ==> FindBehaviour(associations[k].pathPattern, c).Some?
    decreases |associations|
  {
    if associations != [] {
      if RemoveOne(c, associations[0]).Success? {
        var c' := RemoveOne(c, associations[0]).value;
        RemoveAtShrinks(c, FindBehaviour(associations[0].pathPattern, c).value, associations[0]);
        RemoveAllSucceedsIff(c', associations[1..]);
        forall k | 0 <= k < |associations[1..]|
          ensures FindBehaviour(associations[1..][k].pathPattern, c') == FindBehaviour(associations[1..][k].pathPattern, c)
        {
          FindBehaviourSameShape(associations[1..][k].pathPattern, c, c');
        }
        assert forall k :: 0 < k < |associations| ==> associations[k] == associations[1..][k - 1];
      }
    }
  }

  /** Removals alone are never detected as a change, so with distinct path
      patterns the disassociate step never sends an update: it settles with
      the unwritten clone, or with the error of an undefined behaviour. */
  lemma DisassociateNeverWrites(associations: seq<ManifestAssociation>, distribution: DistributionResult, reply: RemoteReply)
    requires UniquePatterns(distribution.config)
    ensures var attempt := WriteIfChanged(associations, distribution, RemoveAll(distribution.config, associations), reply);
            && attempt.sent.None?
            && (attempt.result.Success? ==>
                  attempt.result.value.distribution == DistributionResult(distribution.id, distribution.eTag, RemoveAll(distribution.config, associations).value))
            && (attempt.result.Failure? ==> attempt.result.error.error.UndefinedBehaviour?)
  {
    if RemoveAll(distribution.config, associations).Success? {
      RemoveAllShrinks(distribution.config, associations);
      ShrunkIsUnchanged(RemoveAll(distribution.config, associations).value, distribution.config);
    } else {
      RemoveAllFailsUndefined(distribution.config, associations);
    }
  }

  lemma {:induction false} RemoveAllFailsUndefined(c: DistributionConfig, associations: seq<ManifestAssociation>)
    requires RemoveAll(c, associations).Failure?
    ensures RemoveAll(c, associations).error.UndefinedBehaviour?
    decreases |associations|
  {
    if RemoveOne(c, associations[0]).Success? {
      RemoveAllFailsUndefined(RemoveOne(c, associations[0]).value, associations[1..]);
    }
  }

  // ---- destroyAllFunctions ----

  datatype DeleteResult = DeleteResult(functionName: string)

  datatype DeleteResultError = DeleteResultError(functionName: string, error: Error)

  /** One function's deletion: describeFunction for its ETag, then
      deleteFunction with that name and ETag; a FUNCTION_NOT_FOUND from
      either counts as deleted. `delete` answers each (name, ETag) request,
      and is asked only once describe has answered. */
  function DestroyFunction(functionName: string, describe: Result<string, Error>, delete: (string, string) -> Outcome<Error>)
    : (r: Settled<DeleteResult, DeleteResultError>)
    ensures r.Fulfilled? ==> r.value == DeleteResult(functionName)
    ensures r.Rejected? ==> r.reason.functionName == functionName && r.reason.error != AwsError(FunctionNotFound)
    ensures r.Fulfilled? <==>
              || (describe.Success? && delete(functionName, describe.value).Pass?)
              || describe == Failure(AwsError(FunctionNotFound))
              || (describe.Success? && delete(functionName, describe.value) == Fail(AwsError(FunctionNotFound)))
    ensures describe.Failure? && r.Rejected? ==> r.reason.error == describe.error
    ensures describe.Success? && r.Rejected? ==> delete(functionName, describe.value) == Fail(r.reason.error)
    ensures describe.Failure? ==>
              r == if describe.error == AwsError(FunctionNotFound) then Fulfilled(DeleteResult(functionName))
                   else Rejected(DeleteResultError(functionName, describe.error))
  {
    var thrown: Option<Error> :=
      if describe.Failure? then Some(describe.error)
      else
        var deleted := delete(functionName, describe.value);
        if deleted.Fail? then Some(deleted.error) else None;
    if thrown.Some? && thrown.value != AwsError(FunctionNotFound) then Rejected(DeleteResultError(functionName, thrown.value))
    else Fulfilled(DeleteResult(functionName))
  }

  /** destroyAllFunctions, one task per key of the function map: `describe`
      answers describeFunction for each name, and `delete` answers
      deleteFunction for each (name, ETag). */
  function DestroyAllFunctions(config: FunctionConfigMap, describe: string -> Result<string, Error>,
                               delete: (string, string) -> Outcome<Error>)
    : (r: seq<Settled<DeleteResult, DeleteResultError>>)
    ensures |r| == |config|
    ensures forall k :: 0 <= k < |r| ==> r[k] == DestroyFunction(config[k].0, describe(config[k].0), delete)
  {
    seq(|config|, k requires 0 <= k < |config| => DestroyFunction(config[k].0, describe(config[k].0), delete))
  }

  // ---- the handler ----

  /** processAssociationManifest: one disassociate task per manifest entry,
      in manifest order; `update` answers updateDistribution per distribution id. */
  method ProcessAssociationManifest(m: AssociationManifest, update: string -> RemoteReply) returns (attempts: seq<Attempt>)
    ensures |attempts| == |m|
    ensures forall k :: 0 <= k < |m| ==>
              attempts[k] == WriteIfChanged(m[k].associations, m[k].distribution,
                                            RemoveAll(m[k].distribution.config, m[k].associations), update(m[k].distribution.id))
  {
    attempts := [];
    for k := 0 to |m|
      invariant |attempts| == k
      invariant forall j :: 0 <= j < k ==>
                  attempts[j] == WriteIfChanged(m[j].associations, m[j].distribution,
                                                RemoveAll(m[j].distribution.config, m[j].associations), update(m[j].distribution.id))
    {
      var attempt := DisassociateFunctionsFromDistribution(m[k].associations, m[k].distribution, update(m[k].distribution.id));
      assert forall j :: 0 <= j < k ==> (attempts + [attempt])[j] == attempts[j];
      attempts := attempts + [attempt];
    }
  }

  /** What the destroy command does: it stops when the manifest cannot be
      built; otherwise it reports, per manifest entry, the disassociate
      attempt and the poll, and per configured function the deletion. */
  datatype DestroyReport =
    | Aborted(error: Error)
    | Completed(manifest: AssociationManifest, attempts: seq<Attempt>, polls: seq<PollOutcome>,
                deletes: seq<Settled<DeleteResult, DeleteResultError>>)

  /** The handler. `fetched` answers the manifest's fetches; `update`,
      `status`, `describe` and `delete` give, per distribution id, function
      name or (name, ETag), what updateDistribution, the successive fetchDistributionStatus
      calls, describeFunction and deleteFunction answer. */
  method DestroyHandler(config: FunctionConfigMap, liveFunctions: seq<FunctionSummary>, fetched: seq<RemoteReply>,
                        update: string -> RemoteReply, status: string -> seq<Observation>,
                        describe: string -> Result<string, Error>, delete: (string, string) -> Outcome<Error>)
    returns (report: DestroyReport)
    requires |fetched| == |Flatten(config)|
    ensures report.Aborted? <==> CreateManifest(config, liveFunctions, fetched, false).Failure?
    ensures report.Aborted? ==> report.error == CreateManifest(config, liveFunctions, fetched, false).error
    ensures report.Completed? ==>
              var m := CreateManifest(config, liveFunctions, fetched, false).value;
              && report.manifest == m
              && |report.attempts| == |m| && |report.polls| == |m|
              && (forall k :: 0 <= k < |m| ==>
                    report.attempts[k] == WriteIfChanged(m[k].associations, m[k].distribution,
                                                         RemoveAll(m[k].distribution.config, m[k].associations), update(m[k].distribution.id)))
              && (forall k :: 0 <= k < |m| ==> report.polls[k] == Poll(status(m[k].distribution.id)))
              && report.deletes == DestroyAllFunctions(config, describe, delete)
  {
    var manifest := CreateAssociationManifest(config, liveFunctions, fetched, false);
    if manifest.Failure? {
      return Aborted(manifest.error);
    }
    var m := manifest.value;
    var attempts := ProcessAssociationManifest(m, update);
    var polls := PollDistributionsForDeployedStatus(m, status);
    report := Completed(m, attempts, polls, DestroyAllFunctions(config, describe, delete));
  }

  /** With distinct path patterns on every fetched distribution, destroy sends
      no update at all, while every manifest entry is still polled. */
  lemma DestroySendsNoUpdate(m: AssociationManifest, attempts: seq<Attempt>, update: string -> RemoteReply)
    requires |attempts| == |m|
    requires forall k :: 0 <= k < |m| ==> UniquePatterns(m[k].distribution.config)
    requires forall k :: 0 <= k < |m| ==>
               attempts[k] == WriteIfChanged(m[k].associations, m[k].distribution,
                                             RemoveAll(m[k].distribution.config, m[k].associations), update(m[k].distribution.id))
    ensures forall k :: 0 <= k < |attempts| ==> attempts[k].sent.None?
  {
    forall k | 0 <= k < |m| ensures attempts[k].sent.None? {
      DisassociateNeverWrites(m[k].associations, m[k].distribution, update(m[k].distribution.id));
    }
  }
}
