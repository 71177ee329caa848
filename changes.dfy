/** Change detection of src/cli/utils.ts (haveAssociationsChanged and
    haveBehaviourAssociationsChanged; src/cli/commands/associate/utils.ts has
    an identical copy). As written it only looks for new items that the old
    snapshot lacks: a removal is never reported as a change. */
module ChangeDetection {
  import opened Wrappers
  import opened Types
  import opened Snapshot
  import opened Behaviours

  /** Some item of the new behaviour has no (FunctionARN, EventType) match in the old one. */
  predicate BehaviourChanged(newFa: Option<FunctionAssociations>, oldFa: Option<FunctionAssociations>)
  {
    exists i :: 0 <= i < |ItemsOf(newFa)| && !DoesAssociationExist(ItemsOf(newFa)[i], oldFa)
  }

  /** `oldBehaviour?.FunctionAssociations`, where oldBehaviour is the first old
      named behaviour with the given PathPattern, or undefined. */
  function OldAssociations(oldC: DistributionConfig, pattern: string): Option<FunctionAssociations>
  {
    match FindPattern(Named(oldC), pattern)
    case None => None
    case Some(j) => Named(oldC)[j].functionAssociations
  }

  /** The default behaviour, or some new named behaviour compared with the old
      behaviour of the same PathPattern, gained an association. */
  predicate AssociationsChanged(newC: DistributionConfig, oldC: DistributionConfig)
  {
    || BehaviourChanged(newC.defaultCacheBehavior.functionAssociations, oldC.defaultCacheBehavior.functionAssociations)
    || exists i :: 0 <= i < |Named(newC)| &&
                   BehaviourChanged(Named(newC)[i].functionAssociations, OldAssociations(oldC, Named(newC)[i].pathPattern))
  }

  method HaveBehaviourAssociationsChanged(newFa: Option<FunctionAssociations>, oldFa: Option<FunctionAssociations>)
    returns (hasChanged: bool)
    ensures hasChanged == BehaviourChanged(newFa, oldFa)
  {
    hasChanged := false;
    var items := ItemsOf(newFa);
    for i := 0 to |items|
      invariant hasChanged <==> exists k :: 0 <= k < i && !DoesAssociationExist(items[k], oldFa)
    {
      if !DoesAssociationExist(items[i], oldFa) {
        hasChanged := true;
      }
    }
  }

  method HaveAssociationsChanged(newDistribution: DistributionResult, oldDistribution: DistributionResult)
    returns (hasChanged: bool)
    ensures hasChanged == AssociationsChanged(newDistribution.config, oldDistribution.config)
  {
    var newC, oldC := newDistribution.config, oldDistribution.config;
    hasChanged := HaveBehaviourAssociationsChanged(
      newC.defaultCacheBehavior.functionAssociations, oldC.defaultCacheBehavior.functionAssociations);
    var named := Named(newC);
    for i := 0 to |named|
      invariant hasChanged <==>
        || BehaviourChanged(newC.defaultCacheBehavior.functionAssociations, oldC.defaultCacheBehavior.functionAssociations)
        || exists k :: 0 <= k < i && BehaviourChanged(named[k].functionAssociations, OldAssociations(oldC, named[k].pathPattern))
    {
      var changed := HaveBehaviourAssociationsChanged(named[i].functionAssociations, OldAssociations(oldC, named[i].pathPattern));
      if changed {
        hasChanged := true;
      }
    }
  }

  /** No two named behaviours share a PathPattern (CloudFront refuses such a config). */
  predicate UniquePatterns(c: DistributionConfig)
  {
    forall i, j :: 0 <= i < j < |Named(c)| ==> Named(c)[i].pathPattern != Named(c)[j].pathPattern
  }

  predicate ItemsSubset(newFa: Option<FunctionAssociations>, oldFa: Option<FunctionAssociations>)
  {
    forall x :: x in ItemsOf(newFa) ==> x in ItemsOf(oldFa)
  }

  /** newC is oldC with items possibly taken away: the same named behaviours in
      the same order, and every behaviour's items a subset of its old items. */
  predicate Shrunk(newC: DistributionConfig, oldC: DistributionConfig)
  {
    && SameShape(oldC, newC)
    && ItemsSubset(newC.defaultCacheBehavior.functionAssociations, oldC.defaultCacheBehavior.functionAssociations)
    && forall i :: 0 <= i < |Named(newC)| ==> ItemsSubset(Named(newC)[i].functionAssociations, Named(oldC)[i].functionAssociations)
  }

  /** With distinct path patterns, taking items away is never detected as a change. */
  lemma ShrunkIsUnchanged(newC: DistributionConfig, oldC: DistributionConfig)
    requires UniquePatterns(oldC)
    requires Shrunk(newC, oldC)
    ensures !AssociationsChanged(newC, oldC)
  {
    forall i | 0 <= i < |Named(newC)|
      ensures !BehaviourChanged(Named(newC)[i].functionAssociations, OldAssociations(oldC, Named(newC)[i].pathPattern))
    {
      var found := FindPattern(Named(oldC), Named(newC)[i].pathPattern);
      assert Named(oldC)[i].pathPattern == Named(newC)[i].pathPattern;
      assert found == Some(i);
    }
  }

  /** A snapshot compared with itself shows no change, provided its patterns are distinct. */
  lemma SelfIsUnchanged(c: DistributionConfig)
    requires UniquePatterns(c)
    ensures !AssociationsChanged(c, c)
  {
    ShrunkIsUnchanged(c, c);
  }

  /** A new named behaviour with items and no old behaviour of the same pattern counts as a change. */
  lemma MissingOldBehaviourIsChange(newC: DistributionConfig, oldC: DistributionConfig, i: nat)
    requires i < |Named(newC)| && |ItemsOf(Named(newC)[i].functionAssociations)| > 0
    requires forall j :: 0 <= j < |Named(oldC)| ==> Named(oldC)[j].pathPattern != Named(newC)[i].pathPattern
    ensures AssociationsChanged(newC, oldC)
  {
    assert OldAssociations(oldC, Named(newC)[i].pathPattern) == None;
    assert !DoesAssociationExist(ItemsOf(Named(newC)[i].functionAssociations)[0], None);
  }
}

/** The rule shared by associateFunctionsWithDistribution and
    disassociateFunctionsFromDistribution: edit a clone, write it only if a
    change is detected, and report any thrown error against the original. */
module Reconcile {
  import opened Wrappers
  import opened Types
  import opened ChangeDetection

  /** One per-distribution task: how it settled, and the update request it sent, if any. */
  datatype Attempt = Attempt(result: Result<AssociateResult, AssociateResultError>, sent: Option<UpdateRequest>)

  /** `mutated` is the edited clone's config, or the error the edit threw;
      `reply` is what updateDistribution would answer if called. */
  function WriteIfChanged(associations: seq<ManifestAssociation>, distribution: DistributionResult,
                          mutated: Result<DistributionConfig, Error>, reply: RemoteReply): (r: Attempt)
    ensures r.sent.Some? <==> mutated.Success? && AssociationsChanged(mutated.value, distribution.config)
    ensures r.sent.Some? ==> r.sent.value == UpdateRequest(distribution.id, mutated.value, distribution.eTag)
    ensures r.result.Failure? ==> r.result.error.distribution == distribution
    ensures mutated.Failure? ==> r.result.Failure? && r.result.error.error == mutated.error
    ensures mutated.Success? && r.result.Failure? ==> reply.Failure? && r.result.error.error == reply.error
    ensures r.result.Failure? <==> mutated.Failure? || (r.sent.Some? && reply.Failure?)
    ensures r.result.Success? ==> r.result.value.associations == associations && r.result.value.distribution.id == distribution.id
    ensures r.result.Success? && r.sent.None? ==>
              r.result.value.distribution == DistributionResult(distribution.id, distribution.eTag, mutated.value)
    ensures r.result.Success? && r.sent.Some? ==>
              r.result.value.distribution == ParseDistributionResult(distribution.id, reply.value)
  {
    match mutated
    case Failure(e) => Attempt(Failure(AssociateResultError(distribution, e)), None)
    case Success(c) =>
      if AssociationsChanged(c, distribution.config) then
        var request := UpdateRequest(distribution.id, c, distribution.eTag);
        match reply
        case Failure(e) => Attempt(Failure(AssociateResultError(distribution, e)), Some(request))
        case Success(remote) =>
          Attempt(Success(AssociateResult(associations, ParseDistributionResult(distribution.id, remote))), Some(request))
      else
        Attempt(Success(AssociateResult(associations, DistributionResult(distribution.id, distribution.eTag, c))), None)
  }
}
