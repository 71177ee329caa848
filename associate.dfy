/** The association half of src/cli/commands/associate/utils.ts:
    addAssociationsToDistribution and associateFunctionsWithDistribution. */
module Associate {
  import opened Wrappers
  import opened Types
  import opened Snapshot
  import opened Behaviours
  import opened ChangeDetection
  import opened Reconcile

  /** What a touched behaviour's FunctionAssociations becomes: a copy of its
      Items (or []) and its Quantity (or 0), with the pair appended and
      Quantity incremented when no item has that FunctionARN and EventType. */
  function Appended(fa: Option<FunctionAssociations>, a: FunctionAssociation): FunctionAssociations
  {
    var copy := FunctionAssociations(if fa.Some? then fa.value.quantity else 0, Some(ItemsOf(fa)));
    if !DoesAssociationExist(a, Some(copy)) then FunctionAssociations(copy.quantity + 1, Some(ItemsOf(fa) + [a]))
    else copy
  }

  /** One step of the forEach: locate the behaviour (reading through an
      undefined one throws) and store the appended associations on it. */
  function AddOne(c: DistributionConfig, a: ManifestAssociation): Result<DistributionConfig, Error>
  {
    match FindBehaviour(a.pathPattern, c)
    case None => Failure(UndefinedBehaviour(a.pathPattern))
    case Some(r) => Success(WithAssociationsAt(c, r, Some(Appended(AssociationsAt(c, r), Key(a)))))
  }

  /** The whole forEach, stopping at the first throw. */
  function AddAll(c: DistributionConfig, associations: seq<ManifestAssociation>): Result<DistributionConfig, Error>
    decreases |associations|
  {
    if associations == [] then Success(c)
    else match AddOne(c, associations[0])
      case Failure(e) => Failure(e)
      case Success(c') => AddAll(c', associations[1..])
  }

  /** The forEach callback of addAssociationsToDistribution, on one association. */
  method AddAssociation(association: ManifestAssociation, d: Draft) returns (outcome: Outcome<Error>)
    modifies d
    ensures d.id == old(d.id) && d.eTag == old(d.eTag)
    ensures AddOne(old(d.config), association) == if outcome.Pass? then Success(d.config) else Failure(outcome.error)
  {
    var behaviour := FindBehaviour(association.pathPattern, d.config);
    if behaviour.None? {
      return Fail(UndefinedBehaviour(association.pathPattern));
    }
    var current := AssociationsAt(d.config, behaviour.value);
    var newAssociations := FunctionAssociations(if current.Some? then current.value.quantity else 0, Some(ItemsOf(current)));
    if !DoesAssociationExist(Key(association), Some(newAssociations)) {
      newAssociations := FunctionAssociations(newAssociations.quantity + 1, Some(newAssociations.items.value + [Key(association)]));
    }
    assert newAssociations == Appended(current, Key(association));
    d.config := WithAssociationsAt(d.config, behaviour.value, Some(newAssociations));
    return Pass;
  }

  /** addAssociationsToDistribution, editing the clone in place. */
  method AddAssociationsToDistribution(associations: seq<ManifestAssociation>, d: Draft) returns (outcome: Outcome<Error>)
    modifies d
    ensures d.id == old(d.id) && d.eTag == old(d.eTag)
    ensures AddAll(old(d.config), associations) == if outcome.Pass? then Success(d.config) else Failure(outcome.error)
  {
    for i := 0 to |associations|
      invariant d.id == old(d.id) && d.eTag == old(d.eTag)
      invariant AddAll(old(d.config), associations) == AddAll(d.config, associations[i..])
    {
      assert associations[i..] == [associations[i]] + associations[i + 1..];
      var added := AddAssociation(associations[i], d);
      if added.Fail? {
        return added;
      }
    }
    return Pass;
  }

  /** associateFunctionsWithDistribution. `reply` is what updateDistribution
      answers if it is called. The fetched `distribution` is a value and is
      never changed; only the fresh clone is edited. */
  method AssociateFunctionsWithDistribution(associations: seq<ManifestAssociation>, distribution: DistributionResult,
                                            reply: RemoteReply) returns (attempt: Attempt)
    ensures attempt == WriteIfChanged(associations, distribution, AddAll(distribution.config, associations), reply)
  {
    var newDistribution := new Draft.Clone(distribution);
    var added := AddAssociationsToDistribution(associations, newDistribution);
    if added.Fail? {
      return Attempt(Failure(AssociateResultError(distribution, added.error)), None);
    }
    var snapshot := newDistribution.Snapshot();
    var changed := HaveAssociationsChanged(snapshot, distribution);
    var sent: Option<UpdateRequest> := None;
    if changed {
      var request := UpdateRequest(snapshot.id, snapshot.config, snapshot.eTag);
      sent := Some(request);
      if reply.Failure? {
        return Attempt(Failure(AssociateResultError(distribution, reply.error)), sent);
      }
      snapshot := ParseDistributionResult(request.id, reply.value);
    }
    return Attempt(Success(AssociateResult(associations, snapshot)), sent);
  }

  // ---- properties of the add ----

  /** One add on a locatable behaviour: the pair is appended and Quantity goes
      up by exactly one when no item has its FunctionARN and EventType;
      otherwise Items and Quantity are kept (an absent FunctionAssociations
      becoming {Items: [], Quantity: 0}); no other behaviour changes. */
  lemma AddOneEffect(c: DistributionConfig, a: ManifestAssociation, r: BehaviourRef)
    requires FindBehaviour(a.pathPattern, c) == Some(r)
    ensures AddOne(c, a).Success?
    ensures var c' := AddOne(c, a).value;
            var before := AssociationsAt(c, r);
            var q := if before.Some? then before.value.quantity else 0;
            && SameShape(c, c')
            && (Key(a) !in ItemsOf(before) ==> AssociationsAt(c', r) == Some(FunctionAssociations(q + 1, Some(ItemsOf(before) + [Key(a)]))))
            && (Key(a) in ItemsOf(before) ==> AssociationsAt(c', r) == Some(FunctionAssociations(q, Some(ItemsOf(before)))))
            && forall r' :: ValidRef(c, r') && r' != r ==> AssociationsAt(c', r') == AssociationsAt(c, r')
  {
  }

  lemma {:induction false} AddAllSameShape(c: DistributionConfig, associations: seq<ManifestAssociation>)
    requires AddAll(c, associations).Success?
    ensures SameShape(c, AddAll(c, associations).value)
    decreases |associations|
  {
    if associations != [] {
      var c' := AddOne(c, associations[0]).value;
      AddAllSameShape(c', associations[1..]);
    }
  }

  /** The add throws exactly when some association's pattern names no behaviour. */
  lemma {:induction false} AddAllSucceedsIff(c: DistributionConfig, associations: seq<ManifestAssociation>)
    ensures AddAll(c, associations).Success? <==>
            forall k :: 0 <= k < |associations| ==> FindBehaviour(associations[k].pathPattern, c).Some?
    decreases |associations|
  {
    if associations != [] {
      if AddOne(c, associations[0]).Success? {
        var c' := AddOne(c, associations[0]).value;
        AddAllSucceedsIff(c', associations[1..]);
        forall k | 0 <= k < |associations[1..]|
          ensures FindBehaviour(associations[1..][k].pathPattern, c') == FindBehaviour(associations[1..][k].pathPattern, c)
        {
          FindBehaviourSameShape(associations[1..][k].pathPattern, c, c');
        }
        assert forall k :: 0 < k < |associations| ==> associations[k] == associations[1..][k - 1];
      }
    }
  }

  /** The association's pair is among the items of the behaviour its pattern names. */
  predicate Installed(c: DistributionConfig, a: ManifestAssociation)
  {
    FindBehaviour(a.pathPattern, c).Some? && Key(a) in ItemsOf(AssociationsAt(c, FindBehaviour(a.pathPattern, c).value))
  }

  lemma AddOneKeepsInstalled(c: DistributionConfig, a: ManifestAssociation, b: ManifestAssociation)
    requires AddOne(c, a).Success? && Installed(c, b)
    ensures Installed(AddOne(c, a).value, a) && Installed(AddOne(c, a).value, b)
  {
    var c' := AddOne(c, a).value;
    FindBehaviourSameShape(a.pathPattern, c, c');
    FindBehaviourSameShape(b.pathPattern, c, c');
  }

  lemma AddOneInstalls(c: DistributionConfig, a: ManifestAssociation)
    requires AddOne(c, a).Success?
    ensures Installed(AddOne(c, a).value, a)
  {
    FindBehaviourSameShape(a.pathPattern, c, AddOne(c, a).value);
  }

  /** Adding never loses a pair that was already installed. */
  lemma {:induction false} AddAllKeepsInstalled(c: DistributionConfig, associations: seq<ManifestAssociation>, b: ManifestAssociation)
    requires AddAll(c, associations).Success? && Installed(c, b)
    ensures Installed(AddAll(c, associations).value, b)
    decreases |associations|
  {
    if associations != [] {
      AddOneKeepsInstalled(c, associations[0], b);
      AddAllKeepsInstalled(AddOne(c, associations[0]).value, associations[1..], b);
    }
  }

  /** After the add, every association is installed on its behaviour. */
  lemma {:induction false} AddAllInstallsEach(c: DistributionConfig, associations: seq<ManifestAssociation>)
    requires AddAll(c, associations).Success?
    ensures forall k :: 0 <= k < |associations| ==> Installed(AddAll(c, associations).value, associations[k])
    decreases |associations|
  {
    if associations != [] {
      var c' := AddOne(c, associations[0]).value;
      AddOneInstalls(c, associations[0]);
      AddAllKeepsInstalled(c', associations[1..], associations[0]);
      AddAllInstallsEach(c', associations[1..]);
      forall k | 0 < k < |associations| ensures Installed(AddAll(c, associations).value, associations[k]) {
        assert associations[k] == associations[1..][k - 1];
      }
    }
  }

  /** Adding an installed association leaves the config exactly as it was. */
  lemma AddOneInstalledIsNoop(c: DistributionConfig, a: ManifestAssociation)
    requires Installed(c, a)
    ensures AddOne(c, a) == Success(c)
  {
    var r := FindBehaviour(a.pathPattern, c).value;
    var fa := AssociationsAt(c, r);
    assert Appended(fa, Key(a)) == fa.value;
    match r
    case DefaultBehaviour =>
    case NamedBehaviour(i) =>
      var items := Named(c);
      assert items[i := items[i].(functionAssociations := fa)] == items;
  }

  lemma {:induction false} AddAllInstalledIsNoop(c: DistributionConfig, associations: seq<ManifestAssociation>)
    requires forall k :: 0 <= k < |associations| ==> Installed(c, associations[k])
    ensures AddAll(c, associations) == Success(c)
    decreases |associations|
  {
    if associations != [] {
      AddOneInstalledIsNoop(c, associations[0]);
      assert forall k :: 0 <= k < |associations[1..]| ==> associations[1..][k] == associations[k + 1];
      AddAllInstalledIsNoop(c, associations[1..]);
    }
  }

  /** Idempotence: a second add of the same associations changes nothing. */
  lemma AddAllIdempotent(c: DistributionConfig, associations: seq<ManifestAssociation>)
    requires AddAll(c, associations).Success?
    ensures AddAll(AddAll(c, associations).value, associations) == AddAll(c, associations)
  {
    AddAllInstallsEach(c, associations);
    AddAllInstalledIsNoop(AddAll(c, associations).value, associations);
  }

  /** Quantity agrees with the length of Items (an absent FunctionAssociations counting as agreeing). */
  predicate QuantityMatches(fa: Option<FunctionAssociations>)
  {
    fa.Some? ==> fa.value.quantity == |ItemsOf(fa)|
  }

  ghost predicate QuantitiesMatch(c: DistributionConfig)
  {
    forall r :: ValidRef(c, r) ==> QuantityMatches(AssociationsAt(c, r))
  }

  /** Quantity is copied and incremented, never recomputed, so agreement that
      held before the add still holds after it. */
  lemma {:induction false} AddAllKeepsQuantities(c: DistributionConfig, associations: seq<ManifestAssociation>)
    requires QuantitiesMatch(c) && AddAll(c, associations).Success?
    ensures QuantitiesMatch(AddAll(c, associations).value)
    decreases |associations|
  {
    if associations != [] {
      var c' := AddOne(c, associations[0]).value;
      var r := FindBehaviour(associations[0].pathPattern, c).value;
      AddOneEffect(c, associations[0], r);
      forall r' | ValidRef(c', r') ensures QuantityMatches(AssociationsAt(c', r')) {
        assert ValidRef(c, r');
      }
      AddAllKeepsQuantities(c', associations[1..]);
    }
  }

  /** A behaviour that no association's pattern selects is left as it was. */
  lemma {:induction false} AddAllLeavesOthers(c: DistributionConfig, associations: seq<ManifestAssociation>, r: BehaviourRef)
    requires AddAll(c, associations).Success? && ValidRef(c, r)
    requires forall k :: 0 <= k < |associations| ==> FindBehaviour(associations[k].pathPattern, c) != Some(r)
    ensures ValidRef(AddAll(c, associations).value, r)
    ensures AssociationsAt(AddAll(c, associations).value, r) == AssociationsAt(c, r)
    decreases |associations|
  {
    if associations != [] {
      var c' := AddOne(c, associations[0]).value;
      forall k | 0 <= k < |associations[1..]|
        ensures FindBehaviour(associations[1..][k].pathPattern, c') != Some(r)
      {
        FindBehaviourSameShape(associations[1..][k].pathPattern, c, c');
        assert associations[1..][k] == associations[k + 1];
      }
      AddAllLeavesOthers(c', associations[1..], r);
    }
  }

  // ---- properties of the associate step ----

  /** An association whose pair was not yet on its behaviour is detected as a
      change once added, so the update is sent. */
  lemma NewPairIsWritten(c: DistributionConfig, associations: seq<ManifestAssociation>, k: nat)
    requires AddAll(c, associations).Success?
    requires k < |associations| && !Installed(c, associations[k])
    ensures AssociationsChanged(AddAll(c, associations).value, c)
  {
    var c' := AddAll(c, associations).value;
    var a := associations[k];
    AddAllSucceedsIff(c, associations);
    AddAllSameShape(c, associations);
    AddAllInstallsEach(c, associations);
    FindBehaviourSameShape(a.pathPattern, c, c');
    match FindBehaviour(a.pathPattern, c).value
    case DefaultBehaviour =>
      assert !DoesAssociationExist(Key(a), c.defaultCacheBehavior.functionAssociations);
    case NamedBehaviour(i) =>
      assert FindPattern(Named(c), a.pathPattern) == Some(i);
      assert !DoesAssociationExist(Key(a), OldAssociations(c, Named(c')[i].pathPattern));
  }

  lemma SameShapeKeepsUniquePatterns(c: DistributionConfig, c': DistributionConfig)
    requires SameShape(c, c') && UniquePatterns(c)
    ensures UniquePatterns(c')
  {
  }

  /** Running the associate step again on what it produced, with distinct
      path patterns, sends no update and settles with that same distribution. */
  lemma AssociateTwiceWritesNothing(associations: seq<ManifestAssociation>, d: DistributionResult, eTag: string, reply: RemoteReply)
    requires UniquePatterns(d.config) && AddAll(d.config, associations).Success?
    ensures var d' := DistributionResult(d.id, eTag, AddAll(d.config, associations).value);
            WriteIfChanged(associations, d', AddAll(d'.config, associations), reply) ==
            Attempt(Success(AssociateResult(associations, d')), None)
  {
    var c' := AddAll(d.config, associations).value;
    AddAllIdempotent(d.config, associations);
    AddAllSameShape(d.config, associations);
    SameShapeKeepsUniquePatterns(d.config, c');
    SelfIsUnchanged(c');
  }
}
