/** Addressing the behaviours of a DistributionConfig, and the mutable deep
    copy (`cloneDeep`) that the associate and destroy commands edit in place. */
module Snapshot {
  import opened Wrappers
  import opened Types

  /** Names one behaviour: the DefaultCacheBehavior, or CacheBehaviors.Items[index]. */
  datatype BehaviourRef = DefaultBehaviour | NamedBehaviour(index: nat)

  /** CacheBehaviors?.Items, with an absent list read as empty (as `?.forEach` and `?.find` do). */
  function Named(c: DistributionConfig): seq<CacheBehavior>
  {
    if c.cacheBehaviors.Some? && c.cacheBehaviors.value.items.Some? then c.cacheBehaviors.value.items.value else []
  }

  /** FunctionAssociations?.Items, with an absent list read as empty. */
  function ItemsOf(fa: Option<FunctionAssociations>): seq<FunctionAssociation>
  {
    if fa.Some? && fa.value.items.Some? then fa.value.items.value else []
  }

  predicate ValidRef(c: DistributionConfig, r: BehaviourRef)
  {
    r.NamedBehaviour? ==> r.index < |Named(c)|
  }

  /** The FunctionAssociations of the referenced behaviour. */
  function AssociationsAt(c: DistributionConfig, r: BehaviourRef): Option<FunctionAssociations>
    requires ValidRef(c, r)
  {
    match r
    case DefaultBehaviour => c.defaultCacheBehavior.functionAssociations
    case NamedBehaviour(i) => Named(c)[i].functionAssociations
  }

  /** Two configs with the same named behaviours, pattern by pattern. */
  predicate SameShape(c: DistributionConfig, c': DistributionConfig)
  {
    && |Named(c')| == |Named(c)|
    && forall i :: 0 <= i < |Named(c)| ==> Named(c')[i].pathPattern == Named(c)[i].pathPattern
  }

  /** `behaviour.FunctionAssociations = fa` on the referenced behaviour. */
  function WithAssociationsAt(c: DistributionConfig, r: BehaviourRef, fa: Option<FunctionAssociations>): (c': DistributionConfig)
    requires ValidRef(c, r)
    ensures SameShape(c, c')
    ensures AssociationsAt(c', r) == fa
    ensures forall r' :: ValidRef(c, r') && r' != r ==> AssociationsAt(c', r') == AssociationsAt(c, r')
  {
    match r
    case DefaultBehaviour =>
      c.(defaultCacheBehavior := c.defaultCacheBehavior.(functionAssociations := fa))
    case NamedBehaviour(i) =>
      var items := Named(c);
      c.(cacheBehaviors := Some(c.cacheBehaviors.value.(items := Some(items[i := items[i].(functionAssociations := fa)]))))
  }

  /** A second assignment to the same behaviour's FunctionAssociations overrides the first. */
  lemma WithAssociationsAtTwice(c: DistributionConfig, r: BehaviourRef, fa: Option<FunctionAssociations>, fa': Option<FunctionAssociations>)
    requires ValidRef(c, r)
    ensures WithAssociationsAt(WithAssociationsAt(c, r, fa), r, fa') == WithAssociationsAt(c, r, fa')
  {
    match r
    case DefaultBehaviour =>
    case NamedBehaviour(i) =>
      var items := Named(c);
      var once := items[i := items[i].(functionAssociations := fa)];
      assert once[i := once[i].(functionAssociations := fa')] == items[i := items[i].(functionAssociations := fa')];
  }

  /** The in-memory copy made by `cloneDeep(distribution)`: a fresh object whose
      fields are edited in place while the fetched value stays as it was. */
  class Draft {
    var id: string
    var eTag: string
    var config: DistributionConfig

    constructor Clone(d: DistributionResult)
      ensures Snapshot() == d
    {
      id := d.id;
      eTag := d.eTag;
      config := d.config;
    }

    /** The current contents, as a value. */
    function Snapshot(): DistributionResult
      reads this
    {
      DistributionResult(id, eTag, config)
    }
  }
}
