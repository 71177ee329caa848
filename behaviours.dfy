/** The behaviour locator of src/cli/utils.ts (doesBehaviourExist, findBehaviour,
    doesAssociationExist). src/cli/commands/associate/utils.ts carries copies
    of the same three functions (getBehaviour is findBehaviour under another
    name); they are modelled once, here. */
module Behaviours {
  import opened Wrappers
  import opened Types
  import opened Snapshot

  /** `items.find(b => b.PathPattern === pattern)`, as the index found. */
  function FindPattern(items: seq<CacheBehavior>, pattern: string): (r: Option<nat>)
    ensures r.Some? ==> r.value < |items| && items[r.value].pathPattern == pattern
    ensures r.Some? ==> forall j :: 0 <= j < r.value ==> items[j].pathPattern != pattern
    ensures r.None? <==> forall j :: 0 <= j < |items| ==> items[j].pathPattern != pattern
    decreases |items|
  {
    if items == [] then None
    else if items[0].pathPattern == pattern then Some(0)
    else match FindPattern(items[1..], pattern)
      case None => None
      case Some(k) => Some(k + 1)
  }

  /** doesBehaviourExist: the sentinel always exists; any other pattern must be
      the PathPattern of a named behaviour of a distribution that was found. */
  function DoesBehaviourExist(pattern: string, distribution: Option<DistributionResult>): (r: bool)
    ensures r <==> pattern == DefaultPattern
                   || (distribution.Some? &&
                       exists j :: 0 <= j < |Named(distribution.value.config)| &&
                                   Named(distribution.value.config)[j].pathPattern == pattern)
  {
    pattern == DefaultPattern
    || (distribution.Some? && FindPattern(Named(distribution.value.config), pattern).Some?)
  }

  /** findBehaviour (and getBehaviour): the DefaultCacheBehavior for the sentinel,
      otherwise the first named behaviour with that PathPattern. None stands for
      the `undefined` the non-null assertions hide; reading through it throws. */
  function FindBehaviour(pattern: string, c: DistributionConfig): (r: Option<BehaviourRef>)
    ensures r == Some(DefaultBehaviour) <==> pattern == DefaultPattern
    ensures r.Some? ==> ValidRef(c, r.value)
    ensures r.Some? && r.value.NamedBehaviour? ==>
              Named(c)[r.value.index].pathPattern == pattern &&
              forall j :: 0 <= j < r.value.index ==> Named(c)[j].pathPattern != pattern
    ensures r.None? <==> pattern != DefaultPattern && forall j :: 0 <= j < |Named(c)| ==> Named(c)[j].pathPattern != pattern
  {
    if pattern == DefaultPattern then Some(DefaultBehaviour)
    else match FindPattern(Named(c), pattern)
      case None => None
      case Some(k) => Some(NamedBehaviour(k))
  }

  /** The locator finds a behaviour exactly when the compatibility test says one exists. */
  lemma FoundIffExists(pattern: string, d: DistributionResult)
    ensures FindBehaviour(pattern, d.config).Some? <==> DoesBehaviourExist(pattern, Some(d))
  {
  }

  /** The locator depends only on the named behaviours' patterns. */
  lemma FindBehaviourSameShape(pattern: string, c: DistributionConfig, c': DistributionConfig)
    requires SameShape(c, c')
    ensures FindBehaviour(pattern, c') == FindBehaviour(pattern, c)
  {
  }

  /** `items.find(a => a.FunctionARN === ... && a.EventType === ...)`, as the index found. */
  function FindAssociation(items: seq<FunctionAssociation>, a: FunctionAssociation): (r: Option<nat>)
    ensures r.Some? ==> r.value < |items| && items[r.value] == a
    ensures r.None? <==> a !in items
    decreases |items|
  {
    if items == [] then None
    else if items[0].functionArn == a.functionArn && items[0].eventType == a.eventType then Some(0)
    else match FindAssociation(items[1..], a)
      case None => None
      case Some(k) => Some(k + 1)
  }

  /** doesAssociationExist: some item has the same FunctionARN and the same
      EventType; an absent FunctionAssociations or absent Items gives false. */
  function DoesAssociationExist(a: FunctionAssociation, associations: Option<FunctionAssociations>): (r: bool)
    ensures r <==> associations.Some? && associations.value.items.Some? && a in associations.value.items.value
    ensures r <==> a in ItemsOf(associations)
  {
    associations.Some? && associations.value.items.Some? &&
    FindAssociation(associations.value.items.value, a).Some?
  }
}
