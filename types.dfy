/** The data model: the configuration types of src/types.ts, the CloudFront
    shapes the core reads (DistributionConfig, FunctionAssociations, ...),
    DistributionResult of src/aws/cloud-front/types.ts, and the manifest and
    result records of src/cli/types.ts. Fields the core never reads are left
    out of every record. */
module Types {
  import opened Wrappers

  /** DistributionEventType. */
  datatype EventType = ViewerRequest | ViewerResponse

  function EventTypeName(e: EventType): string
  {
    match e
    case ViewerRequest => "viewer-request"
    case ViewerResponse => "viewer-response"
  }

  /** The BehaviourPattern that names a distribution's DefaultCacheBehavior. */
  const DefaultPattern: string := "default"

  // ---- configuration (src/types.ts) ----

  datatype FunctionAssociationConfig =
    FunctionAssociationConfig(distributionId: string, eventType: EventType, behaviourPattern: string)

  /** FunctionConfig, reduced to the field the core reads. */
  datatype FunctionConfig = FunctionConfig(associations: seq<FunctionAssociationConfig>)

  /** FunctionConfigMap: function name to its configuration, in the object's
      key order (the order `for ... in` and `Object.values` visit, taken here as
      insertion order; JS visits integer-like keys first). */
  type FunctionConfigMap = seq<(string, FunctionConfig)>

  /** One configured association together with the function that declares it. */
  datatype ConfiguredAssociation =
    ConfiguredAssociation(functionName: string, association: FunctionAssociationConfig)

  // ---- CloudFront shapes ----

  datatype FunctionAssociation = FunctionAssociation(functionArn: string, eventType: EventType)

  /** FunctionAssociations: Quantity is a plain counter kept beside Items and
      Items itself may be absent. */
  datatype FunctionAssociations =
    FunctionAssociations(quantity: int, items: Option<seq<FunctionAssociation>>)

  datatype DefaultCacheBehavior = DefaultCacheBehavior(functionAssociations: Option<FunctionAssociations>)

  datatype CacheBehavior =
    CacheBehavior(pathPattern: string, functionAssociations: Option<FunctionAssociations>)

  datatype CacheBehaviors = CacheBehaviors(quantity: int, items: Option<seq<CacheBehavior>>)

  datatype DistributionConfig =
    DistributionConfig(defaultCacheBehavior: DefaultCacheBehavior, cacheBehaviors: Option<CacheBehaviors>)

  /** DistributionResult: a fetched snapshot, with the ETag to send as IfMatch. */
  datatype DistributionResult = DistributionResult(id: string, eTag: string, config: DistributionConfig)

  /** FunctionSummary, reduced to Name and FunctionMetadata.FunctionARN. */
  datatype FunctionSummary = FunctionSummary(name: string, functionArn: string)

  // ---- manifest and results (src/cli/types.ts) ----

  datatype ManifestAssociation =
    ManifestAssociation(pathPattern: string, eventType: EventType, functionArn: string)

  /** The (FunctionARN, EventType) pair by which associations are compared. */
  function Key(a: ManifestAssociation): FunctionAssociation
  {
    FunctionAssociation(a.functionArn, a.eventType)
  }

  /** One value of AssociationManifest, with the key it is stored under. */
  datatype ManifestEntry =
    ManifestEntry(distributionId: string, distribution: DistributionResult, associations: seq<ManifestAssociation>)

  /** AssociationManifest, in key insertion order (the order `Object.values`
      yields for keys that are not integer-like). */
  type AssociationManifest = seq<ManifestEntry>

  datatype AssociateResult = AssociateResult(associations: seq<ManifestAssociation>, distribution: DistributionResult)

  datatype AssociateResultError = AssociateResultError(distribution: DistributionResult, error: Error)

  // ---- errors ----

  /** The `name` of an error raised by the AWS SDK, as far as the core tells them apart. */
  datatype ErrorName = DistributionNotFound | FunctionNotFound | PreconditionFailed | OtherAwsError(code: string)

  datatype Error =
    | AwsError(name: ErrorName)
      // findFunction: the named function is not deployed (a fatal exit in the source)
    | FunctionNotInAws(functionName: string)
      // assertFunctionDistributionCompatibility: no behaviour matches the pattern
    | NoMatchingBehaviour(distributionId: string, pattern: string, functionName: string)
      // a TypeError from reading FunctionAssociations of an undefined behaviour
    | UndefinedBehaviour(pattern: string)
      // a TypeError from reading `associations[0]` of an empty list
    | NoAssociations
      // a SyntaxError from JSON.parse of a test function's output
    | UnparsableOutput
      // a TypeError from `Object.keys(null)` while matching an expected null
    | KeysOfNull

  // ---- remote calls ----

  /** What getDistributionConfig or updateDistribution answers: the config and
      its ETag. parseDistributionResult pairs it with the requested id. */
  datatype RemoteConfig = RemoteConfig(eTag: string, config: DistributionConfig)

  type RemoteReply = Result<RemoteConfig, Error>

  /** The arguments of CloudFront's updateDistribution: Id, DistributionConfig and IfMatch. */
  datatype UpdateRequest = UpdateRequest(id: string, config: DistributionConfig, ifMatch: string)

  function ParseDistributionResult(id: string, remote: RemoteConfig): DistributionResult
  {
    DistributionResult(id, remote.eTag, remote.config)
  }
}
