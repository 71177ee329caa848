/** mergeEventObject of src/cli/commands/test/main.ts and DEFAULT_EVENT_OBJECT
    of src/cli/commands/test/consts.ts: the event object a test case is run
    with, as it stands before JSON.stringify serialises it. */
module TestEvent {
  import opened Wrappers
  import opened Types
  import opened AsymmetricMatch

  /** The own properties of a plain object, in key order. */
  type Fields = seq<(string, Json)>

  /** `obj[key] = value`: an existing key keeps its place, a new key goes last. */
  function Assign(fields: Fields, key: string, value: Json): (r: Fields)
    ensures Lookup(r, key) == Some(value)
    ensures forall other :: other != key ==> Lookup(r, other) == Lookup(fields, other)
    ensures |r| == if Lookup(fields, key).Some? then |fields| else |fields| + 1
    decreases |fields|
  {
    if fields == [] then [(key, value)]
    else if fields[0].0 == key then [(key, value)] + fields[1..]
    else
      var rest := Assign(fields[1..], key, value);
      assert ([fields[0]] + rest)[1..] == rest;
      [fields[0]] + rest
  }

  /** `delete obj[key]`. */
  function Delete(fields: Fields, key: string): (r: Fields)
    ensures Lookup(r, key) == None
    ensures forall other :: other != key ==> Lookup(r, other) == Lookup(fields, other)
    decreases |fields|
  {
    if fields == [] then []
    else if fields[0].0 == key then Delete(fields[1..], key)
    else
      var rest := Delete(fields[1..], key);
      assert ([fields[0]] + rest)[1..] == rest;
      [fields[0]] + rest
  }

  /** `{ ...target, ...source }`: the fields of source assigned one by one. */
  function AssignAll(target: Fields, source: Fields): Fields
    decreases |source|
  {
    if source == [] then target
    else AssignAll(Assign(target, source[0].0, source[0].1), source[1..])
  }

  /** A key the source does not have keeps the target's value. */
  lemma {:induction false} AssignAllUntouched(target: Fields, source: Fields, key: string)
    requires Lookup(source, key).None?
    ensures Lookup(AssignAll(target, source), key) == Lookup(target, key)
    decreases |source|
  {
    if source != [] {
      AssignAllUntouched(Assign(target, source[0].0, source[0].1), source[1..], key);
    }
  }

  /** With distinct source keys, each key takes the source's value if it has
      one and the target's otherwise. */
  lemma {:induction false} AssignAllLookup(target: Fields, source: Fields, key: string)
    requires DistinctKeys(source)
    ensures Lookup(source, key).Some? ==> Lookup(AssignAll(target, source), key) == Lookup(source, key)
    ensures Lookup(source, key).None? ==> Lookup(AssignAll(target, source), key) == Lookup(target, key)
    decreases |source|
  {
    if source != [] {
      var rest := source[1..];
      assert DistinctKeys(rest) by {
        forall k, l | 0 <= k < l < |rest| ensures rest[k].0 != rest[l].0 {
          assert rest[k] == source[k + 1] && rest[l] == source[l + 1];
        }
      }
      if key == source[0].0 {
        forall k | 0 <= k < |rest| ensures rest[k].0 != key {
          assert rest[k] == source[k + 1];
        }
        AssignAllUntouched(Assign(target, key, source[0].1), rest, key);
      } else {
        AssignAllLookup(Assign(target, source[0].0, source[0].1), rest, key);
      }
    }
  }

  /** DEFAULT_EVENT_OBJECT.response: a 200 OK with no headers or cookies. */
  const DefaultResponse: Json := JObj([
    ("statusCode", JNum(200)),
    ("statusDescription", JStr("OK")),
    ("headers", JObj([])),
    ("cookies", JObj([]))])

  /** DEFAULT_EVENT_OBJECT. */
  const DefaultEventObject: Fields := [
    ("version", JStr("1.0")),
    ("context", JObj([
      ("distributionDomainName", JStr("")),
      ("distributionId", JStr("")),
      ("eventType", JStr("")),
      ("requestId", JStr(""))])),
    ("viewer", JObj([("ip", JStr("198.51.100.11"))])),
    ("request", JObj([
      ("method", JStr("")),
      ("uri", JStr("")),
      ("querystring", JObj([])),
      ("headers", JObj([])),
      ("cookies", JObj([]))])),
    ("response", DefaultResponse)
  ]

  /** The `context` written over every event, from the first association. */
  function Context(distributionId: string, eventType: EventType, uuid: string): (r: Json)
    ensures r.JObj?
    ensures Lookup(r.fields, "distributionId") == Some(JStr(distributionId))
    ensures Lookup(r.fields, "eventType") == Some(JStr(EventTypeName(eventType)))
    ensures Lookup(r.fields, "distributionDomainName") == Some(JStr(distributionId + ".cloudfront.net"))
    ensures Lookup(r.fields, "requestId") == Some(JStr("test-" + uuid))
  {
    var fields := [
      ("distributionId", JStr(distributionId)),
      ("eventType", JStr(EventTypeName(eventType))),
      ("distributionDomainName", JStr(distributionId + ".cloudfront.net")),
      ("requestId", JStr("test-" + uuid))];
    assert "requestId"[0] != "eventType"[0];
    assert Lookup(fields[3..], "requestId") == Some(fields[3].1);
    assert Lookup(fields[2..], "distributionDomainName") == Some(fields[2].1);
    assert Lookup(fields[2..], "requestId") == Some(fields[3].1);
    JObj(fields)
  }

  /** mergeEventObject. `uuid` is the value v4() returns. An empty association
      list makes the destructuring of `associations[0]` throw. */
  function MergeEventObject(given: Json, config: FunctionConfig, uuid: string): (r: Result<Json, Error>)
    ensures r.Failure? <==> config.associations == []
    ensures r.Failure? ==> r.error == NoAssociations
    ensures r.Success? ==> r.value.JObj?
    ensures r.Success? ==>
              var id := config.associations[0].distributionId;
              var context := Lookup(r.value.fields, "context");
              && context.Some? && context.value.JObj?
              && Lookup(context.value.fields, "distributionId") == Some(JStr(id))
              && Lookup(context.value.fields, "eventType") == Some(JStr(EventTypeName(config.associations[0].eventType)))
              && Lookup(context.value.fields, "distributionDomainName") == Some(JStr(id + ".cloudfront.net"))
              && Lookup(context.value.fields, "requestId") == Some(JStr("test-" + uuid))
  {
    if config.associations == [] then Failure(NoAssociations)
    else
      var association := config.associations[0];
      var defaults :=
        if association.eventType == ViewerRequest then Delete(DefaultEventObject, "response") else DefaultEventObject;
      var context := Context(association.distributionId, association.eventType, uuid);
      Success(JObj(Assign(AssignAll(defaults, Spread(given).fields), "context", context)))
  }

  /** Apart from `context`, a top-level key takes the given object's value if
      it has one, and the default's otherwise; for viewer-request there is no
      default `response`. */
  lemma MergeOverridesDefaults(given: Json, config: FunctionConfig, uuid: string, key: string)
    requires config.associations != [] && key != "context"
    requires DistinctKeys(Spread(given).fields)
    ensures Lookup(MergeEventObject(given, config, uuid).value.fields, key) ==
            if Lookup(Spread(given).fields, key).Some? then Lookup(Spread(given).fields, key)
            else if key == "response" && config.associations[0].eventType == ViewerRequest then None
            else Lookup(DefaultEventObject, key)
  {
    var association := config.associations[0];
    var defaults :=
      if association.eventType == ViewerRequest then Delete(DefaultEventObject, "response") else DefaultEventObject;
    AssignAllLookup(defaults, Spread(given).fields, key);
  }

  /** A viewer-request event has a `response` only when the test case gives one. */
  lemma ViewerRequestHasNoDefaultResponse(given: Json, config: FunctionConfig, uuid: string)
    requires config.associations != [] && config.associations[0].eventType == ViewerRequest
    requires Lookup(Spread(given).fields, "response").None?
    ensures Lookup(MergeEventObject(given, config, uuid).value.fields, "response").None?
  {
    AssignAllUntouched(Delete(DefaultEventObject, "response"), Spread(given).fields, "response");
  }

  /** A viewer-response event the test case leaves without `response` gets the default 200 OK. */
  lemma ViewerResponseKeepsDefaultResponse(given: Json, config: FunctionConfig, uuid: string)
    requires config.associations != [] && config.associations[0].eventType == ViewerResponse
    requires Lookup(Spread(given).fields, "response").None?
    ensures Lookup(MergeEventObject(given, config, uuid).value.fields, "response") == Some(DefaultResponse)
  {
    LookupFirst(DefaultEventObject, "response", 4);
    var association := config.associations[0];
    var merged := AssignAll(DefaultEventObject, Spread(given).fields);
    AssignAllUntouched(DefaultEventObject, Spread(given).fields, "response");
    assert "response" != "context";
    assert MergeEventObject(given, config, uuid).value.fields ==
           Assign(merged, "context", Context(association.distributionId, association.eventType, uuid));
  }
}
