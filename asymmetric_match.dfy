/** isAsymmetricMatch, isEqual and hasProperty of
    src/matchers/is-asymmetric-match.ts, over parsed JSON values. A result is
    None when the check throws a TypeError: `Object.keys(null)` is reached
    when a null expected value meets an actual value of type "object". */
module AsymmetricMatch {
  import opened Wrappers

  /** A JSON value. An object is its own keys with their values, in key order. */
  datatype Json =
    | JNull
    | JBool(b: bool)
    | JNum(n: int)
    | JStr(s: string)
    | JArr(items: seq<Json>)
    | JObj(fields: seq<(string, Json)>)

  /** `typeof`: null and arrays are "object". */
  function TypeOf(j: Json): string
  {
    match j
    case JNull => "object"
    case JBool(_) => "boolean"
    case JNum(_) => "number"
    case JStr(_) => "string"
    case JArr(_) => "object"
    case JObj(_) => "object"
  }

  // ---- property keys ----

  /** The canonical decimal string of an index, the key JS uses for it. */
  function DecimalString(n: nat): string
    decreases n
  {
    if n < 10 then ["0123456789"[n]] else DecimalString(n / 10) + ["0123456789"[n % 10]]
  }

  /** The index below `n` whose key is `key`, if any. */
  function IndexOfKey(key: string, n: nat): (r: Option<nat>)
    ensures r.Some? ==> r.value < n && DecimalString(r.value) == key
    ensures r.None? ==> forall i :: 0 <= i < n ==> DecimalString(i) != key
    decreases n
  {
    if n == 0 then None
    else if DecimalString(n - 1) == key then Some(n - 1)
    else IndexOfKey(key, n - 1)
  }

  /** A key's value among an object's fields. */
  function Lookup(fields: seq<(string, Json)>, key: string): (r: Option<Json>)
    ensures r.Some? ==> exists k :: 0 <= k < |fields| && fields[k] == (key, r.value)
    ensures r.None? <==> forall k :: 0 <= k < |fields| ==> fields[k].0 != key
    decreases |fields|
  {
    if fields == [] then None
    else if fields[0].0 == key then Some(fields[0].1)
    else
      var r := Lookup(fields[1..], key);
      assert forall k :: 0 < k < |fields| ==> fields[k] == fields[1..][k - 1];
      r
  }

  /** No key occurs twice, as in any object JSON.parse or a literal produces. */
  predicate DistinctKeys(fields: seq<(string, Json)>)
  {
    forall k, l :: 0 <= k < l < |fields| ==> fields[k].0 != fields[l].0
  }

  /** The value of a key is the one at its first occurrence. */
  lemma {:induction false} LookupFirst(fields: seq<(string, Json)>, key: string, k: nat)
    requires k < |fields| && fields[k].0 == key
    requires forall j :: 0 <= j < k ==> fields[j].0 != key
    ensures Lookup(fields, key) == Some(fields[k].1)
    decreases k
  {
    if k > 0 {
      assert fields[1..][k - 1] == fields[k];
      LookupFirst(fields[1..], key, k - 1);
    }
  }

  /** `hasProperty(obj, key)` as `Some?`, together with `obj[key]`. Only own
      properties are looked up: arrays and non-empty strings own their
      indices and "length"; null, booleans, numbers and "" own nothing. */
  function Property(obj: Json, key: string): (r: Option<Json>)
    ensures obj.JNull? || obj.JBool? || obj.JNum? || obj == JStr("") ==> r.None?
    ensures obj.JObj? ==> r == Lookup(obj.fields, key)
    ensures obj.JArr? ==> (r.Some? <==> key == "length" || exists i :: 0 <= i < |obj.items| && DecimalString(i) == key)
  {
    match obj
    case JObj(fields) => Lookup(fields, key)
    case JArr(items) =>
      var index := IndexOfKey(key, |items|);
      if key == "length" then Some(JNum(|items|))
      else if index.Some? then
        assert DecimalString(index.value) == key;
        Some(items[index.value])
      else None
    case JStr(s) =>
      var index := IndexOfKey(key, |s|);
      if s == "" then None
      else if key == "length" then Some(JNum(|s|))
      else if index.Some? then Some(JStr([s[index.value]]))
      else None
    case _ => None
  }

  /** `{ ...j }`: the own enumerable properties copied into a plain object. */
  function Spread(j: Json): (r: Json)
    ensures r.JObj?
  {
    match j
    case JObj(fields) => j
    case JArr(items) => JObj(seq(|items|, i requires 0 <= i < |items| => (DecimalString(i), items[i])))
    case JStr(s) => JObj(seq(|s|, i requires 0 <= i < |s| => (DecimalString(i), JStr([s[i]]))))
    case _ => JObj([])
  }

  // ---- the matcher ----

  /** isEqual; `actual` is None for `undefined` (an index past the end). */
  function IsEqual(expected: Json, actual: Option<Json>): Option<bool>
    decreases expected, 2
  {
    if actual.None? || TypeOf(expected) != TypeOf(actual.value) then Some(false)
    else if expected.JArr? && actual.value.JArr? then MatchItems(expected, actual.value.items, 0, true)
    else if TypeOf(expected) == "object" then IsAsymmetricMatch(expected, actual.value)
    else Some(expected == actual.value)
  }

  /** isAsymmetricMatch: the reduce over `Object.keys(expected)`. */
  function IsAsymmetricMatch(expected: Json, actual: Json): Option<bool>
    requires TypeOf(expected) == "object"
    decreases expected, 1
  {
    match expected
    case JNull => None
    case JObj(_) => MatchFields(expected, actual, 0, true)
    case JArr(_) => MatchIndices(expected, actual, 0, true)
  }

  /** The reduce over an expected object's keys, from the i-th, with accumulator `eq`. */
  function MatchFields(expected: Json, actual: Json, i: nat, eq: bool): Option<bool>
    requires expected.JObj? && i <= |expected.fields|
    decreases expected, 0, |expected.fields| - i
  {
    if i == |expected.fields| then Some(eq)
    else
      var p := Property(actual, expected.fields[i].0);
      if p.None? then MatchFields(expected, actual, i + 1, false)
      else match IsEqual(expected.fields[i].1, p)
        case None => None
        case Some(b) => MatchFields(expected, actual, i + 1, eq && b)
  }

  /** The same reduce over an expected array's keys "0", "1", ... against an actual that is not an array. */
  function MatchIndices(expected: Json, actual: Json, i: nat, eq: bool): Option<bool>
    requires expected.JArr? && i <= |expected.items|
    decreases expected, 0, |expected.items| - i
  {
    if i == |expected.items| then Some(eq)
    else
      var p := Property(actual, DecimalString(i));
      if p.None? then MatchIndices(expected, actual, i + 1, false)
      else match IsEqual(expected.items[i], p)
        case None => None
        case Some(b) => MatchIndices(expected, actual, i + 1, eq && b)
  }

  function At(items: seq<Json>, i: nat): Option<Json>
  {
    if i < |items| then Some(items[i]) else None
  }

  /** The reduce over two arrays: every expected index against the same actual index. */
  function MatchItems(expected: Json, actualItems: seq<Json>, i: nat, eq: bool): Option<bool>
    requires expected.JArr? && i <= |expected.items|
    decreases expected, 0, |expected.items| - i
  {
    if i == |expected.items| then Some(eq)
    else match IsEqual(expected.items[i], At(actualItems, i))
      case None => None
      case Some(b) => MatchItems(expected, actualItems, i + 1, eq && b)
  }

  // ---- characterisation ----

  /** No null anywhere in the value. */
  predicate NullFree(j: Json)
    decreases j
  {
    match j
    case JNull => false
    case JArr(items) => forall i :: 0 <= i < |items| ==> NullFree(items[i])
    case JObj(fields) => forall k :: 0 <= k < |fields| ==> NullFree(fields[k].1)
    case _ => true
  }

  /** An expected key is present in actual and its values are isEqual. */
  predicate FieldMatches(field: (string, Json), actual: Json)
  {
    Property(actual, field.0).Some? && IsEqual(field.1, Property(actual, field.0)) == Some(true)
  }

  predicate ItemMatches(expected: Json, actualItems: seq<Json>, i: nat)
    requires expected.JArr? && i < |expected.items|
  {
    IsEqual(expected.items[i], At(actualItems, i)) == Some(true)
  }

  predicate IndexMatches(expected: Json, actual: Json, i: nat)
    requires expected.JArr? && i < |expected.items|
  {
    FieldMatches((DecimalString(i), expected.items[i]), actual)
  }

  /** Without nulls in the expected value nothing throws. */
  lemma {:induction false} IsEqualDefined(expected: Json, actual: Option<Json>)
    requires NullFree(expected)
    ensures IsEqual(expected, actual).Some?
    decreases expected, 2
  {
    if actual.Some? && TypeOf(expected) == TypeOf(actual.value) {
      if expected.JArr? && actual.value.JArr? {
        ItemsAll(expected, actual.value.items, 0, true);
      } else if expected.JObj? {
        FieldsAll(expected, actual.value, 0, true);
      } else if expected.JArr? {
        IndicesAll(expected, actual.value, 0, true);
      }
    }
  }

  /** One step of the reduce over an object's keys, when the value compared does not throw. */
  lemma FieldStep(expected: Json, actual: Json, i: nat, eq: bool)
    requires expected.JObj? && i < |expected.fields|
    requires Property(actual, expected.fields[i].0).Some? ==>
               IsEqual(expected.fields[i].1, Property(actual, expected.fields[i].0)).Some?
    ensures MatchFields(expected, actual, i, eq) ==
            MatchFields(expected, actual, i + 1, eq && FieldMatches(expected.fields[i], actual))
  {
  }

  lemma {:induction false} FieldsAll(expected: Json, actual: Json, i: nat, eq: bool)
    requires NullFree(expected) && expected.JObj? && i <= |expected.fields|
    ensures MatchFields(expected, actual, i, eq) ==
            Some(eq && forall k :: i <= k < |expected.fields| ==> FieldMatches(expected.fields[k], actual))
    decreases expected, 0, |expected.fields| - i
  {
    var fields := expected.fields;
    if i < |fields| {
      var p := Property(actual, fields[i].0);
      if p.Some? {
        IsEqualDefined(fields[i].1, p);
      }
      FieldStep(expected, actual, i, eq);
      var b := FieldMatches(fields[i], actual);
      FieldsAll(expected, actual, i + 1, eq && b);
      assert (forall k :: i <= k < |fields| ==> FieldMatches(fields[k], actual)) <==>
             b && forall k :: i + 1 <= k < |fields| ==> FieldMatches(fields[k], actual);
    }
  }

  /** One step of the reduce over an array's index keys, when the value compared does not throw. */
  lemma IndexStep(expected: Json, actual: Json, i: nat, eq: bool)
    requires expected.JArr? && i < |expected.items|
    requires Property(actual, DecimalString(i)).Some? ==> IsEqual(expected.items[i], Property(actual, DecimalString(i))).Some?
    ensures MatchIndices(expected, actual, i, eq) == MatchIndices(expected, actual, i + 1, eq && IndexMatches(expected, actual, i))
  {
  }

  lemma {:induction false} IndicesAll(expected: Json, actual: Json, i: nat, eq: bool)
    requires NullFree(expected) && expected.JArr? && i <= |expected.items|
    ensures MatchIndices(expected, actual, i, eq) ==
            Some(eq && forall k :: i <= k < |expected.items| ==> IndexMatches(expected, actual, k))
    decreases expected, 0, |expected.items| - i
  {
    var items := expected.items;
    if i < |items| {
      var p := Property(actual, DecimalString(i));
      if p.Some? {
        IsEqualDefined(items[i], p);
      }
      IndexStep(expected, actual, i, eq);
      var b := IndexMatches(expected, actual, i);
      IndicesAll(expected, actual, i + 1, eq && b);
      assert (forall k :: i <= k < |items| ==> IndexMatches(expected, actual, k)) <==>
             b && forall k :: i + 1 <= k < |items| ==> IndexMatches(expected, actual, k);
    }
  }

  /** One step of the reduce over two arrays, when the item compared does not throw. */
  lemma ItemStep(expected: Json, actualItems: seq<Json>, i: nat, eq: bool)
    requires expected.JArr? && i < |expected.items|
    requires IsEqual(expected.items[i], At(actualItems, i)).Some?
    ensures MatchItems(expected, actualItems, i, eq) == MatchItems(expected, actualItems, i + 1, eq && ItemMatches(expected, actualItems, i))
  {
  }

  lemma {:induction false} ItemsAll(expected: Json, actualItems: seq<Json>, i: nat, eq: bool)
    requires NullFree(expected) && expected.JArr? && i <= |expected.items|
    ensures MatchItems(expected, actualItems, i, eq) ==
            Some(eq && forall k :: i <= k < |expected.items| ==> ItemMatches(expected, actualItems, k))
    decreases expected, 0, |expected.items| - i
  {
    var items := expected.items;
    if i < |items| {
      IsEqualDefined(items[i], At(actualItems, i));
      ItemStep(expected, actualItems, i, eq);
      var b := ItemMatches(expected, actualItems, i);
      ItemsAll(expected, actualItems, i + 1, eq && b);
      assert (forall k :: i <= k < |items| ==> ItemMatches(expected, actualItems, k)) <==>
             b && forall k :: i + 1 <= k < |items| ==> ItemMatches(expected, actualItems, k);
    }
  }

  /** An expected object matches iff every one of its keys is a property of
      actual whose value isEqual the expected one; other keys of actual play no part. */
  lemma ObjectMatchIff(fields: seq<(string, Json)>, actual: Json)
    requires NullFree(JObj(fields))
    ensures IsAsymmetricMatch(JObj(fields), actual) == Some(forall k :: 0 <= k < |fields| ==> FieldMatches(fields[k], actual))
  {
    FieldsAll(JObj(fields), actual, 0, true);
  }

  /** The reduce starts at true: an empty expected object matches anything, null included. */
  lemma EmptyMatchesAnything(actual: Json)
    ensures IsAsymmetricMatch(JObj([]), actual) == Some(true)
  {
  }

  /** Different `typeof` tags never match. */
  lemma TypeMismatchIsFalse(expected: Json, actual: Json)
    requires TypeOf(expected) != TypeOf(actual)
    ensures IsEqual(expected, Some(actual)) == Some(false)
  {
  }

  /** Primitives are compared by strict equality. */
  lemma PrimitivesStrictlyEqual(expected: Json, actual: Json)
    requires expected.JBool? || expected.JNum? || expected.JStr?
    ensures IsEqual(expected, Some(actual)) == Some(expected == actual)
  {
  }

  /** A null expected value against an actual of type "object" throws. */
  lemma NullExpectedThrows(actual: Json)
    requires TypeOf(actual) == "object"
    ensures IsEqual(JNull, Some(actual)).None?
  {
  }

  /** isEqual holds of a defined actual value. */
  predicate Matches(expected: Json, actual: Json)
  {
    IsEqual(expected, Some(actual)) == Some(true)
  }

  /** A matching item of a null-free array has an actual item at its index. */
  lemma ItemMatchInRange(xs: seq<Json>, ys: seq<Json>, k: nat)
    requires NullFree(JArr(xs)) && k < |xs| && ItemMatches(JArr(xs), ys, k)
    ensures k < |ys| && Matches(xs[k], ys[k])
  {
    assert ItemMatches(JArr(xs), ys, k);
    if k < |ys| {
      assert At(ys, k) == Some(ys[k]);
    }
  }

  /** Two arrays match iff every expected index matches the actual element at that index. */
  lemma ArrayMatchIff(xs: seq<Json>, ys: seq<Json>)
    requires NullFree(JArr(xs))
    ensures IsEqual(JArr(xs), Some(JArr(ys))).Some?
    ensures IsEqual(JArr(xs), Some(JArr(ys))).value <==>
            |xs| <= |ys| && forall k :: 0 <= k < |xs| ==> Matches(xs[k], ys[k])
  {
    ItemsAll(JArr(xs), ys, 0, true);
    assert IsEqual(JArr(xs), Some(JArr(ys))) == MatchItems(JArr(xs), ys, 0, true);
    if IsEqual(JArr(xs), Some(JArr(ys))).value {
      forall k | 0 <= k < |xs| ensures k < |ys| && Matches(xs[k], ys[k]) {
        ItemMatchInRange(xs, ys, k);
      }
      if |xs| > 0 {
        ItemMatchInRange(xs, ys, |xs| - 1);
      }
    } else {
      var k :| 0 <= k < |xs| && !ItemMatches(JArr(xs), ys, k);
      assert !(k < |ys| && Matches(xs[k], ys[k]));
    }
  }

  /** A longer actual array still matches: the expected array only needs to be a prefix. */
  lemma ArrayPrefixMatches(xs: seq<Json>, ys: seq<Json>, zs: seq<Json>)
    requires NullFree(JArr(xs)) && IsEqual(JArr(xs), Some(JArr(ys))) == Some(true)
    ensures IsEqual(JArr(xs), Some(JArr(ys + zs))) == Some(true)
  {
    ArrayMatchIff(xs, ys);
    ArrayMatchIff(xs, ys + zs);
    forall k | 0 <= k < |xs| ensures Matches(xs[k], (ys + zs)[k]) {
      assert (ys + zs)[k] == ys[k];
    }
  }

  lemma LookupAppend(fields: seq<(string, Json)>, more: seq<(string, Json)>, key: string)
    requires Lookup(fields, key).Some?
    ensures Lookup(fields + more, key) == Lookup(fields, key)
    decreases |fields|
  {
    if fields[0].0 != key {
      assert (fields + more)[1..] == fields[1..] + more;
      LookupAppend(fields[1..], more, key);
    }
  }

  /** Extra keys in actual are ignored: adding fields to a matching actual object keeps the match. */
  lemma ExtraKeysIgnored(fields: seq<(string, Json)>, actual: seq<(string, Json)>, extra: seq<(string, Json)>)
    requires NullFree(JObj(fields)) && IsAsymmetricMatch(JObj(fields), JObj(actual)) == Some(true)
    ensures IsAsymmetricMatch(JObj(fields), JObj(actual + extra)) == Some(true)
  {
    ObjectMatchIff(fields, JObj(actual));
    ObjectMatchIff(fields, JObj(actual + extra));
    forall k | 0 <= k < |fields| ensures FieldMatches(fields[k], JObj(actual + extra)) {
      assert FieldMatches(fields[k], JObj(actual));
      LookupAppend(actual, extra, fields[k].0);
    }
  }

  /** No null anywhere and no key twice in one object. */
  predicate WellFormed(j: Json)
    decreases j
  {
    match j
    case JNull => false
    case JArr(items) => forall i :: 0 <= i < |items| ==> WellFormed(items[i])
    case JObj(fields) =>
      && DistinctKeys(fields)
      && forall k :: 0 <= k < |fields| ==> WellFormed(fields[k].1)
    case _ => true
  }

  lemma {:induction false} WellFormedIsNullFree(j: Json)
    requires WellFormed(j)
    ensures NullFree(j)
    decreases j
  {
    match j
    case JArr(items) =>
      forall i | 0 <= i < |items| ensures NullFree(items[i]) { WellFormedIsNullFree(items[i]); }
    case JObj(fields) =>
      forall k | 0 <= k < |fields| ensures NullFree(fields[k].1) { WellFormedIsNullFree(fields[k].1); }
    case _ =>
  }

  /** Every well-formed value matches itself. */
  lemma {:induction false} IsEqualReflexive(j: Json)
    requires WellFormed(j)
    ensures IsEqual(j, Some(j)) == Some(true)
    decreases j
  {
    WellFormedIsNullFree(j);
    match j
    case JArr(items) =>
      ArrayMatchIff(items, items);
      forall k | 0 <= k < |items| ensures IsEqual(items[k], Some(items[k])) == Some(true) {
        IsEqualReflexive(items[k]);
      }
    case JObj(fields) =>
      ObjectMatchIff(fields, j);
      forall k | 0 <= k < |fields| ensures FieldMatches(fields[k], j) {
        LookupFirst(fields, fields[k].0, k);
        IsEqualReflexive(fields[k].1);
      }
    case _ =>
  }

  /** The example of test.ts: extra keys and an equal array still match. */
  lemma TestScriptExample()
    ensures IsAsymmetricMatch(
              JObj([("test", JNum(1)), ("not", JArr([JBool(true), JBool(true)]))]),
              JObj([("test", JNum(1)), ("not", JArr([JBool(true), JBool(true)])), ("st", JStr("hi")), ("and", JObj([("one", JNum(1))]))]))
            == Some(true)
  {
    var arr := JArr([JBool(true), JBool(true)]);
    var expected := [("test", JNum(1)), ("not", arr)];
    var actual := JObj([("test", JNum(1)), ("not", arr), ("st", JStr("hi")), ("and", JObj([("one", JNum(1))]))]);
    IsEqualReflexive(arr);
    ObjectMatchIff(expected, actual);
    assert Lookup(actual.fields, "test") == Some(JNum(1));
    assert Lookup(actual.fields[1..], "not") == Some(arr);
    assert Lookup(actual.fields, "not") == Some(arr);
    assert FieldMatches(expected[0], actual);
    assert FieldMatches(expected[1], actual);
  }
}
