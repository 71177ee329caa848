/** settlePromises of src/cli/utils.ts: the settled results of a fan-out,
    split into the fulfilled values and the rejection reasons. */
module Settle {

  /** PromiseSettledResult. */
  datatype Settled<+S, +R> = Fulfilled(value: S) | Rejected(reason: R)

  function Successes<S, R>(results: seq<Settled<S, R>>): (r: seq<S>)
    ensures |r| <= |results|
    decreases |results|
  {
    if results == [] then []
    else if results[0].Fulfilled? then [results[0].value] + Successes(results[1..])
    else Successes(results[1..])
  }

  function Rejects<S, R>(results: seq<Settled<S, R>>): (r: seq<R>)
    ensures |r| <= |results|
    decreases |results|
  {
    if results == [] then []
    else if results[0].Rejected? then [results[0].reason] + Rejects(results[1..])
    else Rejects(results[1..])
  }

  lemma {:induction false} SuccessesAppend<S, R>(a: seq<Settled<S, R>>, b: seq<Settled<S, R>>)
    ensures Successes(a + b) == Successes(a) + Successes(b)
    decreases |a|
  {
    if a != [] {
      assert (a + b)[0] == a[0] && (a + b)[1..] == a[1..] + b;
      SuccessesAppend(a[1..], b);
    } else {
      assert a + b == b;
    }
  }

  lemma {:induction false} RejectsAppend<S, R>(a: seq<Settled<S, R>>, b: seq<Settled<S, R>>)
    ensures Rejects(a + b) == Rejects(a) + Rejects(b)
    decreases |a|
  {
    if a != [] {
      assert (a + b)[0] == a[0] && (a + b)[1..] == a[1..] + b;
      RejectsAppend(a[1..], b);
    } else {
      assert a + b == b;
    }
  }

  /** The reduce over Promise.allSettled, pushing into the two lists. */
  method SettlePromises<S, R>(results: seq<Settled<S, R>>) returns (successList: seq<S>, rejectList: seq<R>)
    ensures successList == Successes(results)
    ensures rejectList == Rejects(results)
  {
    successList, rejectList := [], [];
    for i := 0 to |results|
      invariant successList == Successes(results[..i])
      invariant rejectList == Rejects(results[..i])
    {
      assert results[..i + 1] == results[..i] + [results[i]];
      SuccessesAppend(results[..i], [results[i]]);
      RejectsAppend(results[..i], [results[i]]);
      if results[i].Rejected? {
        rejectList := rejectList + [results[i].reason];
      } else {
        successList := successList + [results[i].value];
      }
    }
    assert results[..|results|] == results;
  }

  /** Every settled result lands in exactly one list. */
  lemma {:induction false} PartitionIsComplete<S, R>(results: seq<Settled<S, R>>)
    ensures |Successes(results)| + |Rejects(results)| == |results|
    decreases |results|
  {
    if results != [] {
      PartitionIsComplete(results[1..]);
    }
  }

  /** Each list keeps its elements in settlement order: the k-th fulfilled
      result is the k-th success. */
  lemma {:induction false} SuccessesInOrder<S, R>(results: seq<Settled<S, R>>, k: nat)
    requires k < |results| && results[k].Fulfilled?
    ensures var before := Successes(results[..k]);
            |before| < |Successes(results)| && Successes(results)[|before|] == results[k].value
  {
    assert results == results[..k] + [results[k]] + results[k + 1..];
    SuccessesAppend(results[..k] + [results[k]], results[k + 1..]);
    SuccessesAppend(results[..k], [results[k]]);
  }

  lemma {:induction false} RejectsInOrder<S, R>(results: seq<Settled<S, R>>, k: nat)
    requires k < |results| && results[k].Rejected?
    ensures var before := Rejects(results[..k]);
            |before| < |Rejects(results)| && Rejects(results)[|before|] == results[k].reason
  {
    assert results == results[..k] + [results[k]] + results[k + 1..];
    RejectsAppend(results[..k] + [results[k]], results[k + 1..]);
    RejectsAppend(results[..k], [results[k]]);
  }
}
