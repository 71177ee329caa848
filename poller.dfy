/** pollDistributionForDeployedStatus of src/cli/utils.ts (copied in
    src/cli/commands/associate/utils.ts). The status calls and the ten-minute
    timer are replaced by a trace: the k-th observation is the answer of the
    k-th fetchDistributionStatus call and the value `isElapsed` has when the
    loop condition is next tested. */
module Poller {
  import opened Wrappers
  import opened Types

  /** A status answer (`undefined` as None) or the error the call threw, with the elapsed flag.
      Both fetchDistributionStatus wrappers reject a missing or empty status
      themselves (one throws, the other exits the process), so an unset answer
      models only the loop condition as it reads; it is not reached through them. */
  datatype Observation = Observation(reply: Result<Option<string>, Error>, elapsed: bool)

  /** How a poll ends: the loop stopped on a status and the spinner reported
      it as deployed or not (the promise is fulfilled either way); a status
      call threw and the promise rejected; or the trace ran out while the
      loop would still poll. */
  datatype PollOutcome = Stopped(status: string, reportedDeployed: bool) | Threw(error: Error) | StillPolling

  /** `!status`: undefined or the empty string. */
  predicate Unset(status: Option<string>)
  {
    status.None? || status.value == ""
  }

  /** The loop condition. */
  predicate KeepsPolling(status: Option<string>, isElapsed: bool)
  {
    Unset(status) || (status.value == "InProgress" && !isElapsed)
  }

  predicate Continues(o: Observation)
  {
    o.reply.Success? && KeepsPolling(o.reply.value, o.elapsed)
  }

  /** The success branch of the final test: anything that is "InProgress" or "Deployed". */
  predicate ReportsDeployed(status: string)
  {
    status == "InProgress" || status == "Deployed"
  }

  /** The outcome of polling along a trace. */
  function Poll(trace: seq<Observation>): PollOutcome
    decreases |trace|
  {
    if trace == [] then StillPolling
    else match trace[0].reply
      case Failure(e) => Threw(e)
      case Success(status) =>
        if KeepsPolling(status, trace[0].elapsed) then Poll(trace[1..])
        else Stopped(status.value, ReportsDeployed(status.value))
  }

  /** The poll is still running exactly when every observation keeps the loop going. */
  lemma {:induction false} PollStillPollingIff(trace: seq<Observation>)
    ensures Poll(trace).StillPolling? <==> forall j :: 0 <= j < |trace| ==> Continues(trace[j])
    decreases |trace|
  {
    if trace != [] && trace[0].reply.Success? && KeepsPolling(trace[0].reply.value, trace[0].elapsed) {
      PollStillPollingIff(trace[1..]);
      assert forall j :: 0 < j < |trace| ==> trace[j] == trace[1..][j - 1];
    }
  }

  /** A poll stops on the first observation that fails the loop condition. */
  lemma {:induction false} PollStopsAt(trace: seq<Observation>)
    requires Poll(trace).Stopped?
    ensures exists k :: && 0 <= k < |trace|
                        && (forall j :: 0 <= j < k ==> Continues(trace[j]))
                        && trace[k].reply == Success(Some(Poll(trace).status))
                        && !KeepsPolling(trace[k].reply.value, trace[k].elapsed)
    decreases |trace|
  {
    if KeepsPolling(trace[0].reply.value, trace[0].elapsed) {
      var tail := trace[1..];
      PollStopsAt(tail);
      var k :| && 0 <= k < |tail|
               && (forall j :: 0 <= j < k ==> Continues(tail[j]))
               && tail[k].reply == Success(Some(Poll(tail).status))
               && !KeepsPolling(tail[k].reply.value, tail[k].elapsed);
      assert trace[k + 1] == tail[k];
      assert forall j :: 0 < j < k + 1 ==> trace[j] == tail[j - 1];
    } else {
      assert trace[0].reply == Success(Some(Poll(trace).status));
    }
  }

  /** The status a poll stops on is set, is "InProgress" only once the timer
      has fired, and is reported as deployed exactly for "InProgress" and "Deployed". */
  lemma PollStopped(trace: seq<Observation>)
    requires Poll(trace).Stopped?
    ensures Poll(trace).status != "" && (Poll(trace).status != "InProgress" || exists k :: 0 <= k < |trace| && trace[k].elapsed)
    ensures Poll(trace).reportedDeployed <==> ReportsDeployed(Poll(trace).status)
  {
    PollStopsAt(trace);
    var k :| && 0 <= k < |trace|
             && trace[k].reply == Success(Some(Poll(trace).status))
             && !KeepsPolling(trace[k].reply.value, trace[k].elapsed);
    PollReports(trace);
  }

  /** A poll rejects with the error of the first call that threw, every
      earlier answer having kept the loop going. */
  lemma {:induction false} PollThrew(trace: seq<Observation>)
    requires Poll(trace).Threw?
    ensures exists k :: && 0 <= k < |trace|
                        && (forall j :: 0 <= j < k ==> Continues(trace[j]))
                        && trace[k].reply == Failure(Poll(trace).error)
    decreases |trace|
  {
    if trace[0].reply.Success? {
      var tail := trace[1..];
      PollThrew(tail);
      var k :| && 0 <= k < |tail|
               && (forall j :: 0 <= j < k ==> Continues(tail[j]))
               && tail[k].reply == Failure(Poll(tail).error);
      assert trace[k + 1] == tail[k];
      assert forall j :: 0 < j < k + 1 ==> trace[j] == tail[j - 1];
    } else {
      assert trace[0].reply == Failure(Poll(trace).error);
    }
  }

  /** A stopped poll reports "deployed" exactly for "InProgress" and "Deployed". */
  lemma {:induction false} PollReports(trace: seq<Observation>)
    requires Poll(trace).Stopped?
    ensures Poll(trace).reportedDeployed <==> ReportsDeployed(Poll(trace).status)
    decreases |trace|
  {
    if KeepsPolling(trace[0].reply.value, trace[0].elapsed) {
      PollReports(trace[1..]);
    }
  }

  /** The while loop, re-fetching until the condition fails. */
  method PollDistributionForDeployedStatus(trace: seq<Observation>) returns (outcome: PollOutcome)
    ensures outcome == Poll(trace)
  {
    var status: Option<string> := None;
    var isElapsed := false;
    var i := 0;
    while KeepsPolling(status, isElapsed)
      invariant 0 <= i <= |trace|
      invariant i > 0 ==> trace[i - 1].reply == Success(status) && trace[i - 1].elapsed == isElapsed
      invariant i == 0 ==> status.None?
      invariant Poll(trace) == if KeepsPolling(status, isElapsed) then Poll(trace[i..]) else Poll(trace[i - 1..])
      decreases |trace| - i
    {
      if i == |trace| {
        return StillPolling;
      }
      var observation := trace[i];
      if observation.reply.Failure? {
        return Threw(observation.reply.error);
      }
      assert trace[i..][1..] == trace[i + 1..];
      status := observation.reply.value;
      isElapsed := observation.elapsed;
      i := i + 1;
    }
    outcome := Stopped(status.value, ReportsDeployed(status.value));
  }

  function IP(elapsed: bool): Observation
  {
    Observation(Success(Some("InProgress")), elapsed)
  }

  /** Two "InProgress" answers then "Deployed": stopped and reported deployed. */
  lemma DeployedAfterInProgress()
    ensures Poll([IP(false), IP(false), Observation(Success(Some("Deployed")), false)]) == Stopped("Deployed", true)
  {
  }

  /** "InProgress" once the timer has fired still takes the success branch:
      a timed-out poll is reported as deployed. */
  lemma TimedOutInProgressReportsDeployed()
    ensures Poll([IP(false), IP(false), IP(true)]) == Stopped("InProgress", true)
  {
  }

  /** Any status other than "InProgress" and "Deployed" stops the loop at once
      and is reported as not deployed, without a rejection. */
  lemma OtherStatusReportsNotDeployed(status: string, elapsed: bool)
    requires status != "" && !ReportsDeployed(status)
    ensures Poll([IP(false), Observation(Success(Some(status)), elapsed)]) == Stopped(status, false)
  {
  }

  /** An unset status keeps polling even after the timer fired; the elapsed flag
      only ends a run of "InProgress" answers. This is the loop condition's own
      behaviour: the status wrappers never hand the loop an unset status. */
  lemma UnsetIgnoresTimer(trace: seq<Observation>)
    requires trace != [] && trace[0].reply == Success(None)
    ensures Poll(trace) == Poll(trace[1..])
  {
  }

  /** pollDistributionsForDeployedStatus: one poll per manifest entry, in
      manifest order; `status` gives the trace seen for each distribution id. */
  method PollDistributionsForDeployedStatus(manifest: AssociationManifest, status: string -> seq<Observation>)
    returns (polls: seq<PollOutcome>)
    ensures |polls| == |manifest|
    ensures forall k :: 0 <= k < |manifest| ==> polls[k] == Poll(status(manifest[k].distribution.id))
  {
    polls := [];
    for k := 0 to |manifest|
      invariant |polls| == k
      invariant forall j :: 0 <= j < k ==> polls[j] == Poll(status(manifest[j].distribution.id))
    {
      var outcome := PollDistributionForDeployedStatus(status(manifest[k].distribution.id));
      assert forall j :: 0 <= j < k ==> (polls + [outcome])[j] == polls[j];
      polls := polls + [outcome];
    }
  }
}
