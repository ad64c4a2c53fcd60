/** cli/master.js: the restore master. It invokes the worker Lambda again
    and again while each invocation hands back a continuation token,
    accumulates the billed Lambda time, and reports its statistics. The
    Lambda service is modelled by the sequence of responses it returns. */
module Master {
  import opened Wrappers
  import Worker

  /** `sumEntries`: the summed payload counters and their titles, in
      declaration order. */
  const SumEntries: seq<(string, string)> := [
    ("processedBatches", "Total S3 objects read"),
    ("processedEvents", "Total events read"),
    ("successfullySentEvents", "Total successfully re-played events"),
    ("failedEvents", "Total failed (and retried) SQS sends")
  ]

  /** What the master reads from one `lambda.invoke` response: the billed
      duration from the REPORT line of the log tail (None when the line is
      not there), the decoded `Payload` (or the SyntaxError's message) and
      whether `FunctionError` is set. */
  datatype InvokeResponse = InvokeResponse(
    billedMs: Option<nat>,
    payload: Result<Payload, string>,
    functionError: bool)

  /** The part of the worker's reply the master uses. */
  datatype Payload = Payload(continuationToken: Option<string>)

  /** What `_processLambdaResult` returns or throws. */
  datatype LambdaResult = NextToken(token: Option<string>) | Abort(message: string)

  /** The error the missing REPORT line raises when its fields are read. */
  const MissingReport := "Cannot read property '2' of null"

  /** The continuation test `if (nextContinuationToken)`. */
  predicate TruthyToken(token: Option<string>) {
    token.Some? && token.value != ""
  }

  /** The billed time one response adds. */
  function BilledOf(response: InvokeResponse): nat {
    if response.billedMs.Some? then response.billedMs.value else 0
  }

  /** The billed time a sequence of answered invocations adds. */
  function TotalBilled(responses: seq<InvokeResponse>): (total: nat)
    ensures forall k | 0 <= k < |responses| :: BilledOf(responses[k]) <= total
  {
    if |responses| == 0 then 0
    else TotalBilled(responses[..|responses| - 1]) + BilledOf(responses[|responses| - 1])
  }

  /** `_processLambdaResult` as a value: a response carrying `FunctionError`
      aborts, any other well-formed one yields its payload's token. */
  function LambdaResultOf(response: InvokeResponse): (r: LambdaResult)
    ensures response.billedMs.None? ==> r == Abort(MissingReport)
    ensures response.billedMs.Some? && response.payload.Failure? ==> r == Abort(response.payload.error)
    ensures response.billedMs.Some? && response.payload.Success? && response.functionError ==>
              r == Abort("Aborting due to Lambda error")
    ensures r.NextToken? <==> response.billedMs.Some? && response.payload.Success? && !response.functionError
    ensures r.NextToken? ==> r.token == response.payload.value.continuationToken
  {
    if response.billedMs.None? then Abort(MissingReport)
    else if response.payload.Failure? then Abort(response.payload.error)
    else if response.functionError then Abort("Aborting due to Lambda error")
    else NextToken(response.payload.value.continuationToken)
  }

  /** One `lambda.invoke` request of a chain. */
  datatype InvokeRequest = InvokeRequest(functionName: string, payload: Worker.Invocation, invocationNum: nat)

  /** How a continuation chain ends: no more token, an abort, or a request
      whose response lies beyond the modelled ones. */
  datatype ChainOutcome = Done | Aborted(message: string) | Unanswered

  /** A statistics value; the minutes formatting is not modelled. */
  datatype StatValue = Count(n: int) | Minutes(ms: int)

  /** The constructor's options object. */
  datatype MasterOptions = MasterOptions(
    functionName: string,
    region: string,
    sqsUrl: string,
    attributeTable: string,
    definitionTable: string,
    concurrency: int,
    messagesPerSecond: int,
    terminationTimeInSec: int)

  /** The invocation payload as `recursePages` builds it: the worker's
      rate and time budget are not in it. */
  function RequestPayloadAsWritten(options: MasterOptions, continuationToken: Option<string>): (p: Worker.Invocation)
    ensures p.continuationToken == continuationToken
    ensures p.ratePerSecond.None? && p.terminationTimeInSec.None?
  {
    Worker.Invocation(options.region, options.sqsUrl, options.attributeTable, options.definitionTable,
                      None, None, continuationToken)
  }

  /** The invocation payload carrying every parameter the worker asserts. */
  function RequestPayload(options: MasterOptions, continuationToken: Option<string>): (p: Worker.Invocation)
    ensures p.continuationToken == continuationToken
    ensures p.ratePerSecond == Some(options.messagesPerSecond)
    ensures p.terminationTimeInSec == Some(options.terminationTimeInSec)
  {
    Worker.Invocation(options.region, options.sqsUrl, options.attributeTable, options.definitionTable,
                      Some(options.messagesPerSecond), Some(options.terminationTimeInSec), continuationToken)
  }

  /** The request of invocation `invocationNum`. */
  function Request(options: MasterOptions, continuationToken: Option<string>, invocationNum: nat): InvokeRequest {
    InvokeRequest(options.functionName, RequestPayload(options, continuationToken), invocationNum)
  }

  /** Request `k` (k > 0) carries the truthy token the response to request
      k - 1 returned, and invocation number k + 1. */
  predicate ChainLink(options: MasterOptions, responses: seq<InvokeResponse>, requests: seq<InvokeRequest>, k: int)
    requires 0 < k < |requests| <= |responses| + 1
  {
    var result := LambdaResultOf(responses[k - 1]);
    && result.NextToken?
    && TruthyToken(result.token)
    && requests[k] == Request(options, result.token, k + 1)
  }

  /** Every request after the first is chained to its predecessor. */
  predicate Chained(options: MasterOptions, responses: seq<InvokeResponse>, requests: seq<InvokeRequest>)
    requires |requests| <= |responses| + 1
  {
    forall k | 0 < k < |requests| :: ChainLink(options, responses, requests, k)
  }

  /** A chain extends by the request its last response asks for. */
  lemma ChainedExtend(options: MasterOptions, responses: seq<InvokeResponse>, requests: seq<InvokeRequest>)
    requires 1 <= |requests| <= |responses|
    requires Chained(options, responses, requests)
    requires LambdaResultOf(responses[|requests| - 1]).NextToken?
    requires TruthyToken(LambdaResultOf(responses[|requests| - 1]).token)
    ensures Chained(options, responses,
                    requests + [Request(options, LambdaResultOf(responses[|requests| - 1]).token, |requests| + 1)])
  {
    var longer := requests + [Request(options, LambdaResultOf(responses[|requests| - 1]).token, |requests| + 1)];
    forall k | 0 < k < |longer|
      ensures ChainLink(options, responses, longer, k)
    {
      if k < |requests| {
        assert ChainLink(options, responses, requests, k);
        assert longer[k] == requests[k];
      }
    }
  }

  class Master {
    const options: MasterOptions
    var sums: map<string, int>
    var totalBilledLambdaTime: nat   // in ms

    /** Every sum entry has a value. */
    ghost predicate Valid()
      reads this
    {
      forall i | 0 <= i < |SumEntries| :: SumEntries[i].0 in sums
    }

    /** The constructor keeps the options and sets every sum and the billed
        time to 0. */
    constructor(options: MasterOptions)
      ensures Valid()
      ensures forall i | 0 <= i < |SumEntries| :: sums[SumEntries[i].0] == 0
      ensures sums.Keys == set i | 0 <= i < |SumEntries| :: SumEntries[i].0
      ensures totalBilledLambdaTime == 0
      ensures this.options == options
    {
      this.options := options;
      sums := map i | 0 <= i < |SumEntries| :: SumEntries[i].0 := 0;
      totalBilledLambdaTime := 0;
    }

    /** `_processLambdaResult`: the billed time grows by the response's
        billed duration once the REPORT line is read; the sums are not
        touched. */
    method ProcessLambdaResult(response: InvokeResponse, invocationNum: nat) returns (r: LambdaResult)
      requires Valid()
      modifies this
      ensures Valid()
      ensures r == LambdaResultOf(response)
      ensures totalBilledLambdaTime == old(totalBilledLambdaTime) + BilledOf(response)
      ensures sums == old(sums)
    {
      if response.billedMs.None? {
        return Abort(MissingReport);
      }
      totalBilledLambdaTime := totalBilledLambdaTime + response.billedMs.value;
      match response.payload {
        case Failure(syntaxError) => return Abort(syntaxError);
        case Success(payload) =>
          if response.functionError {
            return Abort("Aborting due to Lambda error");
          }
          return NextToken(payload.continuationToken);
      }
    }

    /** `_processPrefix`: invocation 1 carries no token; each further
        invocation carries the token the previous one returned and the next
        number; the chain stops at the first falsy token or abort. */
    method ProcessPrefix(responses: seq<InvokeResponse>) returns (requests: seq<InvokeRequest>, outcome: ChainOutcome)
      requires Valid()
      modifies this
      ensures Valid()
      ensures 1 <= |requests| <= |responses| + 1
      ensures requests[0] == Request(options, None, 1)
      ensures Chained(options, responses, requests)
      ensures outcome == Unanswered <==> |requests| == |responses| + 1
      ensures outcome.Aborted? ==> LambdaResultOf(responses[|requests| - 1]) == Abort(outcome.message)
      ensures outcome == Done ==>
                && LambdaResultOf(responses[|requests| - 1]).NextToken?
                && !TruthyToken(LambdaResultOf(responses[|requests| - 1]).token)
      ensures outcome != Unanswered ==>
                totalBilledLambdaTime == old(totalBilledLambdaTime) + TotalBilled(responses[..|requests|])
      ensures outcome == Unanswered ==>
                totalBilledLambdaTime == old(totalBilledLambdaTime) + TotalBilled(responses)
      ensures sums == old(sums)
    {
      requests := [Request(options, None, 1)];
      var k := 0;
      while k < |responses|
        invariant 0 <= k <= |responses|
        invariant Valid() && sums == old(sums)
        invariant |requests| == k + 1
        invariant requests[0] == Request(options, None, 1)
        invariant Chained(options, responses, requests)
        invariant totalBilledLambdaTime == old(totalBilledLambdaTime) + TotalBilled(responses[..k])
      {
        var r := ProcessLambdaResult(responses[k], k + 1);
        assert responses[..k + 1][..k] == responses[..k];
        assert TotalBilled(responses[..k + 1]) == TotalBilled(responses[..k]) + BilledOf(responses[k]);
        if r.Abort? {
          return requests, Aborted(r.message);
        }
        if !TruthyToken(r.token) {
          return requests, Done;
        }
        ChainedExtend(options, responses, requests);
        requests := requests + [Request(options, r.token, k + 2)];
        k := k + 1;
      }
      assert responses[..k] == responses;
      outcome := Unanswered;
    }

    /** `getStats`: the four sums under their titles in declaration order,
        then the billed time, then the wall-clock time. */
    method GetStats(wallClockMs: int) returns (stats: seq<(string, StatValue)>)
      requires Valid()
      ensures |stats| == |SumEntries| + 2
      ensures forall i | 0 <= i < |SumEntries| :: stats[i] == (SumEntries[i].1, Count(sums[SumEntries[i].0]))
      ensures stats[|SumEntries|] == ("Total billed Lambda time", Minutes(totalBilledLambdaTime))
      ensures stats[|SumEntries| + 1] == ("Wall-clock time", Minutes(wallClockMs))
    {
      stats := [];
      var i := 0;
      while i < |SumEntries|
        invariant 0 <= i <= |SumEntries|
        invariant |stats| == i
        invariant forall j | 0 <= j < i :: stats[j] == (SumEntries[j].1, Count(sums[SumEntries[j].0]))
      {
        var (entry, title) := SumEntries[i];
        stats := stats + [(title, Count(sums[entry]))];
        i := i + 1;
      }
      stats := stats + [("Total billed Lambda time", Minutes(totalBilledLambdaTime))];
      stats := stats + [("Wall-clock time", Minutes(wallClockMs))];
    }
  }

  /** As written, every invocation the master makes fails the worker's
      parameter check on `ratePerSecond`, whatever the master's options. */
  lemma PayloadAsWrittenRejected(options: MasterOptions, continuationToken: Option<string>)
    requires options.region != "" && options.sqsUrl != "" && options.attributeTable != "" && options.definitionTable != ""
    ensures Worker.MissingParameter(RequestPayloadAsWritten(options, continuationToken)) == Some("missing event.ratePerSecond")
  {
  }

  /** With the rate and the time budget forwarded, a master built from
      non-empty options makes invocations that pass the worker's check. */
  lemma PayloadAccepted(options: MasterOptions, continuationToken: Option<string>)
    requires options.region != "" && options.sqsUrl != "" && options.attributeTable != "" && options.definitionTable != ""
    requires options.messagesPerSecond != 0 && options.terminationTimeInSec != 0
    ensures Worker.MissingParameter(RequestPayload(options, continuationToken)).None?
  {
  }
}
