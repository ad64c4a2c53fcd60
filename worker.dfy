/** worker/lambda.js: one worker Lambda invocation. It checks its
    parameters, drains the queue through an SQS processor that emits
    events, counts every finished message task, stops when the time budget
    runs low, and once the run settles waits for every started task before
    reporting. The processor is modelled by the sequence of events it
    emits. */
module Worker {
  import opened Wrappers

  /** The invocation event; an empty string or None stands for a missing
      (falsy) parameter, and so does a numeric 0. */
  datatype Invocation = Invocation(
    region: string,
    sqsUrl: string,
    attributeTable: string,
    definitionTable: string,
    ratePerSecond: Option<int>,
    terminationTimeInSec: Option<int>,
    continuationToken: Option<string>)

  predicate Truthy(n: Option<int>) {
    n.Some? && n.value != 0
  }

  /** The message of the first of the six parameter assertions that fails,
      in source order. */
  function MissingParameter(event: Invocation): (r: Option<string>)
    ensures r.None? <==>
      event.region != "" && event.sqsUrl != "" && event.attributeTable != "" && event.definitionTable != ""
      && Truthy(event.ratePerSecond) && Truthy(event.terminationTimeInSec)
    ensures event.region == "" ==> r == Some("missing event.region")
    ensures event.region != "" && event.sqsUrl == "" ==> r == Some("missing event.sqsUrl")
    ensures event.region != "" && event.sqsUrl != "" && event.attributeTable == ""
      ==> r == Some("missing event.attributeTable")
    ensures event.region != "" && event.sqsUrl != "" && event.attributeTable != "" && event.definitionTable == ""
      ==> r == Some("missing event.definitionTable")
    ensures (event.region != "" && event.sqsUrl != "" && event.attributeTable != "" && event.definitionTable != ""
             && !Truthy(event.ratePerSecond)) ==> r == Some("missing event.ratePerSecond")
    ensures (event.region != "" && event.sqsUrl != "" && event.attributeTable != "" && event.definitionTable != ""
             && Truthy(event.ratePerSecond) && !Truthy(event.terminationTimeInSec))
      ==> r == Some("missing event.terminationTimeInSec")
  {
    if event.region == "" then Some("missing event.region")
    else if event.sqsUrl == "" then Some("missing event.sqsUrl")
    else if event.attributeTable == "" then Some("missing event.attributeTable")
    else if event.definitionTable == "" then Some("missing event.definitionTable")
    else if !Truthy(event.ratePerSecond) then Some("missing event.ratePerSecond")
    else if !Truthy(event.terminationTimeInSec) then Some("missing event.terminationTimeInSec")
    else None
  }

  /** The one processor error that only counts towards a metric. */
  const ReceiveFailure := "Failed to receive messages"

  /** What the SQS processor emits. `Data` carries the received message's
      id and the value its message-handler task resolves to. */
  datatype ProcessorEvent =
    | Data(messageId: string, result: bool)
    | Stats(remainingMs: int)
    | Error(message: string)
    | Stopped
    | Empty

  /** A started message task and the value it resolves to. */
  datatype Task = Task(messageId: string, result: bool)

  /** How the run's promise settles. */
  datatype Settlement = Resolution | Rejection(message: string)

  /** Whether the event settles the run's promise. */
  predicate Settles(e: ProcessorEvent) {
    e.Stopped? || (e.Error? && e.message != ReceiveFailure)
  }

  /** The tasks started by the `data` events, in order. */
  function TasksOf(events: seq<ProcessorEvent>): (r: seq<Task>)
    ensures |r| <= |events|
  {
    if |events| == 0 then []
    else
      var last := events[|events| - 1];
      TasksOf(events[..|events| - 1]) + (if last.Data? then [Task(last.messageId, last.result)] else [])
  }

  /** How many tasks resolve truthy. */
  function CountSucceeded(tasks: seq<Task>): (r: nat)
    ensures r <= |tasks|
  {
    if |tasks| == 0 then 0
    else CountSucceeded(tasks[..|tasks| - 1]) + (if tasks[|tasks| - 1].result then 1 else 0)
  }

  /** The messages deleted once the given tasks have finished, in order. */
  function DeletedOf(tasks: seq<Task>): (r: seq<string>)
    ensures |r| == CountSucceeded(tasks)
  {
    if |tasks| == 0 then []
    else
      var last := tasks[|tasks| - 1];
      DeletedOf(tasks[..|tasks| - 1]) + (if last.result then [last.messageId] else [])
  }

  /** Whether `processor.stop()` has been called after the given events:
      by a stats tick under the time budget or by a fatal error. */
  predicate StopRequested(events: seq<ProcessorEvent>, terminationTime: int) {
    exists j | 0 <= j < |events| ::
      (events[j].Stats? && events[j].remainingMs < terminationTime) || (events[j].Error? && events[j].message != ReceiveFailure)
  }

  /** The `sqsProcessorReceiveFailure` metric after the given events. */
  function ReceiveFailures(events: seq<ProcessorEvent>): nat {
    if |events| == 0 then 0
    else
      var last := events[|events| - 1];
      ReceiveFailures(events[..|events| - 1]) + (if last.Error? && last.message == ReceiveFailure then 1 else 0)
  }

  /** The index of the first settling event, or |events| when none does. */
  function FirstSettling(events: seq<ProcessorEvent>): (n: nat)
    ensures n <= |events|
    ensures forall j | 0 <= j < n :: !Settles(events[j])
    ensures n < |events| ==> Settles(events[n])
  {
    if |events| == 0 then 0
    else if Settles(events[0]) then 0
    else 1 + FirstSettling(events[1..])
  }

  /** A message is deleted exactly when its task resolves truthy. */
  lemma {:induction false} DeletedIffTruthy(tasks: seq<Task>, id: string)
    ensures id in DeletedOf(tasks) <==> exists i | 0 <= i < |tasks| :: tasks[i].messageId == id && tasks[i].result
  {
    if |tasks| > 0 {
      var init := tasks[..|tasks| - 1];
      DeletedIffTruthy(init, id);
      assert forall i | 0 <= i < |init| :: init[i] == tasks[i];
      if tasks[|tasks| - 1].messageId == id && tasks[|tasks| - 1].result {
        assert id in DeletedOf(tasks);
      }
    }
  }

  datatype Summary = Summary(
    processedMessages: nat,
    successfullyRestoredMessages: nat,
    failedMessages: nat,
    continuationToken: Option<string>)

  /** How the handler's promise settles: a parameter assertion, the
      summary, the processor's fatal error, or never (the run is cut off by
      the Lambda timeout). */
  datatype Outcome =
    | AssertionFailed(message: string)
    | Completed(summary: Summary)
    | Failed(message: string)
    | Unsettled

  /** One run of the handler's event callbacks. */
  class WorkerRun {
    const terminationTime: int
    var startedWorkerTasks: seq<Task>
    var completedTasks: nat
    var totalMessagesProcessed: nat
    var totalMessagesSucceeded: nat
    var totalMessagesFailed: nat
    var deletedMessages: seq<string>
    var stopRequested: bool
    var receiveFailures: nat
    var settlement: Option<Settlement>

    /** The tasks finish in the order they were started; the counters and
        the deleted messages are those of the finished ones. */
    ghost predicate Valid()
      reads this
    {
      && completedTasks <= |startedWorkerTasks|
      && totalMessagesProcessed == completedTasks
      && totalMessagesSucceeded == CountSucceeded(startedWorkerTasks[..completedTasks])
      && totalMessagesFailed == completedTasks - totalMessagesSucceeded
      && deletedMessages == DeletedOf(startedWorkerTasks[..completedTasks])
    }

    constructor(terminationTimeInSec: int)
      ensures Valid()
      ensures terminationTime == terminationTimeInSec * 1000
      ensures startedWorkerTasks == [] && completedTasks == 0 && deletedMessages == []
      ensures totalMessagesProcessed == 0 && totalMessagesSucceeded == 0 && totalMessagesFailed == 0
      ensures !stopRequested && receiveFailures == 0 && settlement.None?
    {
      terminationTime := terminationTimeInSec * 1000;
      startedWorkerTasks := [];
      completedTasks := 0;
      totalMessagesProcessed := 0;
      totalMessagesSucceeded := 0;
      totalMessagesFailed := 0;
      deletedMessages := [];
      stopRequested := false;
      receiveFailures := 0;
      settlement := None;
    }

    /** The `data` callback: start the message's task. */
    method OnData(messageId: string, result: bool)
      requires Valid()
      modifies this
      ensures Valid()
      ensures startedWorkerTasks == old(startedWorkerTasks) + [Task(messageId, result)]
      ensures completedTasks == old(completedTasks) && deletedMessages == old(deletedMessages)
      ensures totalMessagesProcessed == old(totalMessagesProcessed)
      ensures totalMessagesSucceeded == old(totalMessagesSucceeded) && totalMessagesFailed == old(totalMessagesFailed)
      ensures stopRequested == old(stopRequested) && receiveFailures == old(receiveFailures) && settlement == old(settlement)
    {
      startedWorkerTasks := startedWorkerTasks + [Task(messageId, result)];
      assert startedWorkerTasks[..completedTasks] == old(startedWorkerTasks)[..completedTasks];
    }

    /** The `stats` callback: stop when less time remains than the budget. */
    method OnStats(remainingMs: int)
      modifies this
      ensures stopRequested == (old(stopRequested) || remainingMs < terminationTime)
      ensures startedWorkerTasks == old(startedWorkerTasks) && completedTasks == old(completedTasks)
      ensures deletedMessages == old(deletedMessages) && totalMessagesProcessed == old(totalMessagesProcessed)
      ensures totalMessagesSucceeded == old(totalMessagesSucceeded) && totalMessagesFailed == old(totalMessagesFailed)
      ensures receiveFailures == old(receiveFailures) && settlement == old(settlement)
    {
      if remainingMs < terminationTime {
        stopRequested := true;
      }
    }

    /** The `error` callback: a receive failure only counts; any other error
        stops the processor and rejects the run (unless already settled). */
    method OnError(message: string)
      modifies this
      ensures message == ReceiveFailure ==>
        receiveFailures == old(receiveFailures) + 1 && stopRequested == old(stopRequested) && settlement == old(settlement)
      ensures message != ReceiveFailure ==>
        && receiveFailures == old(receiveFailures) && stopRequested
        && settlement == (if old(settlement).None? then Some(Rejection(message)) else old(settlement))
      ensures startedWorkerTasks == old(startedWorkerTasks) && completedTasks == old(completedTasks)
      ensures deletedMessages == old(deletedMessages) && totalMessagesProcessed == old(totalMessagesProcessed)
      ensures totalMessagesSucceeded == old(totalMessagesSucceeded) && totalMessagesFailed == old(totalMessagesFailed)
    {
      if message == ReceiveFailure {
        receiveFailures := receiveFailures + 1;
      } else {
        stopRequested := true;
        if settlement.None? {
          settlement := Some(Rejection(message));
        }
      }
    }

    /** The `stopped` callback: resolve the run (unless already settled). */
    method OnStopped()
      modifies this
      ensures settlement == (if old(settlement).None? then Some(Resolution) else old(settlement))
      ensures startedWorkerTasks == old(startedWorkerTasks) && completedTasks == old(completedTasks)
      ensures deletedMessages == old(deletedMessages) && totalMessagesProcessed == old(totalMessagesProcessed)
      ensures totalMessagesSucceeded == old(totalMessagesSucceeded) && totalMessagesFailed == old(totalMessagesFailed)
      ensures stopRequested == old(stopRequested) && receiveFailures == old(receiveFailures)
    {
      if settlement.None? {
        settlement := Some(Resolution);
      }
    }

    /** The next started task finishes: a truthy result deletes its message
        and counts a success, a falsy one counts a failure; either way one
        more message is processed. */
    method FinishTask()
      requires Valid() && completedTasks < |startedWorkerTasks|
      modifies this
      ensures Valid()
      ensures completedTasks == old(completedTasks) + 1
      ensures totalMessagesProcessed == old(totalMessagesProcessed) + 1
      ensures var t := startedWorkerTasks[old(completedTasks)];
        && (t.result ==> totalMessagesSucceeded == old(totalMessagesSucceeded) + 1 && totalMessagesFailed == old(totalMessagesFailed)
                         && deletedMessages == old(deletedMessages) + [t.messageId])
        && (!t.result ==> totalMessagesFailed == old(totalMessagesFailed) + 1 && totalMessagesSucceeded == old(totalMessagesSucceeded)
                          && deletedMessages == old(deletedMessages))
      ensures startedWorkerTasks == old(startedWorkerTasks)
      ensures stopRequested == old(stopRequested) && receiveFailures == old(receiveFailures) && settlement == old(settlement)
    {
      var t := startedWorkerTasks[completedTasks];
      if t.result {
        deletedMessages := deletedMessages + [t.messageId];
        totalMessagesSucceeded := totalMessagesSucceeded + 1;
      } else {
        totalMessagesFailed := totalMessagesFailed + 1;
      }
      totalMessagesProcessed := totalMessagesProcessed + 1;
      completedTasks := completedTasks + 1;
      assert startedWorkerTasks[..completedTasks][..completedTasks - 1] == startedWorkerTasks[..completedTasks - 1];
    }

    /** `cleanup`: wait for every started task. */
    method Cleanup()
      requires Valid()
      modifies this
      ensures Valid()
      ensures completedTasks == |startedWorkerTasks|
      ensures totalMessagesProcessed == |startedWorkerTasks|
      ensures totalMessagesSucceeded == CountSucceeded(startedWorkerTasks)
      ensures deletedMessages == DeletedOf(startedWorkerTasks)
      ensures startedWorkerTasks == old(startedWorkerTasks)
      ensures stopRequested == old(stopRequested) && receiveFailures == old(receiveFailures) && settlement == old(settlement)
    {
      while completedTasks < |startedWorkerTasks|
        invariant Valid()
        invariant startedWorkerTasks == old(startedWorkerTasks)
        invariant stopRequested == old(stopRequested) && receiveFailures == old(receiveFailures) && settlement == old(settlement)
        decreases |startedWorkerTasks| - completedTasks
      {
        FinishTask();
      }
      assert startedWorkerTasks[..completedTasks] == startedWorkerTasks;
    }
  }

  /** What the handler settles to, given its invocation and the processor's
      events: the summary counts every task started before the run settled. */
  function Expected(event: Invocation, events: seq<ProcessorEvent>): Outcome {
    match MissingParameter(event)
    case Some(m) => AssertionFailed(m)
    case None =>
      var n := FirstSettling(events);
      if n == |events| then Unsettled
      else
        var tasks := TasksOf(events[..n + 1]);
        if events[n].Error? then Failed(events[n].message)
        else Completed(Summary(|tasks|, CountSucceeded(tasks), |tasks| - CountSucceeded(tasks), None))
  }

  /** The handler, driven by the processor's events. Besides the outcome it
      reports whether the processor was told to stop, the deleted messages
      and the receive-failure metric. */
  method Handle(event: Invocation, events: seq<ProcessorEvent>)
    returns (outcome: Outcome, stopRequested: bool, deleted: seq<string>, receiveFailures: nat)
    ensures outcome == Expected(event, events)
    ensures outcome.Completed? ==>
      outcome.summary.processedMessages == outcome.summary.successfullyRestoredMessages + outcome.summary.failedMessages
    ensures outcome.AssertionFailed? ==> !stopRequested && deleted == [] && receiveFailures == 0
    ensures MissingParameter(event).None? ==>
      var n := FirstSettling(events);
      var seen := if n == |events| then events else events[..n + 1];
      && stopRequested == StopRequested(seen, event.terminationTimeInSec.value * 1000)
      && receiveFailures == ReceiveFailures(seen)
      && (n < |events| ==> deleted == DeletedOf(TasksOf(seen)))
      && (n == |events| ==> deleted == [])
  {
    if MissingParameter(event).Some? {
      return AssertionFailed(MissingParameter(event).value), false, [], 0;
    }
    var run := new WorkerRun(event.terminationTimeInSec.value);
    var i := 0;
    while i < |events| && run.settlement.None?
      invariant 0 <= i <= |events|
      invariant run.Valid() && run.completedTasks == 0
      invariant run.terminationTime == event.terminationTimeInSec.value * 1000
      invariant run.startedWorkerTasks == TasksOf(events[..i])
      invariant run.stopRequested == StopRequested(events[..i], run.terminationTime)
      invariant run.receiveFailures == ReceiveFailures(events[..i])
      invariant forall j | 0 <= j < i - 1 :: !Settles(events[j])
      invariant run.settlement.None? ==> forall j | 0 <= j < i :: !Settles(events[j])
      invariant run.settlement.Some? ==> 0 < i && Settles(events[i - 1])
      invariant run.settlement == Some(Resolution) ==> 0 < i && events[i - 1].Stopped?
      invariant run.settlement.Some? && run.settlement.value.Rejection? ==>
                  0 < i && events[i - 1] == Error(run.settlement.value.message)
      decreases |events| - i
    {
      var e := events[i];
      match e {
        case Data(id, result) => run.OnData(id, result);
        case Stats(remainingMs) => run.OnStats(remainingMs);
        case Error(message) => run.OnError(message);
        case Stopped => run.OnStopped();
        case Empty =>
      }
      assert events[..i + 1][..i] == events[..i];
      assert events[..i + 1][i] == e;
      i := i + 1;
    }
    if run.settlement.None? {
      assert FirstSettling(events) == |events|;
      assert events[..i] == events;
      return Unsettled, run.stopRequested, [], run.receiveFailures;
    }
    assert FirstSettling(events) == i - 1;
    assert events[..i] == events[..FirstSettling(events) + 1];
    run.Cleanup();
    deleted := run.deletedMessages;
    if run.settlement.value.Rejection? {
      outcome := Failed(run.settlement.value.message);
    } else {
      outcome := Completed(Summary(run.totalMessagesProcessed, run.totalMessagesSucceeded, run.totalMessagesFailed, None));
    }
    return outcome, run.stopRequested, deleted, run.receiveFailures;
  }
}
