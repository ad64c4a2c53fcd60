/** worker/messageHandler.js: one queue message is decoded, routed by
    `EventType` to a restorer, and on any failure forwarded to the
    dead-letter queue (DLQ) with diagnostic message attributes. */
module MessageHandler {
  import opened Wrappers
  import opened Store
  import opened Events
  import ValueModel
  import DefinitionModel
  import ValueRestorer
  import DefinitionRestorer
  import ReplayRules

  /** An SQS message carries at most this many message attributes. */
  const MaxAttributesCount := 10

  datatype MessageAttribute = MessageAttribute(dataType: string, stringValue: string)

  type Attributes = map<string, MessageAttribute>

  /** A received message. `parsed` is what `JSON.parse(Body)` yields: the
      event, or the SyntaxError's message. An absent `MessageAttributes` is
      the empty map. */
  datatype Message = Message(body: Json, parsed: Result<Event, string>, attributes: Attributes)

  datatype Context = Context(awsRequestId: string)

  /** `options`; an empty string stands for a missing (falsy) option. */
  datatype Options = Options(
    message: Option<Message>,
    attributeTable: string,
    definitionTable: string,
    dlqUrl: string,
    context: Context)

  /** The two tables the restorers write. */
  datatype Tables = Tables(values: ValueModel.ValueTable, definitions: DefinitionModel.DefinitionTable)

  /** Why processing a message failed. */
  datatype Failure =
    | ParseFailure(syntaxError: string)
    | UnknownEventType
    | RestoreFailure(error: RestoreError)
    | NoRestoreResult   // reading `success` of the `undefined` a skipped event resolves to

  /** The thrown error's `message`. */
  function FailureMessage(f: Failure): string {
    match f
    case ParseFailure(m) => m
    case UnknownEventType => "unkown event type"
    case RestoreFailure(e) => ErrorMessage(e)
    case NoRestoreResult => ErrorMessage(MissingProperty("success"))
  }

  /** The three attributes `forwardToDLQ` adds to a quarantined message. */
  function Diagnostics(errMessage: string, errStack: string, awsRequestId: string): (d: Attributes)
    ensures d.Keys == {"err.message", "err.stack", "context.awsRequestId"}
    ensures |d.Keys| == 3
    ensures d["err.message"] == MessageAttribute("String", errMessage)
    ensures d["err.stack"] == MessageAttribute("String", errStack)
    ensures d["context.awsRequestId"] == MessageAttribute("String", awsRequestId)
  {
    map["err.message" := MessageAttribute("String", errMessage),
        "err.stack" := MessageAttribute("String", errStack),
        "context.awsRequestId" := MessageAttribute("String", awsRequestId)]
  }

  /** `_.defaults(diagnostics, message.MessageAttributes)`: every key of
      either map, the diagnostic's value where both have one. */
  function Defaults(diagnostics: Attributes, msgAttrs: Attributes): (r: Attributes)
    ensures r.Keys == diagnostics.Keys + msgAttrs.Keys
    ensures forall k | k in diagnostics :: r[k] == diagnostics[k]
    ensures forall k | k in msgAttrs && k !in diagnostics :: r[k] == msgAttrs[k]
  {
    msgAttrs + diagnostics
  }

  /** The attributes `forwardToDLQ` sends: the merged map, or the message's
      own attributes alone when the merged map has more keys than SQS
      accepts. The message's attributes always survive, under their own
      key, unless a diagnostic has that key. */
  function DlqAttributes(msgAttrs: Attributes, diagnostics: Attributes): (r: Attributes)
    ensures msgAttrs.Keys <= r.Keys <= msgAttrs.Keys + diagnostics.Keys
    ensures forall k | k in msgAttrs && k !in diagnostics :: r[k] == msgAttrs[k]
    ensures |(msgAttrs + diagnostics).Keys| <= MaxAttributesCount ==>
              forall k | k in diagnostics :: k in r && r[k] == diagnostics[k]
    ensures |(msgAttrs + diagnostics).Keys| > MaxAttributesCount ==> r == msgAttrs
  {
    var attributes := Defaults(diagnostics, msgAttrs);
    if |attributes.Keys| > MaxAttributesCount then msgAttrs else attributes
  }

  lemma {:induction false} UnionCardinality(a: set<string>, b: set<string>)
    ensures |a + b| <= |a| + |b|
  {
    if a != {} {
      var x :| x in a;
      UnionCardinality(a - {x}, b - {x});
      assert a + b == (a - {x}) + (b - {x}) + {x};
      assert (a - {x}) + (b - {x}) == (a + b) - {x};
      assert |b - {x}| <= |b|;
    } else {
      assert a + b == b;
    }
  }

  /** A message that arrives within the SQS limit leaves for the DLQ within
      it too. */
  lemma DlqAttributesWithinLimit(msgAttrs: Attributes, diagnostics: Attributes)
    requires |msgAttrs.Keys| <= MaxAttributesCount
    ensures |DlqAttributes(msgAttrs, diagnostics).Keys| <= MaxAttributesCount
  {
  }

  /** With at most seven attributes of its own, the message always gets the
      three diagnostics. */
  lemma DlqAttributesCarryDiagnostics(msgAttrs: Attributes, errMessage: string, errStack: string, awsRequestId: string)
    requires |msgAttrs.Keys| <= MaxAttributesCount - 3
    ensures var d := Diagnostics(errMessage, errStack, awsRequestId);
      forall k | k in d :: k in DlqAttributes(msgAttrs, d) && DlqAttributes(msgAttrs, d)[k] == d[k]
  {
    var d := Diagnostics(errMessage, errStack, awsRequestId);
    UnionCardinality(msgAttrs.Keys, d.Keys);
    assert (msgAttrs + d).Keys == msgAttrs.Keys + d.Keys;
  }

  /** The `sendMessage` request. */
  datatype SendParams = SendParams(messageBody: Json, queueUrl: string, messageAttributes: Attributes)

  /** The body of the `BPromise.try` block: decode, route by `EventType`,
      restore. */
  function ProcessMessage(tables: Tables, message: Message): (r: Result<Restored<Tables>, Failure>)
    ensures message.parsed.Failure? ==> r == Failure(ParseFailure(message.parsed.error))
    ensures message.parsed.Success? && message.parsed.value.eventType !in {"AttributeEvent", "AttributeDefinitionEvent"} ==>
              r == Failure(UnknownEventType)
    ensures message.parsed.Success? && message.parsed.value.eventType == "AttributeEvent" ==>
              var v := ValueRestorer.RestoreEvent(tables.values, message.parsed.value);
              && (v.Success? ==> r == Success(Restored(Tables(v.value.table, tables.definitions), v.value.written)))
              && (v.Failure? ==> r == Failure(RestoreFailure(v.error)))
    ensures message.parsed.Success? && message.parsed.value.eventType == "AttributeDefinitionEvent" ==>
              var d := DefinitionRestorer.RestoreEvent(tables.definitions, message.parsed.value);
              && (d.Success? ==> r == Success(Restored(Tables(tables.values, d.value.table), d.value.written)))
              && (d.Failure? ==> r == Failure(RestoreFailure(d.error)))
    ensures r.Success? && !r.value.written ==> r.value.table == tables
  {
    match message.parsed
    case Failure(syntaxError) => Failure(ParseFailure(syntaxError))
    case Success(event) =>
      if event.eventType == "AttributeEvent" then
        match ValueRestorer.RestoreEvent(tables.values, event)
        case Success(v) => Success(Restored(Tables(v.table, tables.definitions), v.written))
        case Failure(e) => Failure(RestoreFailure(e))
      else if event.eventType == "AttributeDefinitionEvent" then
        match DefinitionRestorer.RestoreEvent(tables.definitions, event)
        case Success(d) => Success(Restored(Tables(tables.values, d.table), d.written))
        case Failure(e) => Failure(RestoreFailure(e))
      else
        Failure(UnknownEventType)
  }

  /** What `handleMessage` settles to: a synchronous assertion error, or the
      boolean its promise resolves to (true: remove the message from the
      queue). */
  datatype Outcome = Rejected(assertion: string) | Resolved(removeFromQueue: bool)

  datatype Handled = Handled(outcome: Outcome, tables: Tables, forwarded: Option<SendParams>)

  /** The first of the four option assertions that fails, in source order. */
  function MissingOption(options: Options): (r: Option<string>)
    ensures r.None? <==> options.message.Some? && options.attributeTable != "" && options.definitionTable != "" && options.dlqUrl != ""
  {
    if options.message.None? then Some("options.message is missing")
    else if options.attributeTable == "" then Some("options.attributeTable is missing")
    else if options.definitionTable == "" then Some("options.definitionTable is missing")
    else if options.dlqUrl == "" then Some("options.dlqUrl is missing")
    else None
  }

  /** The `sendMessage` request `forwardToDLQ` builds for a failure. */
  function Forward(options: Options, message: Message, f: Failure, errStack: string): (p: SendParams)
    ensures p.messageBody == message.body && p.queueUrl == options.dlqUrl
    ensures |message.attributes.Keys| <= MaxAttributesCount - 3 ==>
              && "err.message" in p.messageAttributes
              && p.messageAttributes["err.message"] == MessageAttribute("String", FailureMessage(f))
  {
    var diagnostics := Diagnostics(FailureMessage(f), errStack, options.context.awsRequestId);
    var params := SendParams(message.body, options.dlqUrl, DlqAttributes(message.attributes, diagnostics));
    if |message.attributes.Keys| <= MaxAttributesCount - 3 then
      DlqAttributesCarryDiagnostics(message.attributes, FailureMessage(f), errStack, options.context.awsRequestId);
      params
    else
      params
  }

  /** `handleMessage(options)` as written. `success` is the `success` flag
      of the store's result, `errStack` the failure's stack trace and
      `dlqAccepts` whether `sendMessage` succeeds: none of them is visible
      to the model. An event the restorer skips resolves to `undefined`, so
      `result.success` throws a TypeError and the message goes to the DLQ
      like any failure. */
  function HandleMessageAsWritten(options: Options, tables: Tables, success: bool, errStack: string, dlqAccepts: bool): (r: Handled)
    ensures MissingOption(options).Some? ==> r == Handled(Rejected(MissingOption(options).value), tables, None)
    ensures MissingOption(options).None? ==>
              var message := options.message.value;
              var p := ProcessMessage(tables, message);
              && (p.Success? && p.value.written ==> r == Handled(Resolved(success), p.value.table, None))
              && (p.Success? && !p.value.written ==>
                    r == Handled(Resolved(dlqAccepts), tables, Some(Forward(options, message, NoRestoreResult, errStack))))
              && (p.Failure? ==> r == Handled(Resolved(dlqAccepts), tables, Some(Forward(options, message, p.error, errStack))))
  {
    match MissingOption(options)
    case Some(assertion) => Handled(Rejected(assertion), tables, None)
    case None =>
      var message := options.message.value;
      match ProcessMessage(tables, message)
      case Success(restored) =>
        if restored.written then Handled(Resolved(success), restored.table, None)
        else Handled(Resolved(dlqAccepts), restored.table, Some(Forward(options, message, NoRestoreResult, errStack)))
      case Failure(f) => Handled(Resolved(dlqAccepts), tables, Some(Forward(options, message, f, errStack)))
  }

  /** `handleMessage(options)` as intended: an event the restorer skips
      (stale, or already superseded) is acknowledged as a no-op and removed
      from the queue; everything else is handled as written. */
  function HandleMessage(options: Options, tables: Tables, success: bool, errStack: string, dlqAccepts: bool): (r: Handled)
    ensures options.message.None? ==> r.outcome == Rejected("options.message is missing")
    ensures options.message.Some? && options.attributeTable == "" ==> r.outcome == Rejected("options.attributeTable is missing")
    ensures options.message.Some? && options.attributeTable != "" && options.definitionTable == "" ==>
              r.outcome == Rejected("options.definitionTable is missing")
    ensures options.message.Some? && options.attributeTable != "" && options.definitionTable != "" && options.dlqUrl == "" ==>
              r.outcome == Rejected("options.dlqUrl is missing")
    ensures r.outcome.Rejected? ==> r.tables == tables && r.forwarded.None?
    ensures MissingOption(options).None? ==> r.outcome.Resolved?
    ensures MissingOption(options).None? ==>
              var message := options.message.value;
              var p := ProcessMessage(tables, message);
              && (p.Success? && p.value.written ==> r == Handled(Resolved(success), p.value.table, None))
              && (p.Success? && !p.value.written ==> r == Handled(Resolved(true), tables, None))
              && (p.Failure? ==>
                    && r.tables == tables
                    && r.outcome == Resolved(dlqAccepts)
                    && r.forwarded == Some(SendParams(message.body, options.dlqUrl,
                         DlqAttributes(message.attributes,
                           Diagnostics(FailureMessage(p.error), errStack, options.context.awsRequestId)))))
    ensures r.outcome.Rejected? || r.forwarded.Some? ==>
              r == HandleMessageAsWritten(options, tables, success, errStack, dlqAccepts)
  {
    match MissingOption(options)
    case Some(assertion) => Handled(Rejected(assertion), tables, None)
    case None =>
      var message := options.message.value;
      match ProcessMessage(tables, message)
      case Success(restored) =>
        if restored.written then Handled(Resolved(success), restored.table, None)
        else Handled(Resolved(true), restored.table, None)
      case Failure(f) => Handled(Resolved(dlqAccepts), tables, Some(Forward(options, message, f, errStack)))
  }

  /** The value restorer skips an Updated event older than the stored value. */
  lemma {:induction false} StaleUpdatedSkipped(tables: Tables, message: Message, obj: EventObject, tenantId: string)
    requires message.parsed == Success(Event("AttributeEvent", tenantId, Some(EventBody("Updated", Some(obj)))))
    requires obj.id in tables.values && ReplayRules.Earlier(obj.updatedAt, tables.values[obj.id].updatedAt)
    ensures ProcessMessage(tables, message) == Success(Restored(tables, false))
  {
    var event := message.parsed.value;
    var e := ValueRestorer.RuleEventOf(tenantId, "Updated", obj);
    assert ReplayRules.Skips(tables.values, obj.id, e);
    assert ValueRestorer.RestoreEvent(tables.values, event) == Success(Restored(tables.values, false));
  }

  /** A stale Updated value event, older than the value already stored, is
      quarantined in the DLQ with a TypeError by the handler as written,
      while the intended handler acknowledges it and leaves the tables alone. */
  lemma {:induction false} StaleEventQuarantinedAsWritten(options: Options, tables: Tables, obj: EventObject, tenantId: string,
                                                          success: bool, errStack: string, dlqAccepts: bool)
    requires MissingOption(options).None?
    requires options.message.value.parsed == Success(Event("AttributeEvent", tenantId, Some(EventBody("Updated", Some(obj)))))
    requires obj.id in tables.values && ReplayRules.Earlier(obj.updatedAt, tables.values[obj.id].updatedAt)
    ensures var asWritten := HandleMessageAsWritten(options, tables, success, errStack, dlqAccepts);
      && asWritten.outcome == Resolved(dlqAccepts)
      && asWritten.forwarded.Some?
      && asWritten.forwarded.value.messageBody == options.message.value.body
      && (|options.message.value.attributes.Keys| <= MaxAttributesCount - 3 ==>
            asWritten.forwarded.value.messageAttributes["err.message"].stringValue
              == "Cannot read property 'success' of undefined")
    ensures HandleMessage(options, tables, success, errStack, dlqAccepts) == Handled(Resolved(true), tables, None)
  {
    StaleUpdatedSkipped(tables, options.message.value, obj, tenantId);
  }

  /** A message is only ever dropped from the queue once it has been
      restored with a truthy `success`, skipped by its rule because the
      stored record already supersedes it, or handed unchanged to the DLQ;
      otherwise it stays on the queue for another attempt. */
  lemma NoMessageLost(options: Options, tables: Tables, success: bool, errStack: string, dlqAccepts: bool)
    requires HandleMessage(options, tables, success, errStack, dlqAccepts).outcome == Resolved(true)
    ensures var r := HandleMessage(options, tables, success, errStack, dlqAccepts);
      var p := ProcessMessage(tables, options.message.value);
      || (success && p.Success? && p.value.written)
      || (p.Success? && !p.value.written && r.tables == tables)
      || (dlqAccepts && r.forwarded.Some? && r.forwarded.value.messageBody == options.message.value.body
          && r.forwarded.value.queueUrl == options.dlqUrl)
  {
  }

  /** A message touches at most one table, and within it at most the key
      its event names. */
  lemma HandleMessageTouchesOneEntry(options: Options, tables: Tables, success: bool, errStack: string, dlqAccepts: bool)
    requires MissingOption(options).None? && options.message.value.parsed.Success?
    ensures var r := HandleMessage(options, tables, success, errStack, dlqAccepts);
      var event := options.message.value.parsed.value;
      && (event.eventType != "AttributeEvent" ==> r.tables.values == tables.values)
      && (event.eventType != "AttributeDefinitionEvent" ==> r.tables.definitions == tables.definitions)
      && (r.tables != tables ==> event.body.Some? && event.body.value.obj.Some?)
  {
  }

  /** Handling the same message twice leaves the tables as handling it once
      did: SQS delivers at least once. */
  lemma HandleMessageIdempotent(options: Options, tables: Tables, success: bool, errStack: string, dlqAccepts: bool)
    requires MissingOption(options).None?
    ensures var once := HandleMessage(options, tables, success, errStack, dlqAccepts);
      HandleMessage(options, once.tables, success, errStack, dlqAccepts).tables == once.tables
  {
    var message := options.message.value;
    if message.parsed.Success? {
      var event := message.parsed.value;
      if event.eventType == "AttributeEvent" && ValueRestorer.RestoreEvent(tables.values, event).Success? {
        ValueRestorer.RestoreEventIdempotent(tables.values, event);
      } else if event.eventType == "AttributeDefinitionEvent" && DefinitionRestorer.RestoreEvent(tables.definitions, event).Success? {
        DefinitionRestorer.RestoreEventIdempotent(tables.definitions, event);
      }
    }
  }
}
