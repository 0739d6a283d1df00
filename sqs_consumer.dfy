/**
 * One polling cycle of the queue consumer. It asks the queue for a batch
 * (configured queue URL, configured maximum, 20-second long poll); if the
 * receive fails the cycle ends. Otherwise each message, in batch order, is
 * decoded, evaluated, deleted by its own receipt handle, and then handed
 * to the alert service, whatever the verdict. A failure in one message's
 * steps abandons that message only.
 *
 * The calls the service makes are recorded, in order, as a trace of
 * actions. What the transports answer is given as data: the received
 * batch (None when the receive call fails), each message paired with
 * whether its delete and its alert's publish succeed. The JSON decoder is
 * a partial function from message body to transaction.
 */
module Consumer {
  import opened Wrappers
  import opened Model
  import opened FraudDetection
  import opened Notification

  /** Long-poll wait of every receive request, in seconds. */
  const LongPollSeconds: int := 20

  datatype Message = Message(messageId: string, body: string, receiptHandle: string)

  /** A received message with the transports' answers to the calls made
      for it. */
  datatype Delivery = Delivery(message: Message, deleteSucceeds: bool, publishSucceeds: bool)

  datatype ReceiveRequest = ReceiveRequest(queueUrl: string, maxNumberOfMessages: int, waitTimeSeconds: int)

  datatype DeleteRequest = DeleteRequest(queueUrl: string, receiptHandle: string)

  /** A call the service makes: to the queue, the decoder, the rule
      engine, or the alert service. */
  datatype Action =
    | Receive(receiveRequest: ReceiveRequest)
    | Decode(body: string)
    | Detect(transaction: Transaction)
    | Delete(deleteRequest: DeleteRequest)
    | Notify(result: FraudResult)

  /** What a cycle depends on besides the batch and the transports. */
  datatype Context = Context(
    queueUrl: string,
    rules: RuleConfig,
    decode: string -> Option<Transaction>,
    today: string)

  // ---------------------------------------------------------------------
  // The calls of a cycle

  /** The calls made for one message: decode; and when decoding succeeds,
      detect, delete with this message's receipt handle, and, if the
      delete succeeded, notify with the verdict. */
  function MessageTrace(ctx: Context, d: Delivery): seq<Action> {
    match ctx.decode(d.message.body)
    case None => [Decode(d.message.body)]
    case Some(tx) =>
      [Decode(d.message.body), Detect(tx), Delete(DeleteRequest(ctx.queueUrl, d.message.receiptHandle))]
      + (if d.deleteSucceeds then [Notify(Evaluate(ctx.rules, tx, ctx.today))] else [])
  }

  /** The calls for a batch: each message's calls, in batch order. */
  function BatchTrace(ctx: Context, ds: seq<Delivery>): seq<Action> {
    if ds == [] then [] else BatchTrace(ctx, ds[..|ds| - 1]) + MessageTrace(ctx, ds[|ds| - 1])
  }

  function ReceiveFor(ctx: Context, maxMessages: int): ReceiveRequest {
    ReceiveRequest(ctx.queueUrl, maxMessages, LongPollSeconds)
  }

  /** The calls of a whole cycle: the receive, then the batch, if any. */
  function CycleTrace(ctx: Context, maxMessages: int, received: Option<seq<Delivery>>): seq<Action> {
    [Receive(ReceiveFor(ctx, maxMessages))]
    + match received
      case None => []
      case Some(ds) => BatchTrace(ctx, ds)
  }

  /** The publish attempts one message causes: one alert when it was
      decoded and deleted, none otherwise. */
  function MessageAlerts(ctx: Context, topicArn: string, d: Delivery): seq<PublishAttempt> {
    match ctx.decode(d.message.body)
    case None => []
    case Some(tx) =>
      if d.deleteSucceeds
      then [PublishAttempt(AlertRequest(topicArn, Evaluate(ctx.rules, tx, ctx.today)), d.publishSucceeds)]
      else []
  }

  function BatchAlerts(ctx: Context, topicArn: string, ds: seq<Delivery>): seq<PublishAttempt> {
    if ds == [] then [] else BatchAlerts(ctx, topicArn, ds[..|ds| - 1]) + MessageAlerts(ctx, topicArn, ds[|ds| - 1])
  }

  function CycleAlerts(ctx: Context, topicArn: string, received: Option<seq<Delivery>>): seq<PublishAttempt> {
    match received
    case None => []
    case Some(ds) => BatchAlerts(ctx, topicArn, ds)
  }

  // ---------------------------------------------------------------------
  // Views of a trace

  /** The verdicts handed to the alert service, in order. */
  function Notified(trace: seq<Action>): seq<FraudResult> {
    if trace == [] then []
    else (if trace[0].Notify? then [trace[0].result] else []) + Notified(trace[1..])
  }

  /** The delete requests sent to the queue, in order. */
  function Deleted(trace: seq<Action>): seq<DeleteRequest> {
    if trace == [] then []
    else (if trace[0].Delete? then [trace[0].deleteRequest] else []) + Deleted(trace[1..])
  }

  /** The transactions given to the rule engine, in order. */
  function Detected(trace: seq<Action>): seq<Transaction> {
    if trace == [] then []
    else (if trace[0].Detect? then [trace[0].transaction] else []) + Detected(trace[1..])
  }

  lemma {:induction false} NotifiedAppend(a: seq<Action>, b: seq<Action>)
    ensures Notified(a + b) == Notified(a) + Notified(b)
  {
    if a == [] {
      assert a + b == b;
    } else {
      var head: seq<FraudResult> := if a[0].Notify? then [a[0].result] else [];
      assert (a + b)[0] == a[0];
      assert (a + b)[1..] == a[1..] + b;
      NotifiedAppend(a[1..], b);
      assert Notified(a + b) == head + (Notified(a[1..]) + Notified(b));
      assert Notified(a) == head + Notified(a[1..]);
    }
  }

  lemma {:induction false} DeletedAppend(a: seq<Action>, b: seq<Action>)
    ensures Deleted(a + b) == Deleted(a) + Deleted(b)
  {
    if a == [] {
      assert a + b == b;
    } else {
      var head: seq<DeleteRequest> := if a[0].Delete? then [a[0].deleteRequest] else [];
      assert (a + b)[0] == a[0];
      assert (a + b)[1..] == a[1..] + b;
      DeletedAppend(a[1..], b);
      assert Deleted(a + b) == head + (Deleted(a[1..]) + Deleted(b));
      assert Deleted(a) == head + Deleted(a[1..]);
    }
  }

  lemma {:induction false} DetectedAppend(a: seq<Action>, b: seq<Action>)
    ensures Detected(a + b) == Detected(a) + Detected(b)
  {
    if a == [] {
      assert a + b == b;
    } else {
      var head: seq<Transaction> := if a[0].Detect? then [a[0].transaction] else [];
      assert (a + b)[0] == a[0];
      assert (a + b)[1..] == a[1..] + b;
      DetectedAppend(a[1..], b);
      assert Detected(a + b) == head + (Detected(a[1..]) + Detected(b));
      assert Detected(a) == head + Detected(a[1..]);
    }
  }

  /** The calls for a decoded message, as a list of four pieces. */
  lemma DecodedPieces(ctx: Context, d: Delivery, tx: Transaction)
    requires ctx.decode(d.message.body) == Some(tx)
    ensures MessageTrace(ctx, d)
      == [Decode(d.message.body)] + ([Detect(tx)] + ([Delete(DeleteRequest(ctx.queueUrl, d.message.receiptHandle))]
         + (if d.deleteSucceeds then [Notify(Evaluate(ctx.rules, tx, ctx.today))] else [])))
  {
  }

  /** A message's calls evaluate exactly its decoded transaction, if any. */
  lemma MessageDetects(ctx: Context, d: Delivery)
    ensures Detected(MessageTrace(ctx, d))
      == (match ctx.decode(d.message.body) case None => [] case Some(tx) => [tx])
  {
    match ctx.decode(d.message.body)
    case None =>
    case Some(tx) =>
      var a, b, c := Decode(d.message.body), Detect(tx), Delete(DeleteRequest(ctx.queueUrl, d.message.receiptHandle));
      var rest: seq<Action> := if d.deleteSucceeds then [Notify(Evaluate(ctx.rules, tx, ctx.today))] else [];
      DecodedPieces(ctx, d, tx);
      assert Detected(rest) == [] by {
        if rest != [] { assert rest[1..] == []; }
      }
      DetectedAppend([c], rest);
      DetectedAppend([b], [c] + rest);
      DetectedAppend([a], [b] + ([c] + rest));
      assert [a][1..] == [] && [b][1..] == [] && [c][1..] == [];
  }

  /** A message's calls delete exactly its own receipt handle, when it was
      decoded. */
  lemma MessageDeletes(ctx: Context, d: Delivery)
    ensures Deleted(MessageTrace(ctx, d))
      == (if ctx.decode(d.message.body).Some? then [DeleteRequest(ctx.queueUrl, d.message.receiptHandle)] else [])
  {
    match ctx.decode(d.message.body)
    case None =>
    case Some(tx) =>
      var a, b, c := Decode(d.message.body), Detect(tx), Delete(DeleteRequest(ctx.queueUrl, d.message.receiptHandle));
      var rest: seq<Action> := if d.deleteSucceeds then [Notify(Evaluate(ctx.rules, tx, ctx.today))] else [];
      DecodedPieces(ctx, d, tx);
      assert Deleted(rest) == [] by {
        if rest != [] { assert rest[1..] == []; }
      }
      DeletedAppend([c], rest);
      DeletedAppend([b], [c] + rest);
      DeletedAppend([a], [b] + ([c] + rest));
      assert [a][1..] == [] && [b][1..] == [] && [c][1..] == [];
  }

  /** A message's calls notify its verdict exactly when it was decoded and
      its delete succeeded. */
  lemma MessageNotifies(ctx: Context, d: Delivery)
    ensures Notified(MessageTrace(ctx, d))
      == (match ctx.decode(d.message.body)
          case None => []
          case Some(tx) => if d.deleteSucceeds then [Evaluate(ctx.rules, tx, ctx.today)] else [])
  {
    match ctx.decode(d.message.body)
    case None =>
    case Some(tx) =>
      var a, b, c := Decode(d.message.body), Detect(tx), Delete(DeleteRequest(ctx.queueUrl, d.message.receiptHandle));
      var rest: seq<Action> := if d.deleteSucceeds then [Notify(Evaluate(ctx.rules, tx, ctx.today))] else [];
      DecodedPieces(ctx, d, tx);
      assert Notified(rest) == (if d.deleteSucceeds then [Evaluate(ctx.rules, tx, ctx.today)] else []) by {
        if rest != [] { assert rest[1..] == []; }
      }
      NotifiedAppend([c], rest);
      NotifiedAppend([b], [c] + rest);
      NotifiedAppend([a], [b] + ([c] + rest));
      assert [a][1..] == [] && [b][1..] == [] && [c][1..] == [];
  }

  /** `f` applied to each element, in order. */
  function Map<A, B>(f: A -> B, s: seq<A>): seq<B> {
    if s == [] then [] else [f(s[0])] + Map(f, s[1..])
  }

  lemma {:induction false} MapAppend<A, B>(f: A -> B, a: seq<A>, b: seq<A>)
    ensures Map(f, a + b) == Map(f, a) + Map(f, b)
  {
    if a == [] {
      assert a + b == b;
    } else {
      assert (a + b)[0] == a[0];
      assert (a + b)[1..] == a[1..] + b;
      MapAppend(f, a[1..], b);
      assert Map(f, a + b) == [f(a[0])] + (Map(f, a[1..]) + Map(f, b));
    }
  }

  /** The requests of a list of publish attempts. */
  function Requests(attempts: seq<PublishAttempt>): seq<PublishRequest> {
    Map((attempt: PublishAttempt) => attempt.request, attempts)
  }

  /** The alert requests for a list of verdicts. */
  function AlertRequests(topicArn: string, results: seq<FraudResult>): seq<PublishRequest> {
    Map((result: FraudResult) => AlertRequest(topicArn, result), results)
  }

  /** One message's publish attempts carry the alerts for the verdicts its
      calls notified. */
  lemma MessageAlertsFollow(ctx: Context, topicArn: string, d: Delivery)
    ensures Requests(MessageAlerts(ctx, topicArn, d)) == AlertRequests(topicArn, Notified(MessageTrace(ctx, d)))
  {
    MessageNotifies(ctx, d);
    var alerts := MessageAlerts(ctx, topicArn, d);
    var rs := Notified(MessageTrace(ctx, d));
    if alerts == [] {
      assert rs == [];
    } else {
      var r := rs[0];
      assert rs == [r] && alerts == [PublishAttempt(AlertRequest(topicArn, r), d.publishSucceeds)];
      assert rs[1..] == [] && alerts[1..] == [];
      assert Requests(alerts) == [alerts[0].request] + Requests(alerts[1..]);
      assert AlertRequests(topicArn, rs) == [AlertRequest(topicArn, r)] + AlertRequests(topicArn, rs[1..]);
    }
  }

  // ---------------------------------------------------------------------
  // What a batch does, message by message

  /** The messages the decoder accepts, in batch order. */
  function Decodable(ctx: Context, ds: seq<Delivery>): seq<Message> {
    if ds == [] then []
    else
      var m := ds[|ds| - 1].message;
      Decodable(ctx, ds[..|ds| - 1]) + (if ctx.decode(m.body).Some? then [m] else [])
  }

  /** The delete request, on the configured queue, for each message. */
  function DeletesFor(ctx: Context, ms: seq<Message>): seq<DeleteRequest> {
    if ms == [] then [] else DeletesFor(ctx, ms[..|ms| - 1]) + [DeleteRequest(ctx.queueUrl, ms[|ms| - 1].receiptHandle)]
  }

  lemma DeletesForAppend(ctx: Context, ms: seq<Message>, more: seq<Message>)
    requires |more| <= 1
    ensures DeletesFor(ctx, ms + more) == DeletesFor(ctx, ms) + DeletesFor(ctx, more)
  {
    if more != [] {
      assert (ms + more)[..|ms + more| - 1] == ms;
      assert more[..0] == [];
    } else {
      assert ms + more == ms;
    }
  }

  /** Deletes go to the configured queue, one per decodable message, with
      that message's own receipt handle, in batch order; nothing else is
      deleted. */
  lemma {:induction false} BatchDeletes(ctx: Context, ds: seq<Delivery>)
    ensures Deleted(BatchTrace(ctx, ds)) == DeletesFor(ctx, Decodable(ctx, ds))
  {
    if ds != [] {
      var init, d := ds[..|ds| - 1], ds[|ds| - 1];
      BatchDeletes(ctx, init);
      DeletedAppend(BatchTrace(ctx, init), MessageTrace(ctx, d));
      MessageDeletes(ctx, d);
      var last := if ctx.decode(d.message.body).Some? then [d.message] else [];
      DeletesForAppend(ctx, Decodable(ctx, init), last);
      if last != [] {
        assert last[..0] == [];
      }
    }
  }

  /** The transactions the decoder produces, in batch order. */
  function DecodedTransactions(ctx: Context, ds: seq<Delivery>): seq<Transaction> {
    if ds == [] then []
    else
      DecodedTransactions(ctx, ds[..|ds| - 1])
      + (match ctx.decode(ds[|ds| - 1].message.body) case None => [] case Some(tx) => [tx])
  }

  /** The rule engine sees exactly the decoded transactions, in batch order. */
  lemma {:induction false} BatchDetects(ctx: Context, ds: seq<Delivery>)
    ensures Detected(BatchTrace(ctx, ds)) == DecodedTransactions(ctx, ds)
  {
    if ds != [] {
      BatchDetects(ctx, ds[..|ds| - 1]);
      DetectedAppend(BatchTrace(ctx, ds[..|ds| - 1]), MessageTrace(ctx, ds[|ds| - 1]));
      MessageDetects(ctx, ds[|ds| - 1]);
    }
  }

  /** The verdict of every message that was decoded and whose delete
      succeeded, fraudulent or not, in batch order. */
  function NotifiedVerdicts(ctx: Context, ds: seq<Delivery>): seq<FraudResult> {
    if ds == [] then []
    else
      var d := ds[|ds| - 1];
      NotifiedVerdicts(ctx, ds[..|ds| - 1])
      + (match ctx.decode(d.message.body)
         case None => []
         case Some(tx) => if d.deleteSucceeds then [Evaluate(ctx.rules, tx, ctx.today)] else [])
  }

  /** The alert service is handed the verdict of exactly the messages that
      were decoded and deleted, in batch order. */
  lemma {:induction false} BatchNotifies(ctx: Context, ds: seq<Delivery>)
    ensures Notified(BatchTrace(ctx, ds)) == NotifiedVerdicts(ctx, ds)
  {
    if ds != [] {
      BatchNotifies(ctx, ds[..|ds| - 1]);
      NotifiedAppend(BatchTrace(ctx, ds[..|ds| - 1]), MessageTrace(ctx, ds[|ds| - 1]));
      MessageNotifies(ctx, ds[|ds| - 1]);
    }
  }

  /** Every verdict handed to the alert service becomes exactly one publish
      request to the topic, in the same order: no alert is dropped, added
      or retried. */
  lemma {:induction false} AlertsFollowNotifications(ctx: Context, topicArn: string, ds: seq<Delivery>)
    ensures Requests(BatchAlerts(ctx, topicArn, ds)) == AlertRequests(topicArn, Notified(BatchTrace(ctx, ds)))
  {
    if ds != [] {
      var init, d := ds[..|ds| - 1], ds[|ds| - 1];
      AlertsFollowNotifications(ctx, topicArn, init);
      NotifiedAppend(BatchTrace(ctx, init), MessageTrace(ctx, d));
      MessageAlertsFollow(ctx, topicArn, d);
      MapAppend((attempt: PublishAttempt) => attempt.request, BatchAlerts(ctx, topicArn, init), MessageAlerts(ctx, topicArn, d));
      MapAppend((result: FraudResult) => AlertRequest(topicArn, result), Notified(BatchTrace(ctx, init)), Notified(MessageTrace(ctx, d)));
    }
  }

  // ---------------------------------------------------------------------
  // Isolation and order

  lemma {:induction false} BatchTraceAppend(ctx: Context, ds: seq<Delivery>, more: seq<Delivery>)
    ensures BatchTrace(ctx, ds + more) == BatchTrace(ctx, ds) + BatchTrace(ctx, more)
  {
    if more == [] {
      assert ds + more == ds;
    } else {
      var init := more[..|more| - 1];
      assert (ds + more)[..|ds + more| - 1] == ds + init;
      assert (ds + more)[|ds + more| - 1] == more[|more| - 1];
      BatchTraceAppend(ctx, ds, init);
    }
  }

  /** Message k's calls sit, whole and contiguous, between the calls of
      the messages before it and those of the messages after it. */
  lemma BatchTraceAt(ctx: Context, ds: seq<Delivery>, k: nat)
    requires k < |ds|
    ensures BatchTrace(ctx, ds) == BatchTrace(ctx, ds[..k]) + MessageTrace(ctx, ds[k]) + BatchTrace(ctx, ds[k + 1..])
  {
    assert ds == ds[..k + 1] + ds[k + 1..];
    BatchTraceAppend(ctx, ds[..k + 1], ds[k + 1..]);
    assert ds[..k + 1][..k] == ds[..k];
  }

  /** Failure isolation: replacing one message, or what the transports do
      with it (a decode failure, a failed delete), changes that message's
      own calls and nothing of the calls made for the others. */
  lemma OneMessageChanged(ctx: Context, ds: seq<Delivery>, k: nat, d: Delivery)
    requires k < |ds|
    ensures BatchTrace(ctx, ds[k := d]) == BatchTrace(ctx, ds[..k]) + MessageTrace(ctx, d) + BatchTrace(ctx, ds[k + 1..])
  {
    var ds' := ds[k := d];
    BatchTraceAt(ctx, ds', k);
    assert ds'[..k] == ds[..k];
    assert ds'[k + 1..] == ds[k + 1..];
  }

  /** A message the decoder rejects is decoded and nothing more: it is not
      evaluated, deleted or notified, and causes no alert. */
  lemma UndecodableMessage(ctx: Context, d: Delivery, topicArn: string)
    requires ctx.decode(d.message.body).None?
    ensures MessageTrace(ctx, d) == [Decode(d.message.body)]
    ensures Detected(MessageTrace(ctx, d)) == [] && Deleted(MessageTrace(ctx, d)) == []
    ensures Notified(MessageTrace(ctx, d)) == []
    ensures MessageAlerts(ctx, topicArn, d) == []
  {
    assert [Decode(d.message.body)][1..] == [];
  }

  /** A decoded message is evaluated, then deleted from the configured
      queue with its own receipt handle, then, when the delete succeeded,
      its verdict is notified. A failed delete means no notification and
      no alert. */
  lemma DecodedMessage(ctx: Context, d: Delivery, topicArn: string)
    requires ctx.decode(d.message.body).Some?
    ensures var tx, t := ctx.decode(d.message.body).value, MessageTrace(ctx, d);
      t[0] == Decode(d.message.body) && t[1] == Detect(tx)
      && t[2] == Delete(DeleteRequest(ctx.queueUrl, d.message.receiptHandle))
      && (d.deleteSucceeds <==> |t| == 4)
      && (d.deleteSucceeds ==> t[3] == Notify(Evaluate(ctx.rules, tx, ctx.today)))
    ensures |MessageAlerts(ctx, topicArn, d)| == |Notified(MessageTrace(ctx, d))|
      == (if d.deleteSucceeds then 1 else 0)
  {
    var tx := ctx.decode(d.message.body).value;
    var t := MessageTrace(ctx, d);
    var r := Evaluate(ctx.rules, tx, ctx.today);
    var head := [Decode(d.message.body), Detect(tx), Delete(DeleteRequest(ctx.queueUrl, d.message.receiptHandle))];
    assert t == head + (if d.deleteSucceeds then [Notify(r)] else []);
    DecodedCounts(ctx, d, topicArn);
  }

  lemma DecodedCounts(ctx: Context, d: Delivery, topicArn: string)
    requires ctx.decode(d.message.body).Some?
    ensures |MessageAlerts(ctx, topicArn, d)| == |Notified(MessageTrace(ctx, d))|
      == (if d.deleteSucceeds then 1 else 0)
  {
    MessageNotifies(ctx, d);
  }

  /** A batch of a malformed message followed by a well-formed one whose
      delete succeeds: only the well-formed one is deleted and notified. */
  lemma MixedBatch(ctx: Context, bad: Delivery, good: Delivery)
    requires ctx.decode(bad.message.body).None?
    requires ctx.decode(good.message.body).Some? && good.deleteSucceeds
    ensures Deleted(BatchTrace(ctx, [bad, good])) == [DeleteRequest(ctx.queueUrl, good.message.receiptHandle)]
    ensures Notified(BatchTrace(ctx, [bad, good]))
      == [Evaluate(ctx.rules, ctx.decode(good.message.body).value, ctx.today)]
  {
    var ds := [bad, good];
    BatchDeletes(ctx, ds);
    BatchNotifies(ctx, ds);
    assert ds[..1] == [bad] && ds[..1][..0] == [];
    assert Decodable(ctx, [bad]) == [];
    assert Decodable(ctx, ds) == [good.message];
    assert [good.message][..0] == [];
    assert NotifiedVerdicts(ctx, [bad]) == [];
  }

  /** A failed receive makes no call after the receive and no alert. */
  lemma ReceiveFailure(ctx: Context, maxMessages: int, topicArn: string)
    ensures CycleTrace(ctx, maxMessages, None) == [Receive(ReceiveRequest(ctx.queueUrl, maxMessages, 20))]
    ensures CycleAlerts(ctx, topicArn, None) == []
  {
  }

  /** An empty batch makes no call after the receive and no alert. */
  lemma EmptyBatch(ctx: Context, maxMessages: int, topicArn: string)
    ensures CycleTrace(ctx, maxMessages, Some([])) == [Receive(ReceiveRequest(ctx.queueUrl, maxMessages, 20))]
    ensures CycleAlerts(ctx, topicArn, Some([])) == []
  {
  }

  /** A decoded message whose delete succeeded has its verdict handed to the
      alert service, whatever that verdict says: nothing tests isFraudulent. */
  lemma DecodedVerdictNotified(ctx: Context, d: Delivery)
    requires ctx.decode(d.message.body).Some? && d.deleteSucceeds
    ensures Notified(MessageTrace(ctx, d)) == [Evaluate(ctx.rules, ctx.decode(d.message.body).value, ctx.today)]
  {
    MessageNotifies(ctx, d);
  }

  /** The alert service is called for a verdict that is not fraudulent: a
      decoded, deleted transaction that no rule flags is still notified. */
  lemma NonFraudulentVerdictNotified(ctx: Context, d: Delivery)
    requires ctx.decode(d.message.body).Some? && d.deleteSucceeds
    requires ctx.rules == RuleConfig(10000.0, [], [], false)
    requires ctx.decode(d.message.body).value.amount == 0.0
    ensures var r := Evaluate(ctx.rules, ctx.decode(d.message.body).value, ctx.today);
      !r.isFraudulent && Notified(MessageTrace(ctx, d)) == [r]
  {
    DecodedVerdictNotified(ctx, d);
  }

  /** The calls one undecodable message appends to a trace. */
  lemma UndecodedSteps(ctx: Context, d: Delivery, start: seq<Action>)
    requires ctx.decode(d.message.body).None?
    ensures start + [Decode(d.message.body)] == start + MessageTrace(ctx, d)
  {
  }

  /** The calls one decoded message appends to a trace, step by step. */
  lemma DecodedSteps(ctx: Context, d: Delivery, tx: Transaction, start: seq<Action>)
    requires ctx.decode(d.message.body) == Some(tx)
    ensures var prefix := start + [Decode(d.message.body)] + [Detect(tx)]
        + [Delete(DeleteRequest(ctx.queueUrl, d.message.receiptHandle))];
      (d.deleteSucceeds ==> prefix + [Notify(Evaluate(ctx.rules, tx, ctx.today))] == start + MessageTrace(ctx, d))
      && (!d.deleteSucceeds ==> prefix == start + MessageTrace(ctx, d))
  {
    var a, b, c := Decode(d.message.body), Detect(tx), Delete(DeleteRequest(ctx.queueUrl, d.message.receiptHandle));
    var rest: seq<Action> := if d.deleteSucceeds then [Notify(Evaluate(ctx.rules, tx, ctx.today))] else [];
    assert MessageTrace(ctx, d) == [a, b, c] + rest;
    assert start + [a] + [b] + [c] + rest == start + ([a] + [b] + [c] + rest);
    assert [a] + [b] + [c] == [a, b, c];
  }

  // ---------------------------------------------------------------------
  // Loop bookkeeping

  /** A cycle's calls are the receive followed by the batch's calls, and
      its alerts the batch's alerts; with no batch, or an empty one, there
      is nothing after the receive. */
  lemma CycleShape(ctx: Context, topicArn: string, maxMessages: int, received: Option<seq<Delivery>>)
    ensures received.Some? ==> CycleTrace(ctx, maxMessages, received) == [Receive(ReceiveFor(ctx, maxMessages))] + BatchTrace(ctx, received.value)
    ensures received.Some? ==> CycleAlerts(ctx, topicArn, received) == BatchAlerts(ctx, topicArn, received.value)
    ensures received.None? || received.value == [] ==> CycleTrace(ctx, maxMessages, received) == [Receive(ReceiveFor(ctx, maxMessages))]
    ensures received.None? || received.value == [] ==> CycleAlerts(ctx, topicArn, received) == []
  {
  }

  /** A cycle that received a batch makes the receive, then the batch's calls. */
  lemma CycleTraceEnd(ctx: Context, maxMessages: int, ds: seq<Delivery>,
                      start: seq<Action>, calls: seq<Action>, trace: seq<Action>)
    requires calls == start + [Receive(ReceiveFor(ctx, maxMessages))]
    requires trace == calls + BatchTrace(ctx, ds)
    ensures trace == start + CycleTrace(ctx, maxMessages, Some(ds))
  {
    var receive := [Receive(ReceiveFor(ctx, maxMessages))];
    assert CycleTrace(ctx, maxMessages, Some(ds)) == receive + BatchTrace(ctx, ds);
    assert trace == start + (receive + BatchTrace(ctx, ds));
  }

  /** A cycle that received a batch causes the batch's alerts. */
  lemma CycleAlertsEnd(ctx: Context, topicArn: string, ds: seq<Delivery>,
                       first: seq<PublishAttempt>, attempts: seq<PublishAttempt>)
    requires attempts == first + BatchAlerts(ctx, topicArn, ds)
    ensures attempts == first + CycleAlerts(ctx, topicArn, Some(ds))
  {
  }

  /** The calls for one more message extend the batch's calls so far. */
  lemma TraceStep(ctx: Context, ds: seq<Delivery>, i: nat, start: seq<Action>)
    requires i < |ds|
    ensures start + BatchTrace(ctx, ds[..i]) + MessageTrace(ctx, ds[i]) == start + BatchTrace(ctx, ds[..i + 1])
  {
    assert ds[..i + 1][..i] == ds[..i];
  }

  /** The alerts for one more message extend the batch's alerts so far. */
  lemma AlertsStep(ctx: Context, topicArn: string, ds: seq<Delivery>, i: nat, first: seq<PublishAttempt>)
    requires i < |ds|
    ensures first + BatchAlerts(ctx, topicArn, ds[..i]) + MessageAlerts(ctx, topicArn, ds[i])
      == first + BatchAlerts(ctx, topicArn, ds[..i + 1])
  {
    assert ds[..i + 1][..i] == ds[..i];
  }

  // ---------------------------------------------------------------------
  // The service

  class SqsConsumerService {
    const detector: FraudDetectionService
    const notifier: SnsNotificationService
    const sqsQueueUrl: string
    const maxMessages: int
    /** The calls made so far, in order. */
    var trace: seq<Action>

    constructor (detector: FraudDetectionService, notifier: SnsNotificationService, sqsQueueUrl: string, maxMessages: int)
      ensures this.detector == detector && this.notifier == notifier
      ensures this.sqsQueueUrl == sqsQueueUrl && this.maxMessages == maxMessages
      ensures trace == []
    {
      this.detector := detector;
      this.notifier := notifier;
      this.sqsQueueUrl := sqsQueueUrl;
      this.maxMessages := maxMessages;
      trace := [];
    }

    /** The cycle context for the given decoder and date. */
    function Ctx(decode: string -> Option<Transaction>, today: string): Context
      reads detector
    {
      Context(sqsQueueUrl, detector.Config(), decode, today)
    }

    /** One polling cycle. `received` is the queue's answer to the receive
        request (None when that call fails), each message paired with the
        transports' answers for it. */
    method ConsumeTransactions(received: Option<seq<Delivery>>, decode: string -> Option<Transaction>, today: string)
      modifies this`trace, notifier`attempts
      ensures trace == old(trace) + CycleTrace(Ctx(decode, today), maxMessages, received)
      ensures notifier.attempts == old(notifier.attempts) + CycleAlerts(Ctx(decode, today), notifier.snsTopicArn, received)
    {
      ghost var ctx := Ctx(decode, today);
      ghost var topicArn := notifier.snsTopicArn;
      var request := ReceiveRequest(sqsQueueUrl, maxMessages, LongPollSeconds);
      trace := trace + [Receive(request)];
      CycleShape(ctx, topicArn, maxMessages, received);
      if received.None? {
        // the receive threw: logged, and the cycle ends
        return;
      }
      var deliveries := received.value;
      if |deliveries| == 0 {
        return;
      }
      ghost var calls := trace;
      ConsumeBatch(deliveries, decode, today);
      assert Ctx(decode, today) == ctx && notifier.snsTopicArn == topicArn;
      CycleTraceEnd(ctx, maxMessages, deliveries, old(trace), calls, trace);
      CycleAlertsEnd(ctx, topicArn, deliveries, old(notifier.attempts), notifier.attempts);
    }

    /** The messages of a batch, one after the other, in batch order. */
    method ConsumeBatch(deliveries: seq<Delivery>, decode: string -> Option<Transaction>, today: string)
      modifies this`trace, notifier`attempts
      ensures trace == old(trace) + BatchTrace(Ctx(decode, today), deliveries)
      ensures notifier.attempts == old(notifier.attempts) + BatchAlerts(Ctx(decode, today), notifier.snsTopicArn, deliveries)
    {
      ghost var ctx := Ctx(decode, today);
      ghost var topicArn := notifier.snsTopicArn;
      var i := 0;
      while i < |deliveries|
        invariant 0 <= i <= |deliveries|
        invariant trace == old(trace) + BatchTrace(ctx, deliveries[..i])
        invariant notifier.attempts == old(notifier.attempts) + BatchAlerts(ctx, topicArn, deliveries[..i])
      {
        ConsumeMessage(deliveries[i], decode, today);
        TraceStep(ctx, deliveries, i, old(trace));
        AlertsStep(ctx, topicArn, deliveries, i, old(notifier.attempts));
        i := i + 1;
      }
      assert deliveries[..i] == deliveries;
    }

    /** The steps for one message. A decode or delete failure ends them
        early; it is logged, and the cycle goes on with the next message. */
    method ConsumeMessage(delivery: Delivery, decode: string -> Option<Transaction>, today: string)
      modifies this`trace, notifier`attempts
      ensures trace == old(trace) + MessageTrace(Ctx(decode, today), delivery)
      ensures notifier.attempts == old(notifier.attempts) + MessageAlerts(Ctx(decode, today), notifier.snsTopicArn, delivery)
    {
      ghost var ctx := Ctx(decode, today);
      ghost var start := trace;
      var message := delivery.message;
      trace := trace + [Decode(message.body)];
      var decoded := decode(message.body);
      if decoded.None? {
        UndecodedSteps(ctx, delivery, start);
        return;
      }
      var transaction := decoded.value;
      trace := trace + [Detect(transaction)];
      var result := detector.DetectFraud(transaction, today);
      trace := trace + [Delete(DeleteRequest(sqsQueueUrl, message.receiptHandle))];
      DecodedSteps(ctx, delivery, transaction, start);
      if !delivery.deleteSucceeds {
        return;
      }
      trace := trace + [Notify(result)];
      notifier.SendFraudAlert(result, delivery.publishSucceeds);
    }
  }
}
