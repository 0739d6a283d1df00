/**
 * The alert formatter. For a verdict it builds a subject line and a body
 * (a fixed header, then one "- reason" line per reason), publishes them
 * once to the configured topic, and swallows a publish failure. The
 * topic's transport is represented by the log of publish attempts it
 * receives; whether an attempt was delivered is the transport's answer,
 * passed in.
 */
module Notification {
  import opened JavaText
  import opened Model
  import opened FraudDetection

  /** What the service hands to the notification transport. */
  datatype PublishRequest = PublishRequest(topicArn: string, subject: string, message: string)

  /** One call of the transport's publish, and whether it succeeded. */
  datatype PublishAttempt = PublishAttempt(request: PublishRequest, delivered: bool)

  const SubjectPrefix: string := "Fraud Alarm Transaction-ID: "

  function AlertSubject(result: FraudResult): string {
    SubjectPrefix + Show(result.transactionId)
  }

  /** The four header lines: title, id, detection time, and ":". */
  function AlertHeader(result: FraudResult): string {
    "Detect Fraud Transaction:\n"
    + "Transaction-ID: " + Show(result.transactionId) + "\n"
    + "Detection time: " + result.detectTime + "\n"
    + ":\n"
  }

  function ReasonLine(r: Reason): string {
    "- " + ReasonText(r) + "\n"
  }

  /** The lines of `xs`, one after the other. */
  function Lines<T>(line: T -> string, xs: seq<T>): string {
    if xs == [] then "" else line(xs[0]) + Lines(line, xs[1..])
  }

  /** One line per reason, in list order. */
  function ReasonLines(reasons: seq<Reason>): string {
    Lines(ReasonLine, reasons)
  }

  function AlertBody(result: FraudResult): string {
    AlertHeader(result) + ReasonLines(result.reasons)
  }

  /** The request an alert for `result` sends to `topicArn`. */
  function AlertRequest(topicArn: string, result: FraudResult): PublishRequest {
    PublishRequest(topicArn, AlertSubject(result), AlertBody(result))
  }

  lemma {:induction false} LinesAppend<T>(line: T -> string, xs: seq<T>, more: seq<T>)
    ensures Lines(line, xs + more) == Lines(line, xs) + Lines(line, more)
  {
    if xs == [] {
      assert xs + more == more;
    } else {
      assert (xs + more)[0] == xs[0];
      assert (xs + more)[1..] == xs[1..] + more;
      LinesAppend(line, xs[1..], more);
      assert Lines(line, xs + more) == line(xs[0]) + (Lines(line, xs[1..]) + Lines(line, more));
    }
  }

  /** The line of the k-th element sits between the lines of the elements
      before it and those after it. */
  lemma LinesAt<T>(line: T -> string, xs: seq<T>, k: nat)
    requires k < |xs|
    ensures Lines(line, xs) == Lines(line, xs[..k]) + line(xs[k]) + Lines(line, xs[k + 1..])
  {
    var tail := xs[k..];
    assert xs == xs[..k] + tail;
    LinesAppend(line, xs[..k], tail);
    assert tail[0] == xs[k] && tail[1..] == xs[k + 1..];
    assert Lines(line, tail) == line(xs[k]) + Lines(line, xs[k + 1..]);
  }

  /** The lines of the k-th reason sits between the lines of the reasons
      before it and those after it. */
  lemma ReasonLineAt(reasons: seq<Reason>, k: nat)
    requires k < |reasons|
    ensures ReasonLines(reasons)
      == ReasonLines(reasons[..k]) + ReasonLine(reasons[k]) + ReasonLines(reasons[k + 1..])
  {
    LinesAt(ReasonLine, reasons, k);
  }

  /** Reason lines, when there are any, end with a line break. */
  lemma ReasonLinesEndWithNewline(reasons: seq<Reason>)
    requires reasons != []
    ensures var s := ReasonLines(reasons); |s| > 0 && s[|s| - 1] == '\n'
  {
    var k := |reasons| - 1;
    ReasonLineAt(reasons, k);
    assert reasons[k + 1..] == [];
    var last := ReasonLine(reasons[k]);
    assert last[|last| - 1] == '\n';
  }

  /** The body is the header followed by exactly the reason lines; it ends
      with a line break, and with no reasons it is the header alone. */
  lemma AlertBodyShape(result: FraudResult)
    ensures var body, header := AlertBody(result), AlertHeader(result);
      |header| <= |body| && body[..|header|] == header
      && body[|header|..] == ReasonLines(result.reasons)
      && |body| > 0 && body[|body| - 1] == '\n'
      && (result.reasons == [] ==> body == header)
  {
    var body, header := AlertBody(result), AlertHeader(result);
    assert body[..|header|] == header;
    if result.reasons != [] {
      ReasonLinesEndWithNewline(result.reasons);
      var lines := ReasonLines(result.reasons);
      assert body[|body| - 1] == lines[|lines| - 1];
    } else {
      assert header[|header| - 1] == '\n';
    }
  }

  /** The subject is the fixed prefix followed by the transaction id as printed. */
  lemma AlertSubjectShape(result: FraudResult)
    ensures var s := AlertSubject(result);
      |SubjectPrefix| <= |s| && s[..|SubjectPrefix|] == SubjectPrefix
      && s[|SubjectPrefix|..] == Show(result.transactionId)
  {
  }

  /** The alert does not look at the verdict flag: a result is formatted
      the same whether or not it is marked fraudulent. */
  lemma AlertIgnoresVerdictFlag(topicArn: string, result: FraudResult)
    ensures AlertRequest(topicArn, result) == AlertRequest(topicArn, result.(isFraudulent := !result.isFraudulent))
  {
  }

  /** The lines of one more reason are the lines so far and its own line. */
  lemma ReasonLinesStep(reasons: seq<Reason>, i: nat)
    requires i < |reasons|
    ensures ReasonLines(reasons[..i + 1]) == ReasonLines(reasons[..i]) + ReasonLine(reasons[i])
  {
    ReasonLineAt(reasons[..i + 1], i);
    assert reasons[..i + 1][..i] == reasons[..i];
    assert reasons[..i + 1][i + 1..] == [];
  }

  /** The message body built line by line, as the service's string builder does. */
  method BuildAlertBody(result: FraudResult) returns (message: string)
    ensures message == AlertBody(result)
  {
    message := "Detect Fraud Transaction:\n";
    message := message + "Transaction-ID: " + Show(result.transactionId) + "\n";
    message := message + "Detection time: " + result.detectTime + "\n";
    message := message + ":\n";
    ghost var header := message;
    assert header == AlertHeader(result);
    var i := 0;
    while i < |result.reasons|
      invariant 0 <= i <= |result.reasons|
      invariant message == header + ReasonLines(result.reasons[..i])
    {
      var reason := result.reasons[i];
      var text := ReasonText(reason);
      ReasonLinesStep(result.reasons, i);
      assert message + "- " + text + "\n" == header + (ReasonLines(result.reasons[..i]) + ReasonLine(reason));
      message := message + "- " + text + "\n";
      i := i + 1;
    }
    assert result.reasons[..i] == result.reasons;
  }

  class SnsNotificationService {
    var snsTopicArn: string
    /** The publish calls made so far, in order. */
    var attempts: seq<PublishAttempt>

    constructor (snsTopicArn: string)
      ensures this.snsTopicArn == snsTopicArn && attempts == []
    {
      this.snsTopicArn := snsTopicArn;
      attempts := [];
    }

    /** Publishes one alert for `result`; `delivered` is the transport's
        answer. A failed publish is logged and swallowed: the call returns
        normally either way, and nothing is retried. */
    method SendFraudAlert(result: FraudResult, delivered: bool)
      modifies this`attempts
      ensures attempts == old(attempts) + [PublishAttempt(AlertRequest(snsTopicArn, result), delivered)]
    {
      var subject := SubjectPrefix + Show(result.transactionId);
      var message := BuildAlertBody(result);
      var request := PublishRequest(snsTopicArn, subject, message);
      attempts := attempts + [PublishAttempt(request, delivered)];
    }
  }
}
