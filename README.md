# Fraud-detection pipeline: a Dafny model

This project models the three services at the centre of a small Java
fraud-detection pipeline:

- **SqsConsumerService**: polls a queue for transaction events.
- **FraudDetectionService**: applies three fraud rules to each decoded transaction:
  - the amount is above the threshold
  - the account is on the suspicious list
  - the location contains a high-risk entry
- **SnsNotificationService**: formats and publishes an alert for the verdict.

The modules follow the program's structure:

- `JavaText` (`java_text.dfy`) covers the `java.lang.String` and `Formatter` behaviour the services depend on:
  - `split(",")`, including the dropping of trailing empty pieces
  - `trim()`, which strips chars up to U+0020
  - `isBlank()`, using `Character.isWhitespace`
  - `contains`
  - rendering a null reference
  - `%.2f` with HALF_UP rounding

  Trim, `contains`, split and `%.2f` each come with a reference definition or an inverse, and a lemma that connects the two. `isBlank` and null rendering are plain definitions.
- `Model` (`model.dfy`) holds the `Transaction` and `FraudResult` records. A reason is a `Reason` value, and `FraudDetection.ReasonText` gives its sentence.
- `FraudDetection` (`fraud_detection.dfy`):
  - `ParseList` is the list parsing that `init` does.
  - `Evaluate` is the specification of a verdict.
  - The class `FraudDetectionService` has `Init` and `DetectFraud`. `DetectFraud` is proved equal to `Evaluate`.
  - The module also restates the repository's unit tests as lemmas.
- `Notification` (`sns_notification.dfy`):
  - `AlertRequest` specifies the subject and body.
  - `BuildAlertBody` is the string-builder loop, proved to produce `AlertBody`.
  - The class `SnsNotificationService` records each publish attempt.
- `Consumer` (`sqs_consumer.dfy`) is one polling cycle, `ConsumeTransactions`:
  - It records every call it makes, in order, as a trace of actions: receive, decode, detect, delete, notify.
  - Its loop is proved to produce `CycleTrace` and `CycleAlerts`.
  - Lemmas state what those traces mean: which messages are deleted, evaluated and notified, and that failures stay isolated per message.

What the transports answer is input data:

- the received batch, or `None` when the receive call throws
- for each message, whether its delete and its publish succeed

The JSON decoder is a partial function from message body to transaction. The current date is a parameter.

## Model

| member | source | states |
|---|---|---|
| JavaText.TrimSpec | src/main/java/com/fraud/service/FraudDetectionService.java:55 | `String.trim` keeps a contiguous piece of its input that neither starts nor ends with a char <= ' '. Everything cut from either end is <= ' '. |
| JavaText.TrimIdempotent | src/main/java/com/fraud/service/FraudDetectionService.java:58 | Trimming a trimmed entry changes nothing. |
| JavaText.ContainsIff | src/main/java/com/fraud/service/FraudDetectionService.java:121 | The left-to-right `contains` scan answers true exactly when the needle occurs at some offset (both directions). |
| JavaText.JoinSplitAll | src/main/java/com/fraud/service/FraudDetectionService.java:54 | Joining the comma-separated pieces with commas gives back the original string. |
| JavaText.SplitAllJoin | src/main/java/com/fraud/service/FraudDetectionService.java:54 | Splitting comma-free pieces joined by commas gives back those pieces. |
| JavaText.SplitAllCons | src/main/java/com/fraud/service/FraudDetectionService.java:57 | Splitting at the first comma yields the first piece, then the pieces of the rest. |
| JavaText.DecimalRoundTrip | src/main/java/com/fraud/service/FraudDetectionService.java:74-75 | The integer digits `%.2f` prints read back as the integer part. |
| JavaText.HundredthsValue | src/main/java/com/fraud/service/FraudDetectionService.java:74-75 | The two fraction digits `%.2f` prints read back as the hundredths, mod 100. |
| JavaText.Fixed2Parts | src/main/java/com/fraud/service/FraudDetectionService.java:74-75 | The formatted amount starts with '-' exactly when it is negative, followed by the unsigned body. |
| JavaText.Fixed2BodyValue | src/main/java/com/fraud/service/FraudDetectionService.java:74-75 | The body is digits, '.', and two digits. The number it denotes is within half a hundredth of the amount's magnitude (HALF_UP). |
| FraudDetection.ParseListEntries | src/main/java/com/fraud/service/FraudDetectionService.java:54-59 | Every entry the configured lists parse to is trimmed and holds no comma. |
| FraudDetection.ParseJoined | src/main/java/com/fraud/service/FraudDetectionService.java:54-59 | Non-empty, trimmed, comma-free entries, each with leading spaces and joined by commas, parse back to exactly those entries. |
| FraudDetection.FraudDetectionService.Init | src/main/java/com/fraud/service/FraudDetectionService.java:52-62 | Both lists become the split-and-trimmed configured strings. The threshold and the flag are left as injected. |
| FraudDetection.Evaluate | src/main/java/com/fraud/service/FraudDetectionService.java:68-111 | The verdict copies the id and the detection time. It is fraudulent iff it has a reason. It has at most three reasons, in strict rule order (amount, account, location). |
| FraudDetection.FraudDetectionService.DetectFraud | src/main/java/com/fraud/service/FraudDetectionService.java:68-111 | The step-by-step rule checks return exactly `Evaluate` of the service's current configuration. |
| FraudDetection.ReasonCount | src/main/java/com/fraud/service/FraudDetectionService.java:72-92 | The number of reasons is the number of rules that fired. |
| FraudDetection.AmountRuleIff | src/main/java/com/fraud/service/FraudDetectionService.java:73-78 | An amount reason is present iff amount > threshold, so an equal amount does not fire. It carries both numbers. |
| FraudDetection.AccountRuleIff | src/main/java/com/fraud/service/FraudDetectionService.java:81-85 | An account reason is present iff the id is non-null and equals a parsed entry exactly. It carries that id. |
| FraudDetection.LocationRuleIff | src/main/java/com/fraud/service/FraudDetectionService.java:88-92 | A location reason is present iff the flag is on, the location is non-null and not blank, and some entry is a substring of it. It carries the untrimmed location. |
| FraudDetection.LocationFlagOff | src/main/java/com/fraud/service/FraudDetectionService.java:88 | With the flag off there is never a location reason. |
| FraudDetection.EmptyEntryMatchesEveryLocation | src/main/java/com/fraud/service/FraudDetectionService.java:116-122 | An empty high-risk entry makes every non-blank location high risk. |
| FraudDetection.EmptySettingParse | src/main/java/com/fraud/service/FraudDetectionService.java:57-59 | An empty configured string parses to the single entry "". |
| FraudDetection.DoubleCommaParse | src/main/java/com/fraud/service/FraudDetectionService.java:57-59 | A setting "A,,B" parses to the trimmed A, then "", then the trimmed B. |
| FraudDetection.EmptySettingMatchesEveryLocation | src/main/java/com/fraud/service/FraudDetectionService.java:57-59 | With an empty high-risk setting, every non-blank location is high risk. |
| FraudDetection.DoubleCommaMatchesEveryLocation | src/main/java/com/fraud/service/FraudDetectionService.java:57-59 | With a high-risk setting "A,,B", every non-blank location is high risk. |
| FraudDetection.RulesIndependent | src/main/java/com/fraud/service/FraudDetectionService.java:72-92 | Whether a rule fires depends only on its own field of the transaction. |
| FraudDetection.ReasonTextMentions | src/main/java/com/fraud/service/FraudDetectionService.java:74-89 | The amount sentence contains both amounts as `%.2f` prints them. The account sentence contains the account id, and the location sentence the location as given. |
| FraudDetection.TestAmounts | src/main/java/com/fraud/service/FraudDetectionService.java:74-75 | `%.2f` prints 15000 as "15000.00" and 10000 as "10000.00". |
| FraudDetection.AccountAndLocation | src/main/java/com/fraud/service/FraudDetectionService.java:81-92 | A listed account at a high-risk location under the threshold gets exactly the account and location reasons, in that order. |
| FraudDetection.TestAccountsParse | src/test/java/com/fraud/service/FraudDetectionServiceTest.java:36 | "ACCT-123,ACCT-456" parses to its two ids. |
| FraudDetection.TestLocationsParse | src/test/java/com/fraud/service/FraudDetectionServiceTest.java:38 | The test's high-risk setting parses to its four names without their leading spaces. |
| FraudDetection.TestLocationsMatch | src/test/java/com/fraud/service/FraudDetectionServiceTest.java:44-47 | "HighRiskCountry1" is high risk. "New York", "London" and "Paris" are not. |
| FraudDetection.TestHighAmount | src/test/java/com/fraud/service/FraudDetectionServiceTest.java:50-56 | A 15000 amount alone is fraudulent with the single reason AmountReason(15000, 10000). |
| FraudDetection.TestAmountText | src/test/java/com/fraud/service/FraudDetectionServiceTest.java:55 | That reason's sentence contains "exceeds the threshold of 10000.0". |
| FraudDetection.TestSuspiciousAccount | src/test/java/com/fraud/service/FraudDetectionServiceTest.java:58-64 | Account "ACCT-123" alone is fraudulent with the single account reason. |
| FraudDetection.TestAccountText | src/test/java/com/fraud/service/FraudDetectionServiceTest.java:63 | That reason's sentence contains "known suspicious account". |
| FraudDetection.TestNormal | src/test/java/com/fraud/service/FraudDetectionServiceTest.java:66-71 | The normal transaction is not fraudulent and has no reasons. |
| FraudDetection.TestHighRiskLocation | src/test/java/com/fraud/service/FraudDetectionServiceTest.java:73-79 | Location "HighRiskCountry1" alone is fraudulent with the single location reason. |
| FraudDetection.TestLocationText | src/test/java/com/fraud/service/FraudDetectionServiceTest.java:78 | That reason's sentence contains "high risk area". |
| FraudDetection.TestMultipleRules | src/test/java/com/fraud/service/FraudDetectionServiceTest.java:81-87 | All three rules firing give three reasons. |
| Notification.BuildAlertBody | src/main/java/com/fraud/service/SnsNotificationService.java:32-40 | The string-builder loop produces exactly `AlertBody`: the four header lines, then one "- reason" line per reason, in order. |
| Notification.AlertBodyShape | src/main/java/com/fraud/service/SnsNotificationService.java:32-40 | The body is the header followed by exactly the reason lines. It ends with a line break. With no reasons it is the header alone. |
| Notification.ReasonLineAt | src/main/java/com/fraud/service/SnsNotificationService.java:38-40 | The k-th reason's line sits between the lines of the reasons before and after it. |
| Notification.AlertSubjectShape | src/main/java/com/fraud/service/SnsNotificationService.java:31 | The subject is "Fraud Alarm Transaction-ID: " followed by the id as printed ("null" for a null id). |
| Notification.AlertIgnoresVerdictFlag | src/main/java/com/fraud/service/SnsNotificationService.java:28-48 | The alert does not depend on the verdict flag, so a non-fraudulent verdict is formatted the same way. |
| Notification.SnsNotificationService.SendFraudAlert | src/main/java/com/fraud/service/SnsNotificationService.java:28-53 | Exactly one publish attempt is recorded, carrying `AlertRequest` for the configured topic. A failed publish changes nothing else and is not retried. |
| Consumer.SqsConsumerService.ConsumeTransactions | src/main/java/com/fraud/service/SqsConsumerService.java:47-96 | The calls of one cycle are exactly `CycleTrace`: the receive, then each message's calls in batch order. The publish attempts are exactly `CycleAlerts`. |
| Consumer.SqsConsumerService.ConsumeBatch | src/main/java/com/fraud/service/SqsConsumerService.java:64-91 | The loop appends each message's calls and alerts, in batch order. |
| Consumer.SqsConsumerService.ConsumeMessage | src/main/java/com/fraud/service/SqsConsumerService.java:65-90 | One message's calls are decode, detect, delete, notify, ending early at a decode or delete failure. |
| Consumer.ReceiveFailure | src/main/java/com/fraud/service/SqsConsumerService.java:93-95 | A receive that throws ends the cycle after the receive request, with no alert. |
| Consumer.EmptyBatch | src/main/java/com/fraud/service/SqsConsumerService.java:58-61 | An empty batch makes no call after the receive request (configured URL and maximum, 20-second wait) and causes no alert. |
| Consumer.UndecodableMessage | src/main/java/com/fraud/service/SqsConsumerService.java:66 | A body the decoder rejects is not evaluated, deleted or notified, and causes no alert. |
| Consumer.DecodedMessage | src/main/java/com/fraud/service/SqsConsumerService.java:66-83 | A decoded message is evaluated, then deleted with its own receipt handle. When the delete succeeds its verdict is notified, and otherwise nothing follows. |
| Consumer.DecodedVerdictNotified | src/main/java/com/fraud/service/SqsConsumerService.java:73-83 | For every configuration, a decoded message whose delete succeeded has exactly its verdict handed to the alert service, whatever `isFraudulent` says. |
| Consumer.NonFraudulentVerdictNotified | src/main/java/com/fraud/service/SqsConsumerService.java:73-83 | A witness: a verdict that is not fraudulent is still handed to the alert service. |
| Consumer.BatchDetects | src/main/java/com/fraud/service/SqsConsumerService.java:66-73 | The rule engine sees exactly the decoded transactions, in batch order. |
| Consumer.BatchDeletes | src/main/java/com/fraud/service/SqsConsumerService.java:77-81 | Deletes go to the configured queue, one per decodable message, with its own receipt handle, in batch order, and nothing else is deleted. |
| Consumer.BatchNotifies | src/main/java/com/fraud/service/SqsConsumerService.java:83 | The alert service gets the verdict of exactly the decoded messages whose delete succeeded, in batch order. |
| Consumer.MessageAlertsFollow | src/main/java/com/fraud/service/SqsConsumerService.java:83 | One message's publish attempts carry the alert requests of the verdicts it notified. |
| Consumer.AlertsFollowNotifications | src/main/java/com/fraud/service/SqsConsumerService.java:83 | Every notified verdict becomes exactly one publish request to the topic, in order: none is dropped, added or retried. |
| Consumer.BatchTraceAt | src/main/java/com/fraud/service/SqsConsumerService.java:64-91 | Each message's calls are contiguous, between those of the messages before and after it. |
| Consumer.OneMessageChanged | src/main/java/com/fraud/service/SqsConsumerService.java:86-90 | Changing one message, or its transports' answers, changes only that message's calls. |
| Consumer.MixedBatch | src/main/java/com/fraud/service/SqsConsumerService.java:64-91 | In a batch of a malformed message and a well-formed one, only the well-formed one is deleted and notified. |

## Left out

- The AWS SDK clients are left out. The queue's answer to receive, and each delete's and publish's success, are inputs. Only the request fields the code sets are modelled.
- Jackson's JSON decoding is a function parameter from body to optional transaction. Which payloads it accepts is not modelled.
- Logging, Spring's scheduling, `@PostConstruct` ordering and dependency injection are left out. `Init` is an ordinary method the caller runs.
- Cycles running concurrently are left out. A cycle handles its messages sequentially, as the code does.
- `LocalDate.now()` is not modelled. The detection date is a parameter, given as the string the verdict prints. One date serves the whole cycle, whereas Java reads the clock once per `detectFraud` call (FraudDetectionService.java:99). A cycle that crosses midnight can therefore stamp two dates in Java, but only one in the model.
- `%.2f` is modelled for a locale whose decimal separator is '.' and whose digits are ASCII. `String.format` (FraudDetectionService.java:74) uses the JVM's default locale, which under a German locale, for example, prints "15000,00".
- `double` arithmetic is not modelled. Amounts and the threshold are exact reals. `%.2f` is applied to that real, so the binary rounding of a double is absent.
- `Transaction.transactionTime` and `merchantId` are carried but never read by the core. The date is kept as its printed form.
- FraudDetectionService's injected `snsNotificationService` field is never used by the code and is not modelled.
- FraudDetectionApplication (bootstrap) is not part of this model.
- FraudDetection.FraudDetectionService.DetectFraud: before `Init` runs, the Java lists are null and `detectFraud` would throw. The model's constructor starts them empty instead.
- Consumer.SqsConsumerService.ConsumeMessage: only two exceptions are modelled, a decode failure and a failed delete. The message's own catch swallows both. `detectFraud` cannot throw in the model, and `sendFraudAlert` swallows its own failure.

Two behaviours of the code are worth stating plainly:

- The consumer calls `sendFraudAlert` for every decoded and deleted message, fraudulent or not (SqsConsumerService.java:83). Nothing in the consumer reads `isFraudulent`. See `Consumer.DecodedVerdictNotified` and `Consumer.NonFraudulentVerdictNotified`.
- The location guard is `isBlank()` (`Character.isWhitespace`), and the entries are searched for in the untrimmed location (FraudDetectionService.java:117-121).
