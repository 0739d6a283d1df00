/**
 * The records that flow through the pipeline. They carry no behaviour.
 * String fields a JSON payload may leave out are Java references and may
 * be null (JString); `amount` is a primitive double, read here as the exact
 * decimal it prints as.
 */
module Model {
  import opened JavaText

  /** One inbound transaction event, decoded from a queue message body. */
  datatype Transaction = Transaction(
    transactionId: JString,
    accountId: JString,
    amount: real,
    location: JString,
    merchantId: JString,
    transactionTime: JString)

  /** Why a rule fired; each constructor stands for one rule's reason sentence. */
  datatype Reason =
    | AmountReason(amount: real, threshold: real)
    | AccountReason(accountId: string)
    | LocationReason(location: string)

  /** The verdict on one transaction. `detectTime` is the rendering of the
      evaluation date, taken as given. */
  datatype FraudResult = FraudResult(
    transactionId: JString,
    isFraudulent: bool,
    reasons: seq<Reason>,
    detectTime: string)
}
