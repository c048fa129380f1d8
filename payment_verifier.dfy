/** Classification of a purchase's payment from what the block explorer
    reports for its receiving address: the balance in satoshis and the
    address's transaction list, newest first. The two explorer replies are
    inputs; a reply that failed carries the explorer client's error message. */
module PaymentVerifier {
  import opened Common
  import Constants

  const SATOSHIS_PER_DASH: nat := 100000000

  /** One entry of the explorer's `txs` list. */
  datatype Tx = Tx(txid: string, confirmations: Option<int>, blockHeight: Option<int>, time: Option<int>)

  /** The verifier's answer; every alternative but Verified has `verified: false`. */
  datatype Verification =
    | AmountMismatch(expected: real, received: real, difference: real)
    | NoPayment(expected: real, received: real)
    | NoTransactions
    | InsufficientConfirmations(confirmations: int, required: int, txid: string, amount: real)
    | Verified(txid: string, amount: real, confirmations: int, blockHeight: Option<int>, timestamp: Option<int>)
  {
    /** The `reason` field of the answer; a verified answer has none. */
    function Reason(): Option<string> {
      match this
      case AmountMismatch(_, _, _) => Some("amount_mismatch")
      case NoPayment(_, _) => Some("no_payment")
      case NoTransactions => Some("no_transactions")
      case InsufficientConfirmations(_, _, _, _) => Some("insufficient_confirmations")
      case Verified(_, _, _, _, _) => None
    }
  }

  /** The states shown to the customer. */
  datatype UserStatus = Confirmed | Pending | AwaitingPayment | AmountIncorrect | Unknown

  /** A satoshi balance in whole DASH. */
  function ToDash(satoshis: int): real {
    satoshis as real / SATOSHIS_PER_DASH as real
  }

  function Abs(x: real): real {
    if x < 0.0 then -x else x
  }

  /** The received amount is acceptable: it differs from the expected one by
      at most AMOUNT_TOLERANCE of the expected amount. */
  predicate WithinTolerance(received: real, expected: real) {
    Abs(received - expected) <= expected * Constants.AMOUNT_TOLERANCE
  }

  /** `tx.confirmations || 0` */
  function ConfirmationsOf(tx: Tx): int {
    tx.confirmations.GetOr(0)
  }

  /** The transaction list holds at least one entry. */
  predicate HasTxs(txs: Option<seq<Tx>>) {
    txs.Some? && |txs.value| > 0
  }

  /** `verifyPayment(address, expectedAmount)`, given the explorer's balance
      reply and transaction-list reply for the address. The checks run in a
      fixed order: amount, zero balance, transaction list, confirmations. */
  function VerifyPayment(balance: Result<int>, txs: Result<Option<seq<Tx>>>, expected: real, minConfirmations: int)
    : (r: Result<Verification>)
    // a failed fetch is re-thrown with a prefix, never turned into a reason
    ensures r.Failure? <==>
      balance.Failure? ||
      (WithinTolerance(ToDash(balance.value), expected) && balance.value != 0 && txs.Failure?)
    ensures r.Failure? ==>
      r.error == "Payment verification failed: " + (if balance.Failure? then balance.error else txs.error)
    // the amount check comes first
    ensures (r.Success? && r.value.AmountMismatch?) <==>
      balance.Success? && !WithinTolerance(ToDash(balance.value), expected)
    ensures r.Success? && r.value.AmountMismatch? ==>
      r.value == AmountMismatch(expected, ToDash(balance.value), Abs(ToDash(balance.value) - expected))
    ensures (r.Success? && r.value.NoPayment?) <==>
      balance.Success? && WithinTolerance(ToDash(balance.value), expected) && balance.value == 0
    // the transaction list is consulted only after both amount checks pass
    ensures (r.Success? && r.value.NoTransactions?) <==>
      balance.Success? && WithinTolerance(ToDash(balance.value), expected) && balance.value != 0 &&
      txs.Success? && !HasTxs(txs.value)
    // only the newest transaction is examined
    ensures (r.Success? && r.value.InsufficientConfirmations?) <==>
      balance.Success? && WithinTolerance(ToDash(balance.value), expected) && balance.value != 0 &&
      txs.Success? && HasTxs(txs.value) && ConfirmationsOf(txs.value.value[0]) < minConfirmations
    ensures (r.Success? && r.value.Verified?) <==>
      balance.Success? && WithinTolerance(ToDash(balance.value), expected) && balance.value != 0 &&
      txs.Success? && HasTxs(txs.value) && ConfirmationsOf(txs.value.value[0]) >= minConfirmations
    ensures r.Success? && (r.value.Verified? || r.value.InsufficientConfirmations?) ==>
      var tx := txs.value.value[0];
      r.value.txid == tx.txid && r.value.amount == ToDash(balance.value) &&
      r.value.confirmations == ConfirmationsOf(tx)
    ensures r.Success? && r.value.Verified? ==>
      var tx := txs.value.value[0];
      r.value.blockHeight == tx.blockHeight && r.value.timestamp == tx.time
    ensures r.Success? && r.value.InsufficientConfirmations? ==> r.value.required == minConfirmations
  {
    if balance.Failure? then Failure("Payment verification failed: " + balance.error)
    else
      var received := ToDash(balance.value);
      var difference := Abs(received - expected);
      if difference > expected * Constants.AMOUNT_TOLERANCE then
        Success(AmountMismatch(expected, received, difference))
      else if received == 0.0 then
        Success(NoPayment(expected, 0.0))
      else if txs.Failure? then Failure("Payment verification failed: " + txs.error)
      else if !HasTxs(txs.value) then Success(NoTransactions)
      else
        var latest := txs.value.value[0];
        var confirmations := ConfirmationsOf(latest);
        if confirmations < minConfirmations then
          Success(InsufficientConfirmations(confirmations, minConfirmations, latest.txid, received))
        else
          Success(Verified(latest.txid, received, confirmations, latest.blockHeight, latest.time))
  }

  /** `getPaymentStatus(address, expectedAmount)`: the customer-facing state
      for the same explorer replies; a failed verification propagates. */
  function GetPaymentStatus(balance: Result<int>, txs: Result<Option<seq<Tx>>>, expected: real, minConfirmations: int)
    : (r: Result<UserStatus>)
    ensures var v := VerifyPayment(balance, txs, expected, minConfirmations);
      && (r.Failure? <==> v.Failure?)
      && (r.Failure? ==> r.error == v.error)
      && (r == Success(Confirmed) <==> v.Success? && v.value.Verified?)
      && (r == Success(Pending) <==> v.Success? && v.value.InsufficientConfirmations?)
      && (r == Success(AwaitingPayment) <==> v.Success? && v.value.NoPayment?)
      && (r == Success(AmountIncorrect) <==> v.Success? && v.value.AmountMismatch?)
      && (r == Success(Unknown) <==> v.Success? && v.value.NoTransactions?)
  {
    var v := VerifyPayment(balance, txs, expected, minConfirmations);
    if v.Failure? then Failure(v.error)
    else if v.value.Verified? then Success(Confirmed)
    else if v.value.Reason() == Some("insufficient_confirmations") then Success(Pending)
    else if v.value.Reason() == Some("no_payment") then Success(AwaitingPayment)
    else if v.value.Reason() == Some("amount_mismatch") then Success(AmountIncorrect)
    else Success(Unknown)
  }

  /** `no_payment` needs an expected amount of exactly zero. */
  lemma NoPaymentOnlyWhenNothingExpected(balance: Result<int>, txs: Result<Option<seq<Tx>>>, expected: real, minConfirmations: int)
    requires VerifyPayment(balance, txs, expected, minConfirmations).Success?
    requires VerifyPayment(balance, txs, expected, minConfirmations).value.NoPayment?
    ensures expected == 0.0 && balance == Success(0)
  {
  }

  /** For a positive expected amount an empty address is an amount mismatch,
      so the customer never sees `awaiting_payment`. */
  lemma EmptyAddressIsMismatch(txs: Result<Option<seq<Tx>>>, expected: real, minConfirmations: int)
    requires expected > 0.0
    ensures VerifyPayment(Success(0), txs, expected, minConfirmations)
         == Success(AmountMismatch(expected, 0.0, expected))
    ensures GetPaymentStatus(Success(0), txs, expected, minConfirmations) == Success(AmountIncorrect)
  {
  }

  lemma AwaitingPaymentUnreachable(balance: Result<int>, txs: Result<Option<seq<Tx>>>, expected: real, minConfirmations: int)
    requires expected > 0.0
    ensures GetPaymentStatus(balance, txs, expected, minConfirmations) != Success(AwaitingPayment)
  {
  }

  /** A negative expected amount can never be met. */
  lemma NegativeExpectedIsMismatch(satoshis: int, txs: Result<Option<seq<Tx>>>, expected: real, minConfirmations: int)
    requires expected < 0.0
    ensures var r := VerifyPayment(Success(satoshis), txs, expected, minConfirmations);
      r.Success? && r.value.AmountMismatch?
  {
  }

  /** When the amount checks decide the answer, the transaction list plays no part. */
  lemma AmountDecidesFirst(balance: Result<int>, txs: Result<Option<seq<Tx>>>, other: Result<Option<seq<Tx>>>,
                           expected: real, minConfirmations: int)
    requires balance.Failure? || !WithinTolerance(ToDash(balance.value), expected) || balance.value == 0
    ensures VerifyPayment(balance, txs, expected, minConfirmations)
         == VerifyPayment(balance, other, expected, minConfirmations)
  {
  }

  /** 1.0005 DASH received for 1 DASH expected is within the 0.1% tolerance:
      with one confirmation it waits, with five it is verified. */
  lemma ToleranceExample(txid: string)
    ensures var one := Success(Some([Tx(txid, Some(1), None, None)]));
      VerifyPayment(Success(100050000), one, 1.0, 3)
      == Success(InsufficientConfirmations(1, 3, txid, 1.0005))
    ensures var five := Success(Some([Tx(txid, Some(5), Some(7), Some(9))]));
      VerifyPayment(Success(100050000), five, 1.0, 3)
      == Success(Verified(txid, 1.0005, 5, Some(7), Some(9)))
  {
  }
}
