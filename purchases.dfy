/** The purchase lifecycle kept in the `purchases` table, together with the
    address-generation log and the security-alert table, and the four API
    routes that move a purchase through it: create, cancel, verify-payment
    and the delivery cron. Everything a route learns from outside (the
    signed-in user, the clock, price sources, the block explorer, the key
    derivation, e-mail and database failures) is a parameter. */
module Purchases {
  import opened Common
  import Constants
  import PaymentVerifier
  import PriceOracle
  import Wallet

  datatype PaymentStatus = Pending | Confirmed | Cancelled | Expired

  /** `delivery_status`: 'pending' until the licence e-mail went out, then 'sent'. */
  datatype DeliveryStatus = Undelivered | Sent

  datatype User = User(id: string, email: string)

  /** One row of `purchases`; times are milliseconds since the epoch. */
  datatype Purchase = Purchase(
    userId: string,
    email: string,
    planName: string,
    planPriceUsd: nat,
    dashAddress: string,
    dashAmount: real,
    dashPriceUsd: real,
    paymentStatus: PaymentStatus,
    deliveryStatus: DeliveryStatus,
    expiresAt: int,
    updatedAt: int,
    transactionId: Option<string>,
    confirmations: Option<int>,
    deliveredAt: Option<int>)

  /** One row of `address_generation_logs`. */
  datatype LogRow = LogRow(purchaseId: nat, address: string, derivationIndex: int,
                           userId: string, ip: string, userAgent: string)

  /** One row of `security_alerts`. */
  datatype Alert = Alert(alertType: string, severity: string, purchaseId: nat, error: string)

  const HOUR_MS: int := 3600000
  const DAY_MS: int := 24 * HOUR_MS

  // ---------------------------------------------------------------------
  // The one-outstanding-purchase rule

  /** A purchase that blocks a new one: pending or confirmed, not yet delivered. */
  predicate Outstanding(p: Purchase) {
    (p.paymentStatus == Pending || p.paymentStatus == Confirmed) && p.deliveryStatus == Undelivered
  }

  predicate HasOutstandingIn(m: map<nat, Purchase>, userId: string) {
    exists id :: id in m && m[id].userId == userId && Outstanding(m[id])
  }

  /** No user has two outstanding purchases. */
  predicate AtMostOneOutstandingIn(m: map<nat, Purchase>) {
    forall a, b :: a in m && b in m && m[a].userId == m[b].userId && Outstanding(m[a]) && Outstanding(m[b]) ==> a == b
  }

  /** Adding an outstanding purchase for a user who has none keeps the rule,
      and the user then has one. */
  lemma InsertKeepsLimit(m: map<nat, Purchase>, id: nat, p: Purchase)
    requires AtMostOneOutstandingIn(m) && id !in m && !HasOutstandingIn(m, p.userId)
    ensures AtMostOneOutstandingIn(m[id := p])
    ensures Outstanding(p) ==> HasOutstandingIn(m[id := p], p.userId)
  {
    var n := m[id := p];
    forall a, b | a in n && b in n && n[a].userId == n[b].userId && Outstanding(n[a]) && Outstanding(n[b])
      ensures a == b
    {
      if a != id && b != id {
        assert n[a] == m[a] && n[b] == m[b];
      }
    }
    if Outstanding(p) {
      assert n[id].userId == p.userId && Outstanding(n[id]);
    }
  }

  /** Replacing a row by one that is not outstanding keeps the rule. */
  lemma ReleaseKeepsLimit(m: map<nat, Purchase>, id: nat, p: Purchase)
    requires AtMostOneOutstandingIn(m) && id in m && !Outstanding(p)
    ensures AtMostOneOutstandingIn(m[id := p])
  {
    var n := m[id := p];
    forall a, b | a in n && b in n && n[a].userId == n[b].userId && Outstanding(n[a]) && Outstanding(n[b])
      ensures a == b
    {
      assert a != id && b != id;
      assert n[a] == m[a] && n[b] == m[b];
    }
  }

  /** Releasing a user's outstanding purchase leaves that user with none. */
  lemma ReleaseClearsUser(m: map<nat, Purchase>, id: nat, p: Purchase)
    requires AtMostOneOutstandingIn(m) && id in m && Outstanding(m[id])
    requires !Outstanding(p) && p.userId == m[id].userId
    ensures !HasOutstandingIn(m[id := p], p.userId)
  {
    var n := m[id := p];
    forall k | k in n && n[k].userId == p.userId
      ensures !Outstanding(n[k])
    {
      if k != id {
        assert n[k] == m[k];
      }
    }
  }

  /** Rewriting an outstanding row of the same user into another
      outstanding one keeps the rule. */
  lemma UpdateOutstandingKeepsLimit(m: map<nat, Purchase>, id: nat, p: Purchase)
    requires AtMostOneOutstandingIn(m) && id in m && Outstanding(m[id]) && p.userId == m[id].userId
    ensures AtMostOneOutstandingIn(m[id := p])
  {
    var n := m[id := p];
    forall a, b | a in n && b in n && n[a].userId == n[b].userId && Outstanding(n[a]) && Outstanding(n[b])
      ensures a == b
    {
      if a != id && b != id {
        assert n[a] == m[a] && n[b] == m[b];
      }
    }
  }

  // ---------------------------------------------------------------------
  // Row transitions

  /** `plan` is present, non-empty and an own key of the plan table. */
  predicate ValidPlan(plan: Option<string>) {
    plan.Some? && plan.value != "" && plan.value in Constants.PLAN_PRICES
  }

  /** The signed-in owner asks for an existing purchase that is still
      pending and undelivered. */
  predicate CanCancel(m: map<nat, Purchase>, user: Option<User>, purchaseId: Option<nat>, fetchFails: bool) {
    && user.Some? && purchaseId.Some? && !fetchFails && purchaseId.value in m
    && m[purchaseId.value].userId == user.value.id
    && m[purchaseId.value].paymentStatus == Pending
    && m[purchaseId.value].deliveryStatus == Undelivered
  }

  /** The customer's cancellation: only the payment status and `updated_at` change. */
  function CancelRow(p: Purchase, now: int): Purchase {
    p.(paymentStatus := Cancelled, updatedAt := now)
  }

  /** A verified payment: confirmed, with the transaction and its confirmations. */
  function ConfirmRow(p: Purchase, txid: string, confirmations: int, now: int): Purchase {
    p.(paymentStatus := Confirmed, transactionId := Some(txid), confirmations := Some(confirmations), updatedAt := now)
  }

  /** A purchase past its deadline; `updated_at` is left as it was. */
  function ExpireRow(p: Purchase): Purchase {
    p.(paymentStatus := Expired)
  }

  /** The licence was delivered. */
  function MarkSent(p: Purchase, now: int): Purchase {
    p.(deliveryStatus := Sent, deliveredAt := Some(now))
  }

  /** Cancelling is allowed only for a pending, undelivered purchase, and
      what comes out no longer counts against the limit. */
  lemma CancelReleases(p: Purchase, now: int)
    requires p.paymentStatus == Pending && p.deliveryStatus == Undelivered
    ensures Outstanding(p) && !Outstanding(CancelRow(p, now))
    ensures CancelRow(p, now).userId == p.userId
  {
  }

  /** A late payment for a cancelled purchase is still confirmed by the
      verify-payment route, which can leave a user with two outstanding
      purchases: the rule is kept by the create route only. */
  lemma LateConfirmationBreaksLimit(u: User)
    ensures var cancelled := Purchase(u.id, u.email, "Bot BNC", 150, "a", 1.0, 150.0, Cancelled,
                                      Undelivered, 10, 0, None, None, None);
      var pending := cancelled.(paymentStatus := Pending, dashAddress := "b");
      var m := map[1 := cancelled, 2 := pending];
      AtMostOneOutstandingIn(m) && !AtMostOneOutstandingIn(m[1 := ConfirmRow(cancelled, "t", 3, 5)])
  {
    var cancelled := Purchase(u.id, u.email, "Bot BNC", 150, "a", 1.0, 150.0, Cancelled,
                              Undelivered, 10, 0, None, None, None);
    var pending := cancelled.(paymentStatus := Pending, dashAddress := "b");
    var m := map[1 := cancelled, 2 := pending];
    var n := m[1 := ConfirmRow(cancelled, "t", 3, 5)];
    forall a, b | a in m && b in m && m[a].userId == m[b].userId && Outstanding(m[a]) && Outstanding(m[b])
      ensures a == b
    {
      assert a == 2 && b == 2;
    }
    assert n[1].userId == n[2].userId && Outstanding(n[1]) && Outstanding(n[2]);
  }

  // ---------------------------------------------------------------------
  // The delivery cron's bookkeeping

  /** What happened to one delivery: the customer e-mail, the admin
      notification and the row update, tried in that order. A failed send
      of the admin notification is swallowed by the notifier, so
      `adminEmail` is `Fail` only when the call itself throws (its mail
      client or its `ADMIN_EMAIL` lookup). */
  datatype Attempt = Attempt(customerEmail: Outcome, adminEmail: Outcome, update: Outcome)

  /** The message of the first step that threw, if any; a failed update is
      re-thrown as `Update failed: ...`. */
  function AttemptError(a: Attempt): (e: Option<string>)
    ensures e.None? <==> a.customerEmail == Pass && a.adminEmail == Pass && a.update == Pass
  {
    if a.customerEmail.Fail? then Some(a.customerEmail.error)
    else if a.adminEmail.Fail? then Some(a.adminEmail.error)
    else if a.update.Fail? then Some("Update failed: " + a.update.error)
    else None
  }

  datatype DeliveryError = DeliveryError(purchaseId: nat, error: string)

  /** A purchase the cron picks up: confirmed, undelivered, and last updated
      at least 24 hours before now. */
  predicate Eligible(p: Purchase, now: int) {
    p.paymentStatus == Confirmed && p.deliveryStatus == Undelivered && p.updatedAt <= now - DAY_MS
  }

  /** The cron query's answer: every eligible purchase exactly once. */
  predicate IsSelection(batch: seq<nat>, m: map<nat, Purchase>, now: int) {
    && (forall i :: 0 <= i < |batch| ==> batch[i] in m && Eligible(m[batch[i]], now))
    && (forall i, j :: 0 <= i < j < |batch| ==> batch[i] != batch[j])
    && (forall id :: id in m && Eligible(m[id], now) ==> id in batch)
  }

  /** The error entries of a run over ids, in order. */
  function Failures(ids: seq<nat>, attempt: nat -> Attempt): seq<DeliveryError>
  {
    if ids == [] then []
    else
      var last := ids[|ids| - 1];
      var e := AttemptError(attempt(last));
      Failures(ids[..|ids| - 1], attempt) + (if e.Some? then [DeliveryError(last, e.value)] else [])
  }

  /** The `security_alerts` row written for a failed delivery. */
  function FailureAlert(e: DeliveryError): Alert {
    Alert("delivery_failed", "HIGH", e.purchaseId, e.error)
  }

  /** The HIGH-severity alert logged for each failed delivery. */
  function AlertsFor(errors: seq<DeliveryError>): (alerts: seq<Alert>)
    ensures |alerts| == |errors|
    ensures forall k :: 0 <= k < |errors| ==>
      alerts[k] == FailureAlert(errors[k])
  {
    if errors == [] then []
    else AlertsFor(errors[..|errors| - 1])
         + [FailureAlert(errors[|errors| - 1])]
  }

  /** The purchases table after a run over ids: each id whose attempt
      succeeded is marked sent (an update of a missing row changes nothing). */
  function Deliver(m: map<nat, Purchase>, ids: seq<nat>, attempt: nat -> Attempt, now: int): (n: map<nat, Purchase>)
    ensures n.Keys == m.Keys
  {
    if ids == [] then m
    else
      var prev := Deliver(m, ids[..|ids| - 1], attempt, now);
      var last := ids[|ids| - 1];
      if AttemptError(attempt(last)).None? && last in prev then prev[last := MarkSent(prev[last], now)] else prev
  }

  /** One more purchase of the batch: the table and the error list each
      take one step. */
  lemma DeliveryStep(m: map<nat, Purchase>, ids: seq<nat>, k: nat, attempt: nat -> Attempt, now: int)
    requires k < |ids|
    ensures var prev := Deliver(m, ids[..k], attempt, now);
      Deliver(m, ids[..k + 1], attempt, now)
      == if AttemptError(attempt(ids[k])).None? && ids[k] in prev then prev[ids[k] := MarkSent(prev[ids[k]], now)] else prev
    ensures var e := AttemptError(attempt(ids[k]));
      Failures(ids[..k + 1], attempt)
      == Failures(ids[..k], attempt) + (if e.Some? then [DeliveryError(ids[k], e.value)] else [])
  {
    assert ids[..k + 1][..k] == ids[..k];
  }

  lemma AlertsStep(errors: seq<DeliveryError>, e: DeliveryError)
    ensures AlertsFor(errors + [e]) == AlertsFor(errors) + [FailureAlert(e)]
  {
    assert (errors + [e])[..|errors|] == errors;
  }

  /** One pass of the cron's loop keeps the table, the error list and the
      alert log equal to the folds over the purchases visited so far. */
  lemma BatchStep(m: map<nat, Purchase>, a0: seq<Alert>, ids: seq<nat>, k: nat, attempt: nat -> Attempt, now: int,
                  errors: seq<DeliveryError>, table: map<nat, Purchase>, alerts: seq<Alert>,
                  e: Option<string>, table': map<nat, Purchase>, alerts': seq<Alert>)
    requires k < |ids|
    requires errors == Failures(ids[..k], attempt)
    requires table == Deliver(m, ids[..k], attempt, now)
    requires alerts == a0 + AlertsFor(errors)
    requires e == AttemptError(attempt(ids[k]))
    requires table' == if e.None? && ids[k] in table then table[ids[k] := MarkSent(table[ids[k]], now)] else table
    requires alerts' == alerts + (if e.Some? then [FailureAlert(DeliveryError(ids[k], e.value))] else [])
    ensures var errors' := errors + (if e.Some? then [DeliveryError(ids[k], e.value)] else []);
      && errors' == Failures(ids[..k + 1], attempt)
      && table' == Deliver(m, ids[..k + 1], attempt, now)
      && alerts' == a0 + AlertsFor(errors')
  {
    DeliveryStep(m, ids, k, attempt, now);
    if e.Some? {
      AlertsStep(errors, DeliveryError(ids[k], e.value));
    }
  }

  /** Each listed purchase is visited once: it is marked sent exactly when
      its attempt succeeded, and every other row is left as it was. */
  lemma {:induction false} DeliverPointwise(m: map<nat, Purchase>, ids: seq<nat>, attempt: nat -> Attempt, now: int, id: nat)
    requires forall i, j :: 0 <= i < j < |ids| ==> ids[i] != ids[j]
    requires id in m
    ensures Deliver(m, ids, attempt, now)[id]
         == if id in ids && AttemptError(attempt(id)).None? then MarkSent(m[id], now) else m[id]
    decreases |ids|
  {
    if ids != [] {
      var init := ids[..|ids| - 1];
      var last := ids[|ids| - 1];
      DeliverPointwise(m, init, attempt, now, id);
      if id == last {
        assert id !in init;
      } else {
        assert id in ids <==> id in init;
      }
    }
  }

  /** Successful and failed deliveries add up to the batch. */
  lemma {:induction false} FailuresBound(ids: seq<nat>, attempt: nat -> Attempt)
    ensures |Failures(ids, attempt)| <= |ids|
    ensures forall k :: 0 <= k < |Failures(ids, attempt)| ==>
      Failures(ids, attempt)[k].purchaseId in ids &&
      AttemptError(attempt(Failures(ids, attempt)[k].purchaseId)).Some?
    decreases |ids|
  {
    if ids != [] {
      FailuresBound(ids[..|ids| - 1], attempt);
    }
  }

  /** Delivering keeps the one-outstanding rule: a sent purchase no longer counts. */
  lemma {:induction false} DeliverKeepsLimit(m: map<nat, Purchase>, ids: seq<nat>, attempt: nat -> Attempt, now: int)
    requires AtMostOneOutstandingIn(m)
    ensures AtMostOneOutstandingIn(Deliver(m, ids, attempt, now))
    decreases |ids|
  {
    if ids != [] {
      var prev := Deliver(m, ids[..|ids| - 1], attempt, now);
      var last := ids[|ids| - 1];
      DeliverKeepsLimit(m, ids[..|ids| - 1], attempt, now);
      if AttemptError(attempt(last)).None? && last in prev {
        ReleaseKeepsLimit(prev, last, MarkSent(prev[last], now));
      }
    }
  }

  // ---------------------------------------------------------------------
  // The cron secret

  /** The check as written: the header must equal `Bearer ` followed by the
      secret as a template literal renders it, so an unset secret reads
      `undefined`. */
  predicate CronAuthorizedAsWritten(authorization: Option<string>, env: map<string, string>) {
    authorization == Some("Bearer " + (if "CRON_SECRET" in env then env["CRON_SECRET"] else "undefined"))
  }

  /** With no secret configured, the literal header `Bearer undefined` is let in. */
  lemma UnsetSecretAdmitsLiteral()
    ensures CronAuthorizedAsWritten(Some("Bearer undefined"), map[])
    ensures !CronAuthorized(Some("Bearer undefined"), map[])
  {
    assert "Bearer " + "undefined" == "Bearer undefined";
  }

  /** The intended check: a configured, non-empty secret, presented as a
      bearer token. */
  predicate CronAuthorized(authorization: Option<string>, env: map<string, string>) {
    "CRON_SECRET" in env && env["CRON_SECRET"] != "" &&
    authorization == Some("Bearer " + env["CRON_SECRET"])
  }

  /** Without a configured secret no header is accepted; with one, the
      corrected check agrees with the written one. */
  lemma CronAuthorizedIntended(authorization: Option<string>, env: map<string, string>)
    ensures ("CRON_SECRET" !in env || env["CRON_SECRET"] == "") ==> !CronAuthorized(authorization, env)
    ensures ("CRON_SECRET" in env && env["CRON_SECRET"] != "") ==>
      (CronAuthorized(authorization, env) <==> CronAuthorizedAsWritten(authorization, env))
    ensures CronAuthorized(authorization, env) ==> CronAuthorizedAsWritten(authorization, env)
  {
  }

  // ---------------------------------------------------------------------
  // Route responses

  datatype CreateResponse =
    | CreateUnauthorized
    | InvalidPlan
    | TooManyPending
    | Created(id: nat, plan: string, dashAddress: string, dashAmount: real, dashPriceUsd: real,
              expiresAt: int, priceUpdateInterval: int)
    | CreateFailed
  {
    function Status(): nat {
      match this
      case CreateUnauthorized => 401
      case InvalidPlan => 400
      case TooManyPending => 429
      case Created(_, _, _, _, _, _, _) => 200
      case CreateFailed => 500
    }
  }

  /** The database calls of the create route that can fail. The audit-log
      insert is not checked by the route, so its failure is silent. */
  datatype CreateFaults = CreateFaults(pendingQueryFails: bool, indexQueryFails: bool,
                                       insertFails: bool, logInsertSucceeds: bool)

  /** `error.message || fallback` in a route's catch block. */
  function ThrownMessage(message: string, fallback: string): string {
    if message != "" then message else fallback
  }

  datatype CancelResponse =
    | CancelUnauthorized
    | CancelMissingId
    | CancelNotFound
    | NotCancellable
    | CancelledPurchase(purchase: Purchase)
    | CancelFailed(message: string)
  {
    function Status(): nat {
      match this
      case CancelUnauthorized => 401
      case CancelMissingId => 400
      case CancelNotFound => 404
      case NotCancellable => 400
      case CancelledPurchase(_) => 200
      case CancelFailed(_) => 500
    }
  }

  datatype VerifyResponse =
    | VerifyMissingId
    | VerifyNotFound
    | AlreadyConfirmed(recorded: Option<int>)
    | PurchaseExpired
    | PaymentConfirmed(txid: string, confirmations: int, amount: real)
    | PaymentNotConfirmed(reason: string, confirmations: int, detail: PaymentVerifier.Verification)
    | VerifyFailed
  {
    function Status(): nat {
      match this
      case VerifyMissingId => 400
      case VerifyNotFound => 404
      case VerifyFailed => 500
      case _ => 200
    }
  }

  datatype CronResponse =
    | CronUnauthorized
    | CronFailed(message: string)
    | CronSummary(processed: nat, successful: nat, failed: nat, errors: seq<DeliveryError>)
  {
    function Status(): nat {
      match this
      case CronUnauthorized => 401
      case CronFailed(_) => 500
      case CronSummary(_, _, _, _) => 200
    }
  }

  /** The audit log's client address: `x-forwarded-for`, else `x-real-ip`, else `unknown`. */
  function AuditIp(headers: map<string, string>): string {
    ValueOr(headers, "x-forwarded-for", ValueOr(headers, "x-real-ip", "unknown"))
  }

  function LogIndices(log: seq<LogRow>): (s: seq<int>)
    ensures |s| == |log| && forall k :: 0 <= k < |log| ==> s[k] == log[k].derivationIndex
  {
    seq(|log|, k requires 0 <= k < |log| => log[k].derivationIndex)
  }

  /** The confirmations reported for an unverified payment (`|| 0`). */
  function ReportedConfirmations(v: PaymentVerifier.Verification): int {
    if v.InsufficientConfirmations? then v.confirmations else 0
  }

  /** The row the create route inserts: pending on both counts, at the plan's price. */
  function NewPurchase(user: User, plan: string, address: string, dash: real, dashPriceUsd: real,
                       expiresAt: int, now: int): Purchase
    requires plan in Constants.PLAN_PRICES
  {
    Purchase(user.id, user.email, plan, Constants.PLAN_PRICES[plan].usd, address, dash, dashPriceUsd,
             Pending, Undelivered, expiresAt, now, None, None, None)
  }

  /** The audit-log row written after the purchase. */
  function AuditRow(id: nat, address: string, index: int, userId: string, headers: map<string, string>): LogRow {
    LogRow(id, address, index, userId, AuditIp(headers), ValueOr(headers, "user-agent", "unknown"))
  }

  /** The derivation index the wallet hands out for this log. */
  function NextIndex(log: seq<LogRow>): int {
    Wallet.NextAddressIndex(Success(LogIndices(log))).value
  }

  // ---------------------------------------------------------------------
  // The tables and the routes

  class Store {
    var purchases: map<nat, Purchase>
    var log: seq<LogRow>
    var alerts: seq<Alert>
    /** The id the database gives the next inserted purchase. */
    var nextId: nat

    predicate Valid()
      reads this
    {
      forall id :: id in purchases ==> id < nextId
    }

    predicate HasOutstanding(userId: string)
      reads this
    {
      HasOutstandingIn(purchases, userId)
    }

    predicate AtMostOneOutstanding()
      reads this
    {
      AtMostOneOutstandingIn(purchases)
    }

    constructor()
      ensures purchases == map[] && log == [] && alerts == [] && nextId == 1
      ensures Valid() && AtMostOneOutstanding()
    {
      purchases := map[];
      log := [];
      alerts := [];
      nextId := 1;
    }

    /** The create route's two writes: the purchase under a fresh id, then
        its audit-log row, whose insert is not checked and may be lost. */
    method Insert(row: Purchase, index: int, headers: map<string, string>, logInsertSucceeds: bool)
      returns (id: nat)
      requires Valid()
      modifies this`purchases, this`log, this`nextId
      ensures Valid()
      ensures id == old(nextId) && id !in old(purchases) && nextId == old(nextId) + 1
      ensures purchases == old(purchases)[id := row]
      ensures log == old(log) + (if logInsertSucceeds then [AuditRow(id, row.dashAddress, index, row.userId, headers)] else [])
      ensures Outstanding(row) ==> HasOutstanding(row.userId)
      ensures old(AtMostOneOutstanding()) && !old(HasOutstanding(row.userId)) ==> AtMostOneOutstanding()
    {
      id := nextId;
      if AtMostOneOutstanding() && !HasOutstanding(row.userId) {
        InsertKeepsLimit(purchases, id, row);
      }
      purchases := purchases[id := row];
      if Outstanding(row) {
        assert purchases[id] == row;
      }
      nextId := nextId + 1;
      if logInsertSucceeds {
        log := log + [AuditRow(id, row.dashAddress, index, row.userId, headers)];
      }
    }

    /** `POST /api/purchase/create`: authenticate, validate the plan, refuse
        a second outstanding purchase, quote, allocate the next derivation
        index and its address, insert the purchase, then its audit-log row.
        The confirmation e-mail's outcome does not affect the response. */
    method Create(user: Option<User>, plan: Option<string>, headers: map<string, string>, now: int,
                  config: Constants.Config, rs: PriceOracle.Readings, xpub: Result<string>,
                  derive: (string, string, Wallet.Network) -> Result<string>,
                  db: CreateFaults, confirmationEmail: Outcome)
      returns (r: CreateResponse)
      requires Valid()
      modifies this`purchases, this`log, this`nextId
      ensures Valid()
      ensures r == CreateUnauthorized <==> user.None?
      ensures r == InvalidPlan <==> user.Some? && !ValidPlan(plan)
      ensures r == TooManyPending <==>
        user.Some? && ValidPlan(plan) && !db.pendingQueryFails && old(HasOutstanding(user.value.id))
      ensures r.Created? <==>
        && user.Some? && ValidPlan(plan) && !db.pendingQueryFails && !old(HasOutstanding(user.value.id))
        && PriceOracle.Survivors(rs) != [] && !db.indexQueryFails && !db.insertFails
        && Wallet.GenerateAddress(xpub, NextIndex(old(log)), Wallet.NetworkFor(config.network), derive).Success?
      // nothing is written unless the purchase is created
      ensures !r.Created? ==> purchases == old(purchases) && log == old(log) && nextId == old(nextId)
      ensures r.Created? ==> r.id == old(nextId) && r.id !in old(purchases) && nextId == old(nextId) + 1
      ensures r.Created? ==>
        Wallet.GenerateAddress(xpub, NextIndex(old(log)), Wallet.NetworkFor(config.network), derive) == Success(r.dashAddress)
      ensures r.Created? ==>
        var q := PriceOracle.QuoteAt(Constants.PLAN_PRICES[plan.value].usd as real, PriceOracle.Median(PriceOracle.Survivors(rs)));
        r == Created(r.id, plan.value, r.dashAddress, q.dash, q.dashPriceUsd,
                     now + config.expiryHours * HOUR_MS, config.priceUpdateInterval)
      ensures r.Created? ==>
        purchases == old(purchases)[r.id := NewPurchase(user.value, plan.value, r.dashAddress, r.dashAmount, r.dashPriceUsd, r.expiresAt, now)]
      ensures r.Created? ==>
        log == old(log) + (if db.logInsertSucceeds then [AuditRow(r.id, r.dashAddress, NextIndex(old(log)), user.value.id, headers)] else [])
      ensures r.Created? ==> HasOutstanding(user.value.id)
      ensures old(AtMostOneOutstanding()) ==> AtMostOneOutstanding()
    {
      if user.None? {
        return CreateUnauthorized;
      }
      if !ValidPlan(plan) {
        return InvalidPlan;
      }
      if db.pendingQueryFails {
        return CreateFailed;
      }
      if HasOutstanding(user.value.id) {
        return TooManyPending;
      }
      var pricing := PriceOracle.CalculateDashAmount(Constants.PLAN_PRICES[plan.value].usd as real, rs);
      if pricing.Failure? {
        return CreateFailed;
      }
      r := Open(user.value, plan.value, pricing.value, headers, now, config, xpub, derive, db);
    }

    /** The create route once the plan is quoted: allocate the next index
        and its address, then write the purchase and its audit row. Any
        failure on the way is the generic 500 and writes nothing. */
    method Open(user: User, plan: string, quote: PriceOracle.Quote, headers: map<string, string>, now: int,
                config: Constants.Config, xpub: Result<string>,
                derive: (string, string, Wallet.Network) -> Result<string>, db: CreateFaults)
      returns (r: CreateResponse)
      requires Valid() && plan in Constants.PLAN_PRICES
      modifies this`purchases, this`log, this`nextId
      ensures Valid()
      ensures r.Created? || r == CreateFailed
      ensures r.Created? <==>
        && !db.indexQueryFails && !db.insertFails
        && Wallet.GenerateAddress(xpub, NextIndex(old(log)), Wallet.NetworkFor(config.network), derive).Success?
      ensures !r.Created? ==> purchases == old(purchases) && log == old(log) && nextId == old(nextId)
      ensures r.Created? ==> r.id == old(nextId) && r.id !in old(purchases) && nextId == old(nextId) + 1
      ensures r.Created? ==>
        Wallet.GenerateAddress(xpub, NextIndex(old(log)), Wallet.NetworkFor(config.network), derive) == Success(r.dashAddress)
      ensures r.Created? ==>
        r == Created(r.id, plan, r.dashAddress, quote.dash, quote.dashPriceUsd,
                     now + config.expiryHours * HOUR_MS, config.priceUpdateInterval)
      ensures r.Created? ==>
        purchases == old(purchases)[r.id := NewPurchase(user, plan, r.dashAddress, r.dashAmount, r.dashPriceUsd, r.expiresAt, now)]
      ensures r.Created? ==>
        log == old(log) + (if db.logInsertSucceeds then [AuditRow(r.id, r.dashAddress, NextIndex(old(log)), user.id, headers)] else [])
      ensures r.Created? ==> HasOutstanding(user.id)
      ensures old(AtMostOneOutstanding()) && !old(HasOutstanding(user.id)) ==> AtMostOneOutstanding()
    {
      var query: Result<seq<int>> := if db.indexQueryFails then Failure("query failed") else Success(LogIndices(log));
      var index := Wallet.NextAddressIndex(query);
      if index.Failure? {
        return CreateFailed;
      }
      assert query == Success(LogIndices(log)) && index.value == NextIndex(log);
      var address := Wallet.GenerateAddress(xpub, index.value, Wallet.NetworkFor(config.network), derive);
      if address.Failure? {
        return CreateFailed;
      }
      var expiresAt := now + config.expiryHours * HOUR_MS;
      if db.insertFails {
        return CreateFailed;
      }
      var row := NewPurchase(user, plan, address.value, quote.dash, quote.dashPriceUsd, expiresAt, now);
      var id := Insert(row, index.value, headers, db.logInsertSucceeds);
      r := Created(id, plan, address.value, quote.dash, quote.dashPriceUsd, expiresAt, config.priceUpdateInterval);
    }

    /** `POST /api/purchase/cancel`: the signed-in owner may cancel a
        purchase that is still pending and undelivered, whether or not it
        has expired. `purchaseId` is None for any falsy body value, 0
        included, since the route tests `!purchaseId`. */
    method Cancel(user: Option<User>, purchaseId: Option<nat>, now: int, clientError: Option<string>,
                  fetchFails: bool, updateError: Option<string>)
      returns (r: CancelResponse)
      requires Valid()
      modifies this`purchases
      ensures Valid()
      ensures r == CancelUnauthorized <==> user.None?
      ensures r == CancelMissingId <==> user.Some? && purchaseId.None?
      // the admin client is obtained before the purchase is fetched
      ensures r.CancelFailed? && user.Some? && purchaseId.Some? && clientError.Some? ==>
        r.message == ThrownMessage(clientError.value, "Failed to cancel purchase")
      ensures r == CancelNotFound <==>
        user.Some? && purchaseId.Some? && clientError.None? &&
        (fetchFails || purchaseId.value !in old(purchases) || old(purchases)[purchaseId.value].userId != user.value.id)
      ensures r == NotCancellable <==>
        user.Some? && purchaseId.Some? && clientError.None? && !fetchFails && purchaseId.value in old(purchases) &&
        old(purchases)[purchaseId.value].userId == user.value.id &&
        (old(purchases)[purchaseId.value].paymentStatus != Pending ||
         old(purchases)[purchaseId.value].deliveryStatus != Undelivered)
      ensures r.CancelFailed? <==>
        (user.Some? && purchaseId.Some? && clientError.Some?) ||
        (clientError.None? && CanCancel(old(purchases), user, purchaseId, fetchFails) && updateError.Some?)
      ensures r.CancelledPurchase? <==>
        clientError.None? && CanCancel(old(purchases), user, purchaseId, fetchFails) && updateError.None?
      ensures r.CancelFailed? && clientError.None? ==> r.message == "Failed to cancel purchase: " + updateError.value
      ensures r.CancelledPurchase? ==>
        r.purchase == CancelRow(old(purchases)[purchaseId.value], now) &&
        purchases == old(purchases)[purchaseId.value := r.purchase]
      ensures !r.CancelledPurchase? ==> purchases == old(purchases)
      ensures old(AtMostOneOutstanding()) ==> AtMostOneOutstanding()
      ensures r.CancelledPurchase? && old(AtMostOneOutstanding()) ==> !HasOutstanding(user.value.id)
    {
      if user.None? {
        return CancelUnauthorized;
      }
      if purchaseId.None? {
        return CancelMissingId;
      }
      if clientError.Some? {
        return CancelFailed(ThrownMessage(clientError.value, "Failed to cancel purchase"));
      }
      var id := purchaseId.value;
      if fetchFails || id !in purchases || purchases[id].userId != user.value.id {
        return CancelNotFound;
      }
      var p := purchases[id];
      if p.paymentStatus != Pending || p.deliveryStatus != Undelivered {
        return NotCancellable;
      }
      if updateError.Some? {
        return CancelFailed("Failed to cancel purchase: " + updateError.value);
      }
      var updated := CancelRow(p, now);
      if AtMostOneOutstanding() {
        ReleaseKeepsLimit(purchases, id, updated);
        ReleaseClearsUser(purchases, id, updated);
      }
      purchases := purchases[id := updated];
      r := CancelledPurchase(updated);
    }

    /** `POST /api/dash/verify-payment`: report a confirmed purchase as is;
        mark a purchase past its deadline expired; otherwise ask the
        verifier and record a verified payment. Only `confirmed` is
        short-circuited, so a cancelled or expired purchase is looked at
        again. The write that marks a purchase expired is not checked.
        `purchaseId` is None for any falsy body value, 0 included. */
    method VerifyPurchasePayment(purchaseId: Option<nat>, now: int, clientError: Option<string>, fetchFails: bool,
                                 balance: Result<int>, txs: Result<Option<seq<PaymentVerifier.Tx>>>,
                                 minConfirmations: int, writeFails: bool)
      returns (r: VerifyResponse)
      requires Valid()
      modifies this`purchases
      ensures Valid()
      ensures r == VerifyMissingId <==> purchaseId.None?
      // the admin client is obtained before the purchase is fetched
      ensures purchaseId.Some? && clientError.Some? ==> r == VerifyFailed && purchases == old(purchases)
      ensures r == VerifyNotFound <==>
        purchaseId.Some? && clientError.None? && (fetchFails || purchaseId.value !in old(purchases))
      ensures r.AlreadyConfirmed? <==>
        purchaseId.Some? && clientError.None? && !fetchFails && purchaseId.value in old(purchases) &&
        old(purchases)[purchaseId.value].paymentStatus == Confirmed
      ensures r.AlreadyConfirmed? ==> r.recorded == old(purchases)[purchaseId.value].confirmations
      ensures r == PurchaseExpired <==>
        purchaseId.Some? && clientError.None? && !fetchFails && purchaseId.value in old(purchases) &&
        old(purchases)[purchaseId.value].paymentStatus != Confirmed &&
        now > old(purchases)[purchaseId.value].expiresAt
      ensures r == PurchaseExpired ==>
        purchases == if writeFails then old(purchases)
                     else old(purchases)[purchaseId.value := ExpireRow(old(purchases)[purchaseId.value])]
      // the verifier is consulted only for a live, unconfirmed purchase
      ensures (r.PaymentConfirmed? || r.PaymentNotConfirmed? || r == VerifyFailed) && clientError.None? ==>
        purchaseId.Some? && !fetchFails && purchaseId.value in old(purchases) &&
        old(purchases)[purchaseId.value].paymentStatus != Confirmed &&
        now <= old(purchases)[purchaseId.value].expiresAt
      ensures (r.PaymentConfirmed? || r.PaymentNotConfirmed? || r == VerifyFailed) && clientError.None? ==>
        var p := old(purchases)[purchaseId.value];
        var v := PaymentVerifier.VerifyPayment(balance, txs, p.dashAmount, minConfirmations);
        && (r == VerifyFailed <==> v.Failure? || (v.value.Verified? && writeFails))
        && (r.PaymentConfirmed? <==> v.Success? && v.value.Verified? && !writeFails)
        && (r.PaymentConfirmed? ==>
              r == PaymentConfirmed(v.value.txid, v.value.confirmations, v.value.amount) &&
              purchases == old(purchases)[purchaseId.value := ConfirmRow(p, v.value.txid, v.value.confirmations, now)])
        && (r.PaymentNotConfirmed? <==> v.Success? && !v.value.Verified?)
        && (r.PaymentNotConfirmed? ==>
              r == PaymentNotConfirmed(v.value.Reason().value, ReportedConfirmations(v.value), v.value))
      ensures !(r.PaymentConfirmed? || r == PurchaseExpired) ==> purchases == old(purchases)
      // confirming a purchase that was pending keeps the one-outstanding rule
      ensures old(AtMostOneOutstanding()) &&
        (purchaseId.Some? && purchaseId.value in old(purchases) ==>
           old(purchases)[purchaseId.value].paymentStatus == Pending)
        ==> AtMostOneOutstanding()
    {
      if purchaseId.None? {
        return VerifyMissingId;
      }
      if clientError.Some? {
        return VerifyFailed;
      }
      var id := purchaseId.value;
      if fetchFails || id !in purchases {
        return VerifyNotFound;
      }
      var p := purchases[id];
      if p.paymentStatus == Confirmed {
        return AlreadyConfirmed(p.confirmations);
      }
      if now > p.expiresAt {
        if !writeFails {
          if AtMostOneOutstanding() {
            ReleaseKeepsLimit(purchases, id, ExpireRow(p));
          }
          purchases := purchases[id := ExpireRow(p)];
        }
        return PurchaseExpired;
      }
      var v := PaymentVerifier.VerifyPayment(balance, txs, p.dashAmount, minConfirmations);
      if v.Failure? {
        return VerifyFailed;
      }
      var verification := v.value;
      if verification.Verified? {
        if writeFails {
          return VerifyFailed;
        }
        var confirmed := ConfirmRow(p, verification.txid, verification.confirmations, now);
        if AtMostOneOutstanding() && p.paymentStatus == Pending {
          if Outstanding(p) {
            UpdateOutstandingKeepsLimit(purchases, id, confirmed);
          } else {
            ReleaseKeepsLimit(purchases, id, confirmed);
          }
        }
        purchases := purchases[id := confirmed];
        return PaymentConfirmed(verification.txid, verification.confirmations, verification.amount);
      }
      r := PaymentNotConfirmed(verification.Reason().value, ReportedConfirmations(verification), verification);
    }

    /** The cron's loop: count every purchase, mark a delivered one sent,
        and record an error entry and a HIGH alert for a failed one. */
    method DeliverBatch(batch: seq<nat>, attempt: nat -> Attempt, now: int)
      returns (processed: nat, successful: nat, failed: nat, errors: seq<DeliveryError>)
      requires Valid()
      modifies this`purchases, this`alerts
      ensures Valid()
      ensures processed == |batch| && successful + failed == processed && failed == |errors|
      ensures errors == Failures(batch, attempt)
      ensures purchases == Deliver(old(purchases), batch, attempt, now)
      ensures alerts == old(alerts) + AlertsFor(errors)
    {
      processed, successful, failed := 0, 0, 0;
      errors := [];
      var i := 0;
      while i < |batch|
        invariant 0 <= i <= |batch|
        invariant Valid()
        invariant processed == i && successful + failed == i && failed == |errors|
        invariant errors == Failures(batch[..i], attempt)
        invariant purchases == Deliver(old(purchases), batch[..i], attempt, now)
        invariant alerts == old(alerts) + AlertsFor(errors)
      {
        var id := batch[i];
        ghost var before, logged := purchases, alerts;
        processed := processed + 1;
        var e := Visit(id, attempt, now);
        BatchStep(old(purchases), old(alerts), batch, i, attempt, now, errors, before, logged, e, purchases, alerts);
        if e.None? {
          successful := successful + 1;
        } else {
          failed := failed + 1;
          errors := errors + [DeliveryError(id, e.value)];
        }
        i := i + 1;
      }
      assert batch[..|batch|] == batch;
    }

    /** One pass of the cron's loop body: on success the row is marked sent,
        on failure a HIGH alert is written and the row stays as it was. */
    method Visit(id: nat, attempt: nat -> Attempt, now: int) returns (e: Option<string>)
      requires Valid()
      modifies this`purchases, this`alerts
      ensures Valid()
      ensures e == AttemptError(attempt(id))
      ensures purchases == if e.None? && id in old(purchases) then old(purchases)[id := MarkSent(old(purchases)[id], now)]
                           else old(purchases)
      ensures alerts == old(alerts) + (if e.Some? then [FailureAlert(DeliveryError(id, e.value))] else [])
    {
      e := AttemptError(attempt(id));
      if e.None? {
        if id in purchases {
          purchases := purchases[id := MarkSent(purchases[id], now)];
        }
      } else {
        alerts := alerts + [FailureAlert(DeliveryError(id, e.value))];
      }
    }

    /** `GET /api/cron/process-deliveries`: behind the cron secret as the
        route checks it, visit each eligible purchase once (the order the
        query returned them in), send the licence and the admin notice, and
        mark it sent; a failure leaves it pending, adds an error entry and a
        HIGH alert. */
    method ProcessDeliveries(authorization: Option<string>, env: map<string, string>, now: int,
                             clientError: Option<string>, queryError: Option<string>,
                             batch: seq<nat>, attempt: nat -> Attempt)
      returns (r: CronResponse)
      requires Valid() && IsSelection(batch, purchases, now)
      modifies this`purchases, this`alerts
      ensures Valid()
      ensures r == CronUnauthorized <==> !CronAuthorizedAsWritten(authorization, env)
      ensures r.CronFailed? <==> CronAuthorizedAsWritten(authorization, env) && (clientError.Some? || queryError.Some?)
      ensures r.CronFailed? ==>
        r.message == if clientError.Some? then clientError.value else "Database query failed: " + queryError.value
      ensures !r.CronSummary? ==> purchases == old(purchases) && alerts == old(alerts)
      ensures r.CronSummary? ==>
        && r.processed == |batch|
        && r.successful + r.failed == r.processed
        && r.failed == |r.errors|
        && r.errors == Failures(batch, attempt)
        && purchases == Deliver(old(purchases), batch, attempt, now)
        && alerts == old(alerts) + AlertsFor(r.errors)
      // each selected purchase is marked sent exactly when its attempt succeeded
      ensures r.CronSummary? ==>
        purchases.Keys == old(purchases).Keys &&
        forall id :: id in old(purchases) ==>
          purchases[id] == if id in batch && AttemptError(attempt(id)).None?
                           then MarkSent(old(purchases)[id], now) else old(purchases)[id]
      ensures old(AtMostOneOutstanding()) ==> AtMostOneOutstanding()
    {
      if !CronAuthorizedAsWritten(authorization, env) {
        return CronUnauthorized;
      }
      if clientError.Some? {
        return CronFailed(clientError.value);
      }
      if queryError.Some? {
        return CronFailed("Database query failed: " + queryError.value);
      }
      ghost var start := purchases;
      var processed, successful, failed, errors := DeliverBatch(batch, attempt, now);
      forall id | id in start
        ensures purchases[id] == if id in batch && AttemptError(attempt(id)).None?
                                 then MarkSent(start[id], now) else start[id]
      {
        DeliverPointwise(start, batch, attempt, now, id);
      }
      if AtMostOneOutstandingIn(start) {
        DeliverKeepsLimit(start, batch, attempt, now);
      }
      r := CronSummary(processed, successful, failed, errors);
    }

    /** The cron route with the corrected secret check: without a
        configured, non-empty secret every request is refused; a request
        that passes runs the route as written. */
    method ProcessDeliveriesIntended(authorization: Option<string>, env: map<string, string>, now: int,
                                     clientError: Option<string>, queryError: Option<string>,
                                     batch: seq<nat>, attempt: nat -> Attempt)
      returns (r: CronResponse)
      requires Valid() && IsSelection(batch, purchases, now)
      modifies this`purchases, this`alerts
      ensures Valid()
      ensures r == CronUnauthorized <==> !CronAuthorized(authorization, env)
      ensures r.CronFailed? <==> CronAuthorized(authorization, env) && (clientError.Some? || queryError.Some?)
      ensures !r.CronSummary? ==> purchases == old(purchases) && alerts == old(alerts)
      ensures r.CronSummary? ==>
        && r.processed == |batch|
        && r.errors == Failures(batch, attempt)
        && purchases == Deliver(old(purchases), batch, attempt, now)
        && alerts == old(alerts) + AlertsFor(r.errors)
      ensures old(AtMostOneOutstanding()) ==> AtMostOneOutstanding()
    {
      if !CronAuthorized(authorization, env) {
        return CronUnauthorized;
      }
      CronAuthorizedIntended(authorization, env);
      r := ProcessDeliveries(authorization, env, now, clientError, queryError, batch, attempt);
    }
  }
}
