/**
 * The payment handlers: start a hosted checkout for an application fee,
 * confirm it from the browser return or from the provider's webhook, cancel
 * it, refund it, and report its status. Each handler is a pure function over
 * the payment table (the specification) and a method that performs it on the
 * store; `Run` replays any sequence of handler calls so that invariants over
 * whole histories can be stated.
 */
module Payments {
  import opened Wrappers
  import opened Text
  import opened Tables
  import opened Models
  import opened Store

  /** The payment table and its auto-increment counter: what the handlers write. */
  datatype Ledger = Ledger(payments: map<int, Payment>, nextId: int)

  /** The tables the handlers read but never write. */
  datatype Catalog = Catalog(
    applications: map<int, Application>,
    institutions: map<int, Institution>,
    programs: map<int, Program>)

  function LedgerOf(db: Database): Ledger
    reads db
  {
    Ledger(db.payments, db.nextPaymentId)
  }

  function CatalogOf(db: Database): Catalog
    reads db
  {
    Catalog(db.applications, db.institutions, db.programs)
  }

  /** The key shape the store guarantees for the payment table. */
  ghost predicate WellKeyed(l: Ledger) {
    1 <= l.nextId && IdsBelow(l.payments, l.nextId) && IntentIdsUnique(l.payments)
  }

  /** The provider's answer to "create a checkout session": its id, or a provider error. */
  datatype ProviderSession = SessionCreated(sessionId: string) | ProviderFailed

  datatype CheckoutOutcome =
    | AccessDenied
    | AlreadyPaid
    | NoPaymentRequired
    | RedirectToProvider(paymentId: int, sessionId: string)  // 303 to the hosted page
    | ProviderError(paymentId: int)                     // the PENDING row stays
    | CheckoutFailed                                    // an exception, rolled back (a missing application too)

  /** Some payment for the application is COMPLETED. */
  predicate CompletedPaymentExists(payments: map<int, Payment>, applicationId: int) {
    exists k :: k in payments && payments[k].applicationId == Some(applicationId)
                && payments[k].status == Completed
  }

  /** Some payment already carries this provider session id. */
  predicate IntentIdTaken(payments: map<int, Payment>, sessionId: string) {
    exists k :: k in payments && payments[k].stripePaymentIntentId == Some(sessionId)
  }

  /** The application fee of the application's institution, if both rows exist and the fee is not NULL. */
  function FeeOf(c: Catalog, applicationId: int): (r: Option<int>)
    ensures r.Some? <==>
      && applicationId in c.applications && c.applications[applicationId].institutionId in c.institutions
      && c.institutions[c.applications[applicationId].institutionId].applicationFee.Some?
    ensures r.Some? ==> r == c.institutions[c.applications[applicationId].institutionId].applicationFee
  {
    if applicationId !in c.applications then None
    else
      var institutionId := c.applications[applicationId].institutionId;
      if institutionId !in c.institutions then None
      else c.institutions[institutionId].applicationFee
  }

  /** The payment's description names the program and then the institution. */
  function FeeDescription(program: Program, institution: Institution): (d: string)
    ensures OccursAt(program.name, d, |FeePrefix|)
    ensures OccursAt(institution.name, d, |d| - |institution.name|)
    ensures |FeePrefix| + |program.name| <= |d| - |institution.name|
  {
    var d := FeePrefix + program.name + " at " + institution.name;
    assert d[|FeePrefix|..|FeePrefix| + |program.name|] == program.name;
    assert d[|d| - |institution.name|..] == institution.name;
    d
  }

  const FeePrefix := "Application fee for "


  /**
   * Every guard of `create_checkout_session` passes: the application exists
   * and is the caller's, nothing is paid for it yet, its fee is a positive
   * number and its program exists (the description reads the program's name).
   */
  predicate CheckoutEligible(l: Ledger, c: Catalog, caller: int, applicationId: int) {
    && applicationId in c.applications && c.applications[applicationId].userId == caller
    && !CompletedPaymentExists(l.payments, applicationId)
    && FeeOf(c, applicationId).Some? && FeeOf(c, applicationId).value > 0
    && c.applications[applicationId].programId in c.programs
  }

  /**
   * `create_checkout_session`. The guards run in order: the application must
   * exist and belong to the caller, no COMPLETED payment may exist for it, the
   * fee must be a number (`float(None)` raises) and positive. Then a PENDING
   * row is inserted and committed before the provider is called; the
   * provider's session id is stored afterwards unless the provider failed or
   * the id is already stored on another row (unique column).
   */
  function Checkout(l: Ledger, c: Catalog, caller: int, applicationId: int,
                    provider: ProviderSession, now: int): (r: (Ledger, CheckoutOutcome))
    ensures r.0 != l <==> CheckoutEligible(l, c, caller, applicationId)
    ensures r.1 == AccessDenied <==> applicationId in c.applications && c.applications[applicationId].userId != caller
    ensures r.1 == AlreadyPaid <==>
      && applicationId in c.applications && c.applications[applicationId].userId == caller
      && CompletedPaymentExists(l.payments, applicationId)
    ensures r.1 == NoPaymentRequired <==>
      && applicationId in c.applications && c.applications[applicationId].userId == caller
      && !CompletedPaymentExists(l.payments, applicationId)
      && FeeOf(c, applicationId).Some? && FeeOf(c, applicationId).value <= 0
    ensures r.1.ProviderError? <==> CheckoutEligible(l, c, caller, applicationId) && provider.ProviderFailed?
    ensures r.1.RedirectToProvider? ==> provider.SessionCreated? && r.1.sessionId == provider.sessionId
    ensures l.nextId !in l.payments ==>
      (r.1.RedirectToProvider? <==>
        && CheckoutEligible(l, c, caller, applicationId) && provider.SessionCreated?
        && !IntentIdTaken(l.payments, provider.sessionId))
    ensures l.nextId !in l.payments ==>
      (r.1 == CheckoutFailed <==>
        || applicationId !in c.applications
        || (&& c.applications[applicationId].userId == caller && !CompletedPaymentExists(l.payments, applicationId)
            && (|| FeeOf(c, applicationId).None?
                || (FeeOf(c, applicationId).value > 0 && c.applications[applicationId].programId !in c.programs)))
        || (&& CheckoutEligible(l, c, caller, applicationId) && provider.SessionCreated?
            && IntentIdTaken(l.payments, provider.sessionId)))
    ensures r.0 != l ==>
      && r.0.nextId == l.nextId + 1
      && r.0.payments.Keys == l.payments.Keys + {l.nextId}
      && (forall k :: k in l.payments && k != l.nextId ==> r.0.payments[k] == l.payments[k])
      && var p := r.0.payments[l.nextId];
         && p.status == Pending && p.userId == caller && p.applicationId == Some(applicationId)
         && FeeOf(c, applicationId) == Some(p.amount) && p.amount > 0 && p.currency == "USD"
         && p.createdAt == now && p.completedAt.None?
         && p.description == FeeDescription(c.programs[c.applications[applicationId].programId],
                                            c.institutions[c.applications[applicationId].institutionId])
         && p.stripePaymentIntentId == (if r.1.RedirectToProvider? then Some(r.1.sessionId) else None)
         && (p.stripePaymentIntentId.Some? ==>
               forall k :: k in l.payments && k != l.nextId ==> l.payments[k].stripePaymentIntentId != p.stripePaymentIntentId)
    ensures r.1.RedirectToProvider? || r.1.ProviderError? ==> r.1.paymentId == l.nextId && r.0 != l
  {
    if applicationId !in c.applications then (l, CheckoutFailed)
    else
      var application := c.applications[applicationId];
      if application.userId != caller then (l, AccessDenied)
      else if CompletedPaymentExists(l.payments, applicationId) then (l, AlreadyPaid)
      else if FeeOf(c, applicationId).None? then (l, CheckoutFailed)
      else
        var amount := FeeOf(c, applicationId).value;
        if amount <= 0 then (l, NoPaymentRequired)
        else if application.programId !in c.programs then (l, CheckoutFailed)
        else
          var payment := Payment(caller, Some(applicationId), None, amount, "USD",
                                 FeeDescription(c.programs[application.programId],
                                                c.institutions[application.institutionId]),
                                 Pending, now, None, None);
          var id := l.nextId;
          var inserted := Ledger(l.payments[id := payment], id + 1);
          assert inserted != l by { assert inserted.nextId != l.nextId; }
          match provider
          case ProviderFailed => (inserted, ProviderError(id))
          case SessionCreated(sessionId) =>
            assert IntentIdTaken(inserted.payments, sessionId) ==> IntentIdTaken(l.payments, sessionId) by {
              if IntentIdTaken(inserted.payments, sessionId) {
                var k :| k in inserted.payments && inserted.payments[k].stripePaymentIntentId == Some(sessionId);
                assert k != id && k in l.payments;
              }
            }
            assert id !in l.payments && IntentIdTaken(l.payments, sessionId) ==> IntentIdTaken(inserted.payments, sessionId) by {
              if id !in l.payments && IntentIdTaken(l.payments, sessionId) {
                var k :| k in l.payments && l.payments[k].stripePaymentIntentId == Some(sessionId);
                assert k != id && inserted.payments[k] == l.payments[k];
              }
            }
            if IntentIdTaken(inserted.payments, sessionId) then (inserted, CheckoutFailed)
            else
              assert forall k :: k in l.payments && k != id ==> l.payments[k].stripePaymentIntentId != Some(sessionId) by {
                forall k | k in l.payments && k != id
                  ensures l.payments[k].stripePaymentIntentId != Some(sessionId)
                {
                  assert k in inserted.payments && inserted.payments[k] == l.payments[k];
                }
              }
              var withSession := payment.(stripePaymentIntentId := Some(sessionId));
              (Ledger(l.payments[id := withSession], id + 1), RedirectToProvider(id, sessionId))
  }

  /** What the provider says when the return handler retrieves the session. */
  datatype SessionLookup = Retrieved(paymentStatus: string, snapshot: string) | LookupFailed

  datatype ReturnOutcome =
    | InvalidSession          // session_id or payment_id missing
    | PaymentConfirmed(paymentId: int)
    | VerificationFailed
    | VerificationError       // the provider call raised

  /**
   * `payment_success`: the browser comes back with a session id and a payment
   * id. Only when both are present, the provider reports the session "paid"
   * and the payment exists and belongs to the caller does the row become
   * COMPLETED, stamped and given the provider's snapshot. The payment's current
   * status and its stored session id are not consulted.
   */
  function ConfirmReturn(l: Ledger, caller: int, sessionId: string, paymentId: Option<int>,
                         lookup: SessionLookup, now: int): (r: (Ledger, ReturnOutcome))
    ensures r.0.nextId == l.nextId && r.0.payments.Keys == l.payments.Keys
    ensures r.1.PaymentConfirmed? <==>
      && sessionId != "" && paymentId.Some? && lookup.Retrieved? && lookup.paymentStatus == "paid"
      && paymentId.value in l.payments && l.payments[paymentId.value].userId == caller
    ensures !r.1.PaymentConfirmed? ==> r.0 == l
    ensures r.1.PaymentConfirmed? ==>
      && r.1.paymentId == paymentId.value
      && (forall k :: k in l.payments && k != r.1.paymentId ==> r.0.payments[k] == l.payments[k])
      && r.0.payments[r.1.paymentId] == l.payments[r.1.paymentId].(
           status := Completed, completedAt := Some(now), stripeMetadata := Some(lookup.snapshot))
  {
    if sessionId == "" || paymentId.None? then (l, InvalidSession)
    else
      match lookup
      case LookupFailed => (l, VerificationError)
      case Retrieved(paymentStatus, snapshot) =>
        var id := paymentId.value;
        if paymentStatus == "paid" && id in l.payments && l.payments[id].userId == caller then
          var p := l.payments[id].(status := Completed, completedAt := Some(now), stripeMetadata := Some(snapshot));
          (Ledger(l.payments[id := p], l.nextId), PaymentConfirmed(id))
        else (l, VerificationFailed)
  }

  /**
   * `payment_cancel`: an owned payment becomes FAILED whatever its status was;
   * any other request writes nothing. The cancel page is shown either way.
   */
  function Cancel(l: Ledger, caller: int, paymentId: Option<int>): (r: Ledger)
    ensures r.nextId == l.nextId && r.payments.Keys == l.payments.Keys
    ensures forall k :: k in l.payments ==>
      r.payments[k] == if paymentId == Some(k) && l.payments[k].userId == caller
                       then l.payments[k].(status := Failed) else l.payments[k]
  {
    if paymentId.Some? && paymentId.value in l.payments && l.payments[paymentId.value].userId == caller then
      Ledger(l.payments[paymentId.value := l.payments[paymentId.value].(status := Failed)], l.nextId)
    else l
  }

  const CheckoutCompletedEvent := "checkout.session.completed"

  /**
   * A webhook body after JSON parsing: its `type` and the `payment_id` of
   * `data.object.metadata`. A body that is not JSON, or lacks a key the handler
   * indexes, is `Unparseable`.
   */
  datatype WebhookEvent = Unparseable | Event(eventType: string, paymentId: Option<int>)

  datatype WebhookOutcome = WebhookOk | WebhookBadRequest   // 200 / 400

  /**
   * `stripe_webhook`: a "checkout.session.completed" event naming an existing
   * payment makes it COMPLETED and re-stamps `completed_at`, whatever its
   * status; every other well-formed event writes nothing and still answers 200.
   * No signature is checked.
   */
  function HandleWebhook(l: Ledger, event: WebhookEvent, now: int): (r: (Ledger, WebhookOutcome))
    ensures r.1 == WebhookBadRequest <==> event.Unparseable?
    ensures r.0.nextId == l.nextId && r.0.payments.Keys == l.payments.Keys
    ensures forall k :: k in l.payments ==>
      r.0.payments[k] == if event.Event? && event.eventType == CheckoutCompletedEvent && event.paymentId == Some(k)
                         then l.payments[k].(status := Completed, completedAt := Some(now))
                         else l.payments[k]
  {
    match event
    case Unparseable => (l, WebhookBadRequest)
    case Event(eventType, paymentId) =>
      if eventType == CheckoutCompletedEvent && paymentId.Some? && paymentId.value in l.payments then
        var id := paymentId.value;
        (Ledger(l.payments[id := l.payments[id].(status := Completed, completedAt := Some(now))], l.nextId), WebhookOk)
      else (l, WebhookOk)
  }

  datatype RefundOutcome = PaymentNotFound | RefundDenied | NotRefundable | RefundSubmitted

  /**
   * `request_refund`: only the owner of a COMPLETED payment can refund it, and
   * refunding only flips the status to REFUNDED (the provider is not asked).
   */
  function Refund(l: Ledger, caller: int, paymentId: int): (r: (Ledger, RefundOutcome))
    ensures r.1 == RefundSubmitted <==>
      paymentId in l.payments && l.payments[paymentId].userId == caller && l.payments[paymentId].status == Completed
    ensures r.1 != RefundSubmitted ==> r.0 == l
    ensures r.1 == RefundSubmitted ==> r.0 == Ledger(l.payments[paymentId := l.payments[paymentId].(status := Refunded)], l.nextId)
  {
    if paymentId !in l.payments then (l, PaymentNotFound)
    else if l.payments[paymentId].userId != caller then (l, RefundDenied)
    else if l.payments[paymentId].status != Completed then (l, NotRefundable)
    else (Ledger(l.payments[paymentId := l.payments[paymentId].(status := Refunded)], l.nextId), RefundSubmitted)
  }

  datatype StatusReport = StatusReport(
    id: int, status: string, amount: int, currency: string, createdAt: int, completedAt: Option<int>)

  datatype StatusResponse = StatusNotFound | StatusForbidden | StatusOk(report: StatusReport)

  /** `get_payment_status`: the owner sees the payment's status, amount and timestamps; others get 403. */
  function GetPaymentStatus(payments: map<int, Payment>, caller: int, paymentId: int): (r: StatusResponse)
    ensures r.StatusNotFound? <==> paymentId !in payments
    ensures r.StatusForbidden? <==> paymentId in payments && payments[paymentId].userId != caller
    ensures r.StatusOk? ==>
      var p := payments[paymentId];
      && r.report.id == paymentId && r.report.status == PaymentStatusValue(p.status)
      && r.report.amount == p.amount && r.report.currency == p.currency
      && r.report.createdAt == p.createdAt && r.report.completedAt == p.completedAt
  {
    if paymentId !in payments then StatusNotFound
    else
      var p := payments[paymentId];
      if p.userId != caller then StatusForbidden
      else StatusOk(StatusReport(paymentId, PaymentStatusValue(p.status), p.amount, p.currency, p.createdAt, p.completedAt))
  }

  // ---------------------------------------------------------------------------
  // Histories: any sequence of calls to the five writing handlers.

  datatype PaymentCall =
    | CheckoutCall(caller: int, applicationId: int, provider: ProviderSession, now: int)
    | ReturnCall(caller: int, sessionId: string, paymentId: Option<int>, lookup: SessionLookup, now: int)
    | CancelCall(caller: int, paymentId: Option<int>)
    | WebhookCall(event: WebhookEvent, now: int)
    | RefundCall(caller: int, refundId: int)

  /** The ledger after one call. */
  function Step(l: Ledger, c: Catalog, call: PaymentCall): Ledger {
    match call
    case CheckoutCall(caller, applicationId, provider, now) => Checkout(l, c, caller, applicationId, provider, now).0
    case ReturnCall(caller, sessionId, paymentId, lookup, now) => ConfirmReturn(l, caller, sessionId, paymentId, lookup, now).0
    case CancelCall(caller, paymentId) => Cancel(l, caller, paymentId)
    case WebhookCall(event, now) => HandleWebhook(l, event, now).0
    case RefundCall(caller, refundId) => Refund(l, caller, refundId).0
  }

  /** The ledger after the calls, in order. */
  function Run(l: Ledger, c: Catalog, calls: seq<PaymentCall>): Ledger
    decreases |calls|
  {
    if calls == [] then l else Step(Run(l, c, calls[..|calls| - 1]), c, calls[|calls| - 1])
  }

  /** One call adds at most one payment, under the counter, and only a checkout does. */
  lemma StepAddsAtMostOne(l: Ledger, c: Catalog, call: PaymentCall)
    ensures var r := Step(l, c, call);
      && (r.nextId == l.nextId || (call.CheckoutCall? && r.nextId == l.nextId + 1))
      && r.payments.Keys == if r.nextId == l.nextId then l.payments.Keys else l.payments.Keys + {l.nextId}
  {
  }

  /** `n` calls add at most `n` payments, each under a key the counter handed out meanwhile. */
  lemma {:induction false} RunAddsAtMostOnePerCall(l: Ledger, c: Catalog, calls: seq<PaymentCall>)
    ensures var r := Run(l, c, calls);
      && l.nextId <= r.nextId <= l.nextId + |calls|
      && l.payments.Keys <= r.payments.Keys
      && forall k :: k in r.payments && k !in l.payments ==> l.nextId <= k < r.nextId
    decreases |calls|
  {
    if calls != [] {
      RunAddsAtMostOnePerCall(l, c, calls[..|calls| - 1]);
      StepAddsAtMostOne(Run(l, c, calls[..|calls| - 1]), c, calls[|calls| - 1]);
    }
  }

  /** A row as a charge: whom, for what, how much, and with which provider session. */
  predicate SameCharge(p: Payment, q: Payment) {
    && p.userId == q.userId && p.applicationId == q.applicationId
    && p.amount == q.amount && p.currency == q.currency && p.description == q.description
    && p.createdAt == q.createdAt && p.stripePaymentIntentId == q.stripePaymentIntentId
  }

  /** No row disappears and no row's charge changes; the counter never goes back. */
  ghost predicate Preserves(before: Ledger, after: Ledger) {
    && before.nextId <= after.nextId
    && forall k :: k in before.payments ==> k in after.payments && SameCharge(before.payments[k], after.payments[k])
  }

  /** Every row charges the positive fee of an application its payer owns, in USD. */
  ghost predicate Consistent(p: Payment, c: Catalog) {
    && p.amount > 0 && p.currency == "USD"
    && p.applicationId.Some? && p.applicationId.value in c.applications
    && c.applications[p.applicationId.value].userId == p.userId
    && (p.status == Completed || p.status == Refunded ==> p.completedAt.Some?)
  }

  ghost predicate LedgerValid(l: Ledger, c: Catalog) {
    WellKeyed(l) && forall k :: k in l.payments ==> Consistent(l.payments[k], c)
  }

  lemma StepKeepsWellKeyed(l: Ledger, c: Catalog, call: PaymentCall)
    requires WellKeyed(l)
    ensures WellKeyed(Step(l, c, call))
  {
    if call.CheckoutCall? {
      var r := Checkout(l, c, call.caller, call.applicationId, call.provider, call.now);
      if r.0 != l {
        var id := l.nextId;
        forall a, b | a in r.0.payments && b in r.0.payments && r.0.payments[a].stripePaymentIntentId.Some?
          && r.0.payments[a].stripePaymentIntentId == r.0.payments[b].stripePaymentIntentId
          ensures a == b
        {
          if a != id && b != id {
            assert r.0.payments[a] == l.payments[a] && r.0.payments[b] == l.payments[b];
          }
        }
      }
    }
  }

  lemma StepPreserves(l: Ledger, c: Catalog, call: PaymentCall)
    requires WellKeyed(l)
    ensures Preserves(l, Step(l, c, call))
  {
  }

  lemma StepKeepsValid(l: Ledger, c: Catalog, call: PaymentCall)
    requires LedgerValid(l, c)
    ensures LedgerValid(Step(l, c, call), c)
  {
    StepKeepsWellKeyed(l, c, call);
  }

  /** Whatever the calls, the key shape and every row's consistency with its application survive. */
  lemma {:induction false} RunKeepsValid(l: Ledger, c: Catalog, calls: seq<PaymentCall>)
    requires LedgerValid(l, c)
    ensures LedgerValid(Run(l, c, calls), c)
    decreases |calls|
  {
    if calls != [] {
      RunKeepsValid(l, c, calls[..|calls| - 1]);
      StepKeepsValid(Run(l, c, calls[..|calls| - 1]), c, calls[|calls| - 1]);
    }
  }

  /** Whatever the calls, payments are never deleted and never re-priced, re-owned or re-linked. */
  lemma {:induction false} RunPreserves(l: Ledger, c: Catalog, calls: seq<PaymentCall>)
    requires WellKeyed(l)
    ensures WellKeyed(Run(l, c, calls)) && Preserves(l, Run(l, c, calls))
    decreases |calls|
  {
    if calls != [] {
      var prefix := calls[..|calls| - 1];
      RunPreserves(l, c, prefix);
      StepKeepsWellKeyed(Run(l, c, prefix), c, calls[|calls| - 1]);
      StepPreserves(Run(l, c, prefix), c, calls[|calls| - 1]);
    }
  }

  /** One call can make a payment REFUNDED only by being its owner's refund of it while COMPLETED. */
  lemma StepRefunds(l: Ledger, c: Catalog, call: PaymentCall, k: int)
    requires k in Step(l, c, call).payments && Step(l, c, call).payments[k].status == Refunded
    requires !(k in l.payments && l.payments[k].status == Refunded)
    ensures call.RefundCall? && call.refundId == k
    ensures k in l.payments && l.payments[k].status == Completed && l.payments[k].userId == call.caller
  {
  }

  /**
   * Over any history, a payment that ends REFUNDED was REFUNDED at the start
   * or was refunded, by its owner, at a point where it was COMPLETED.
   */
  lemma {:induction false} RefundedOnlyFromCompleted(l: Ledger, c: Catalog, calls: seq<PaymentCall>, k: int)
    requires k in Run(l, c, calls).payments && Run(l, c, calls).payments[k].status == Refunded
    ensures || (k in l.payments && l.payments[k].status == Refunded)
            || exists i :: 0 <= i < |calls| && k in Run(l, c, calls[..i]).payments
                           && calls[i] == RefundCall(Run(l, c, calls[..i]).payments[k].userId, k)
                           && Run(l, c, calls[..i]).payments[k].status == Completed
    decreases |calls|
  {
    if calls != [] {
      var n := |calls| - 1;
      var prefix := calls[..n];
      var before := Run(l, c, prefix);
      if k in before.payments && before.payments[k].status == Refunded {
        RefundedOnlyFromCompleted(l, c, prefix, k);
        if !(k in l.payments && l.payments[k].status == Refunded) {
          var i :| 0 <= i < |prefix| && k in Run(l, c, prefix[..i]).payments
                   && prefix[i] == RefundCall(Run(l, c, prefix[..i]).payments[k].userId, k)
                   && Run(l, c, prefix[..i]).payments[k].status == Completed;
          assert prefix[..i] == calls[..i];
          assert calls[i] == prefix[i];
        }
      } else {
        assert Run(l, c, calls) == Step(before, c, calls[n]);
        StepRefunds(before, c, calls[n], k);
        assert calls[..n] == prefix;
        assert k in Run(l, c, calls[..n]).payments && calls[n] == RefundCall(Run(l, c, calls[..n]).payments[k].userId, k);
      }
    }
  }

  /** Delivering the same completion event again leaves the payment COMPLETED with the later stamp. */
  lemma WebhookRedelivery(l: Ledger, id: int, first: int, second: int)
    requires id in l.payments
    ensures var event := Event(CheckoutCompletedEvent, Some(id));
            var once := HandleWebhook(l, event, first).0;
            var twice := HandleWebhook(once, event, second).0;
            && twice.payments[id].status == Completed
            && twice.payments[id] == once.payments[id].(completedAt := Some(second))
            && twice.payments.Keys == l.payments.Keys
  {
  }

  /**
   * The browser return and the webhook may arrive in either order; both
   * orders end COMPLETED, with the provider snapshot, stamped by whichever
   * came last.
   */
  lemma CompletionPathsConverge(l: Ledger, caller: int, sessionId: string, id: int,
                                snapshot: string, tReturn: int, tHook: int)
    requires id in l.payments && l.payments[id].userId == caller && sessionId != ""
    ensures
      var lookup := Retrieved("paid", snapshot);
      var event := Event(CheckoutCompletedEvent, Some(id));
      var returnFirst := HandleWebhook(ConfirmReturn(l, caller, sessionId, Some(id), lookup, tReturn).0, event, tHook).0;
      var hookFirst := ConfirmReturn(HandleWebhook(l, event, tHook).0, caller, sessionId, Some(id), lookup, tReturn).0;
      && returnFirst.payments[id].status == Completed && hookFirst.payments[id].status == Completed
      && returnFirst.payments[id].completedAt == Some(tHook)
      && hookFirst.payments[id].completedAt == Some(tReturn)
      && returnFirst.payments[id].stripeMetadata == Some(snapshot) == hookFirst.payments[id].stripeMetadata
  {
  }

  /** Running one more call is one more step. */
  lemma RunSnoc(l: Ledger, c: Catalog, calls: seq<PaymentCall>, call: PaymentCall)
    ensures Run(l, c, calls + [call]) == Step(Run(l, c, calls), c, call)
  {
    assert (calls + [call])[..|calls|] == calls;
  }

  /** One student, one application with a fee of 5000 cents, its institution and its program. */
  function OneApplication(): Catalog {
    Catalog(map[1 := Application(7, 1, 1, Draft, None, "", "", None, None, None, 0)],
            map[1 := Institution("U", "Canada", "ca", "Toronto", None, Some(5000), None, true, false)],
            map[1 := Program(1, "MSc", "Master", "CS", 100, true)])
  }

  /** Two checkouts of application 1 by its owner, the second started before the first is paid. */
  function DoubleCheckout(): seq<PaymentCall> {
    [CheckoutCall(7, 1, SessionCreated("cs_a"), 1), CheckoutCall(7, 1, SessionCreated("cs_b"), 2)]
  }

  /** The provider then reports both sessions paid. */
  function BothPaid(): seq<PaymentCall> {
    [WebhookCall(Event(CheckoutCompletedEvent, Some(1)), 3), WebhookCall(Event(CheckoutCompletedEvent, Some(2)), 4)]
  }

  /** Both checkouts insert a row for the application. */
  lemma TwoCheckoutsPending()
    ensures var l := Run(Ledger(map[], 1), OneApplication(), DoubleCheckout());
      && l.payments.Keys == {1, 2}
      && l.payments[1].applicationId == Some(1) == l.payments[2].applicationId
  {
    var c := OneApplication();
    var l0 := Ledger(map[], 1);
    var first := DoubleCheckout()[0];
    var second := DoubleCheckout()[1];
    var l1 := Step(l0, c, first);
    assert !CompletedPaymentExists(l0.payments, 1);
    RunSnoc(l0, c, [], first);
    assert [] + [first] == [first];
    assert l1.payments.Keys == {1} && l1.payments[1].status == Pending;
    var l2 := Step(l1, c, second);
    assert !CompletedPaymentExists(l1.payments, 1);
    assert !IntentIdTaken(l1.payments[2 := l2.payments[2].(stripePaymentIntentId := None)], "cs_b");
    RunSnoc(l0, c, [first], second);
    assert [first] + [second] == DoubleCheckout();
  }

  /** Two completion events for two existing rows complete both. */
  lemma BothCompleted(l: Ledger, c: Catalog, a: int, b: int, ta: int, tb: int)
    requires a in l.payments && b in l.payments
    ensures var end := Step(Step(l, c, WebhookCall(Event(CheckoutCompletedEvent, Some(a)), ta)), c,
                            WebhookCall(Event(CheckoutCompletedEvent, Some(b)), tb));
      && end.payments.Keys == l.payments.Keys
      && end.payments[a].status == Completed && end.payments[b].status == Completed
      && end.payments[a].applicationId == l.payments[a].applicationId
      && end.payments[b].applicationId == l.payments[b].applicationId
  {
  }

  /**
   * Two checkouts started before either is paid both insert a PENDING row, and
   * both can then be completed: one application ends with two COMPLETED
   * payments although no call ran concurrently.
   */
  lemma TwoCompletedPaymentsReachable()
    ensures var end := Run(Ledger(map[], 1), OneApplication(), DoubleCheckout() + BothPaid());
      && 1 in end.payments && 2 in end.payments
      && end.payments[1].applicationId == Some(1) == end.payments[2].applicationId
      && end.payments[1].status == Completed && end.payments[2].status == Completed
  {
    var c := OneApplication();
    var l0 := Ledger(map[], 1);
    var hooks := BothPaid();
    TwoCheckoutsPending();
    RunSnoc(l0, c, DoubleCheckout(), hooks[0]);
    RunSnoc(l0, c, DoubleCheckout() + [hooks[0]], hooks[1]);
    assert DoubleCheckout() + [hooks[0]] + [hooks[1]] == DoubleCheckout() + hooks;
    BothCompleted(Run(l0, c, DoubleCheckout()), c, 1, 2, 3, 4);
  }

  // ---------------------------------------------------------------------------
  // The handlers on the store.

  method CreateCheckoutSession(db: Database, caller: int, applicationId: int,
                               provider: ProviderSession, now: int) returns (outcome: CheckoutOutcome)
    requires db.Valid()
    modifies db`payments, db`nextPaymentId
    ensures db.Valid()
    ensures (LedgerOf(db), outcome) == Checkout(old(LedgerOf(db)), CatalogOf(db), caller, applicationId, provider, now)
  {
    if applicationId !in db.applications {
      return CheckoutFailed;
    }
    var application := db.applications[applicationId];
    if application.userId != caller {
      return AccessDenied;
    }
    if CompletedPaymentExists(db.payments, applicationId) {
      return AlreadyPaid;
    }
    if application.institutionId !in db.institutions
       || db.institutions[application.institutionId].applicationFee.None? {
      return CheckoutFailed;
    }
    var institution := db.institutions[application.institutionId];
    var amount := institution.applicationFee.value;
    if amount <= 0 {
      return NoPaymentRequired;
    }
    if application.programId !in db.programs {
      return CheckoutFailed;
    }
    var payment := Payment(caller, Some(applicationId), None, amount, "USD",
                           FeeDescription(db.programs[application.programId], institution),
                           Pending, now, None, None);
    var paymentId := db.InsertPayment(payment);
    match provider {
      case ProviderFailed =>
        outcome := ProviderError(paymentId);
      case SessionCreated(sessionId) =>
        if IntentIdTaken(db.payments, sessionId) {
          outcome := CheckoutFailed;
        } else {
          db.AttachIntent(paymentId, sessionId);
          assert db.payments == old(db.payments)[paymentId := payment.(stripePaymentIntentId := Some(sessionId))];
          outcome := RedirectToProvider(paymentId, sessionId);
        }
    }
  }

  method PaymentSuccess(db: Database, caller: int, sessionId: string, paymentId: Option<int>,
                        lookup: SessionLookup, now: int) returns (outcome: ReturnOutcome)
    requires db.Valid()
    modifies db`payments
    ensures db.Valid()
    ensures (LedgerOf(db), outcome) == ConfirmReturn(old(LedgerOf(db)), caller, sessionId, paymentId, lookup, now)
  {
    StepKeepsWellKeyed(LedgerOf(db), CatalogOf(db), ReturnCall(caller, sessionId, paymentId, lookup, now));
    if sessionId == "" || paymentId.None? {
      return InvalidSession;
    }
    if lookup.LookupFailed? {
      return VerificationError;
    }
    if lookup.paymentStatus == "paid" {
      var id := paymentId.value;
      if id in db.payments && db.payments[id].userId == caller {
        db.payments := db.payments[id := db.payments[id].(status := Completed, completedAt := Some(now),
                                                          stripeMetadata := Some(lookup.snapshot))];
        return PaymentConfirmed(id);
      }
    }
    outcome := VerificationFailed;
  }

  method PaymentCancel(db: Database, caller: int, paymentId: Option<int>)
    requires db.Valid()
    modifies db`payments
    ensures db.Valid()
    ensures LedgerOf(db) == Cancel(old(LedgerOf(db)), caller, paymentId)
  {
    StepKeepsWellKeyed(LedgerOf(db), CatalogOf(db), CancelCall(caller, paymentId));
    if paymentId.Some? {
      var id := paymentId.value;
      if id in db.payments && db.payments[id].userId == caller {
        db.payments := db.payments[id := db.payments[id].(status := Failed)];
      }
    }
  }

  method StripeWebhook(db: Database, event: WebhookEvent, now: int) returns (outcome: WebhookOutcome)
    requires db.Valid()
    modifies db`payments
    ensures db.Valid()
    ensures (LedgerOf(db), outcome) == HandleWebhook(old(LedgerOf(db)), event, now)
  {
    StepKeepsWellKeyed(LedgerOf(db), CatalogOf(db), WebhookCall(event, now));
    if event.Unparseable? {
      return WebhookBadRequest;
    }
    if event.eventType == CheckoutCompletedEvent && event.paymentId.Some? {
      var id := event.paymentId.value;
      if id in db.payments {
        db.payments := db.payments[id := db.payments[id].(status := Completed, completedAt := Some(now))];
      }
    }
    outcome := WebhookOk;
  }

  method RequestRefund(db: Database, caller: int, paymentId: int) returns (outcome: RefundOutcome)
    requires db.Valid()
    modifies db`payments
    ensures db.Valid()
    ensures (LedgerOf(db), outcome) == Refund(old(LedgerOf(db)), caller, paymentId)
  {
    StepKeepsWellKeyed(LedgerOf(db), CatalogOf(db), RefundCall(caller, paymentId));
    if paymentId !in db.payments {
      return PaymentNotFound;
    }
    var payment := db.payments[paymentId];
    if payment.userId != caller {
      return RefundDenied;
    }
    if payment.status != Completed {
      return NotRefundable;
    }
    db.payments := db.payments[paymentId := payment.(status := Refunded)];
    outcome := RefundSubmitted;
  }
}
