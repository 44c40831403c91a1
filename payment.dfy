/** The payment handlers: starting a deposit with the payment provider,
    recording a finished deposit from the provider's webhook, and reading
    an advertiser's balance. The provider's SDK calls are not modelled;
    their outcomes are parameters. */
module PaymentController {
  import opened Common
  import opened Tables
  import opened Schema
  import opened Database
  import opened Ledger

  // ---------------------------------------------------------------- intents

  /** `!amount || amount < 10`: a missing, zero or sub-ten-dollar amount is refused. */
  function PaymentAmountAccepted(amount: Option<Cents>): (ok: bool)
    ensures ok <==> amount.Some? && amount.value >= 1000
  {
    !(amount.None? || amount.value == 0 || amount.value < 1000)
  }

  /** What `paymentIntents.create` is asked for: the amount in cents, the
      customer to charge, and the advertiser and user in its metadata. */
  datatype IntentRequest = IntentRequest(amount: Cents, customerId: string, advertiserId: nat, userId: nat)

  /** What the provider answers with. */
  datatype PaymentIntent = PaymentIntent(id: string, clientSecret: string)

  datatype IntentReply = IntentReply(clientSecret: string, paymentIntentId: string)

  /** The reply once the intent has been asked for: the provider's answer,
      or 500 when its call threw. */
  function IntentOutcome(intent: Option<PaymentIntent>): (r: Reply<IntentReply>)
    ensures intent.None? <==> r == Fail(500, "Failed to create payment intent")
    ensures intent.Some? ==> r.Ok? && r.body.paymentIntentId == intent.value.id && r.body.clientSecret == intent.value.clientSecret
  {
    match intent
    case None => Fail(500, "Failed to create payment intent")
    case Some(p) => Ok(IntentReply(p.clientSecret, p.id))
  }

  /** `createPaymentIntent`. The amount is checked before any lookup; no
      advertiser gives 404. A stored customer id is reused untouched;
      without one, the customer the provider creates (`newCustomer`, `None`
      when that call throws) is written to the advertiser before the intent
      is asked for, with no transaction, so it stays even when the intent
      call (`intent`, `None` when it throws) fails. `sent` is the intent
      request made, if any. */
  method CreatePaymentIntent(db: Db, userId: nat, amount: Option<Cents>,
                             newCustomer: Option<string>, intent: Option<PaymentIntent>)
    returns (r: Reply<IntentReply>, sent: Option<IntentRequest>)
    requires db.Valid()
    modifies db`advertisers
    ensures db.Valid()
    ensures !PaymentAmountAccepted(amount) ==>
      r == Fail(400, "Minimum amount is $10") && sent.None? && db.advertisers == old(db.advertisers)
    ensures PaymentAmountAccepted(amount) ==> match AdvertiserOfUser(old(db.advertisers), userId)
      case None =>
        r == Fail(404, "Advertiser not found") && sent.None? && db.advertisers == old(db.advertisers)
      case Some(i) =>
        var a := old(db.advertisers)[i];
        if TextGiven(a.data.stripeCustomerId) then
          && db.advertisers == old(db.advertisers)
          && sent == Some(IntentRequest(amount.value, a.data.stripeCustomerId.value, a.id, userId))
          && r == IntentOutcome(intent)
        else match newCustomer
          case None =>
            r == Fail(500, "Failed to create payment intent") && sent.None? && db.advertisers == old(db.advertisers)
          case Some(c) =>
            && db.advertisers == old(db.advertisers)[i := Row(a.id, a.data.(stripeCustomerId := Some(c)))]
            && sent == Some(IntentRequest(amount.value, c, a.id, userId))
            && r == IntentOutcome(intent)
    ensures sent.Some? ==> r.Fail? == intent.None?
    ensures sent.Some? ==> exists i :: (0 <= i < |db.advertisers| && db.advertisers[i].id == sent.value.advertiserId &&
      db.advertisers[i].data.stripeCustomerId == Some(sent.value.customerId))
  {
    sent := None;
    if !PaymentAmountAccepted(amount) {
      return Fail(400, "Minimum amount is $10"), None;
    }
    var found := AdvertiserOfUser(db.advertisers, userId);
    if found.None? {
      return Fail(404, "Advertiser not found"), None;
    }
    var i := found.value;
    var advertiser := db.advertisers[i];
    var customerId: string;
    if TextGiven(advertiser.data.stripeCustomerId) {
      customerId := advertiser.data.stripeCustomerId.value;
    } else {
      if newCustomer.None? {
        return Fail(500, "Failed to create payment intent"), None;
      }
      customerId := newCustomer.value;
      db.advertisers := db.advertisers[i := Row(advertiser.id, advertiser.data.(stripeCustomerId := Some(customerId)))];
    }
    sent := Some(IntentRequest(amount.value, customerId, advertiser.id, userId));
    r := IntentOutcome(intent);
    assert db.advertisers[i].id == advertiser.id && db.advertisers[i].data.stripeCustomerId == Some(customerId);
  }

  /** An advertiser with a stored customer id keeps it across any number
      of intents: the provider is not asked for a new customer. */
  method StoredCustomerIsReused(db: Db, userId: nat, amount: Cents, intent: Option<PaymentIntent>)
    returns (first: Option<IntentRequest>, second: Option<IntentRequest>)
    requires db.Valid()
    requires amount >= 1000
    requires AdvertiserOfUser(db.advertisers, userId).Some?
    requires TextGiven(db.advertisers[AdvertiserOfUser(db.advertisers, userId).value].data.stripeCustomerId)
    modifies db`advertisers
    ensures db.advertisers == old(db.advertisers)
    ensures first.Some? && second.Some? && first == second
    ensures first.value.customerId == db.advertisers[AdvertiserOfUser(db.advertisers, userId).value].data.stripeCustomerId.value
  {
    var r1, r2;
    r1, first := CreatePaymentIntent(db, userId, Some(amount), None, intent);
    r2, second := CreatePaymentIntent(db, userId, Some(amount), Some("another"), intent);
  }

  // ---------------------------------------------------------------- webhook

  const SucceededEvent: string := "payment_intent.succeeded"

  /** The parts of a verified webhook event the handler reads: its type,
      and the intent's id, amount in cents and `metadata.advertiserId`. */
  datatype WebhookEvent = WebhookEvent(eventType: string, intentId: string, amount: Cents, advertiserId: nat)

  /** `{ received: true }`. */
  datatype Ack = Received

  /** The payment_transactions row a succeeded intent is recorded as. */
  function DepositRecord(e: WebhookEvent): (x: PaymentTransaction)
    ensures DepositShare(x, e.advertiserId) == e.amount
    ensures forall a :: a != e.advertiserId ==> DepositShare(x, a) == 0
  {
    PaymentTransaction(e.advertiserId, e.amount, "deposit", e.intentId, "succeeded")
  }

  /** `UPDATE advertisers SET account_balance = account_balance + amount,
      total_spent = total_spent + amount WHERE id = advertiserId`: that
      advertiser gains `amount` in both columns, every other row is
      untouched, and an unknown key matches nothing. */
  function Credit(advertisers: Table<Advertiser>, advertiserId: nat, amount: Cents): (r: Table<Advertiser>)
    requires KeysIncreasing(advertisers)
    ensures |r| == |advertisers| && KeysIncreasing(r)
    ensures forall k :: 0 <= k < |advertisers| ==> r[k].id == advertisers[k].id
    ensures forall k :: 0 <= k < |advertisers| ==>
      r[k].data == if advertisers[k].id == advertiserId
                   then advertisers[k].data.(accountBalance := advertisers[k].data.accountBalance + amount,
                                             totalSpent := advertisers[k].data.totalSpent + amount)
                   else advertisers[k].data
  {
    match IndexOfKey(advertisers, advertiserId)
    case None => advertisers
    case Some(i) =>
      var a := advertisers[i].data;
      advertisers[i := Row(advertiserId, a.(accountBalance := a.accountBalance + amount, totalSpent := a.totalSpent + amount))]
  }

  /** `handlePaymentSuccess`. A signature that fails verification gives 400
      and changes nothing. Any other event type changes nothing. A succeeded
      intent is recorded in one BEGIN/COMMIT: one deposit row and a credit
      of the same amount to that advertiser's balance and deposit total.
      `storageFails` stands for either statement throwing: ROLLBACK, and the
      error is swallowed. Every verified event is acknowledged. Every
      advertiser's balance and total, each less its recorded deposits,
      stay what they were. */
  method HandlePaymentSuccess(db: Db, signatureError: Option<string>, event: WebhookEvent, storageFails: bool)
    returns (r: Reply<Ack>)
    requires db.Valid()
    modifies db`transactions, db`transactionSerial, db`advertisers
    ensures db.Valid()
    ensures signatureError.Some? ==> r == Fail(400, "Webhook Error: " + signatureError.value)
    ensures signatureError.None? ==> r == Ok(Received)
    ensures if signatureError.None? && event.eventType == SucceededEvent && !storageFails then
        && db.transactions == old(db.transactions) + [Row(old(db.transactionSerial), DepositRecord(event))]
        && db.transactionSerial == old(db.transactionSerial) + 1
        && db.advertisers == Credit(old(db.advertisers), event.advertiserId, event.amount)
      else
        && db.transactions == old(db.transactions)
        && db.transactionSerial == old(db.transactionSerial)
        && db.advertisers == old(db.advertisers)
    ensures |db.advertisers| == |old(db.advertisers)|
    ensures forall k :: 0 <= k < |db.advertisers| ==>
      var a, b := db.advertisers[k], old(db.advertisers)[k];
      && a.id == b.id
      && a.data.accountBalance - Deposited(db.transactions, a.id) == b.data.accountBalance - Deposited(old(db.transactions), b.id)
      && a.data.totalSpent - Deposited(db.transactions, a.id) == b.data.totalSpent - Deposited(old(db.transactions), b.id)
  {
    if signatureError.Some? {
      return Fail(400, "Webhook Error: " + signatureError.value);
    }
    if event.eventType == SucceededEvent {
      var savedTransactions, savedSerial, savedAdvertisers := db.transactions, db.transactionSerial, db.advertisers;
      // BEGIN
      var row := Row(db.transactionSerial, DepositRecord(event));
      db.transactions := db.transactions + [row];
      db.transactionSerial := db.transactionSerial + 1;
      db.advertisers := Credit(db.advertisers, event.advertiserId, event.amount);
      if storageFails {
        // ROLLBACK; the error is logged and dropped
        db.transactions, db.transactionSerial, db.advertisers := savedTransactions, savedSerial, savedAdvertisers;
      } else {
        // COMMIT
        forall k | 0 <= k < |savedAdvertisers|
          ensures Deposited(db.transactions, savedAdvertisers[k].id) ==
                  Deposited(savedTransactions, savedAdvertisers[k].id) + DepositShare(row.data, savedAdvertisers[k].id)
        {
          DepositedAppend(savedTransactions, row, savedAdvertisers[k].id);
        }
      }
    }
    r := Ok(Received);
  }

  /** Deliveries are not deduplicated by intent id: the same succeeded
      event delivered twice is recorded twice and credited twice. */
  method DuplicateDeliveryCreditsTwice(db: Db, event: WebhookEvent, a: nat)
    returns (r1: Reply<Ack>, r2: Reply<Ack>)
    requires db.Valid()
    requires event.eventType == SucceededEvent
    requires a < |db.advertisers| && db.advertisers[a].id == event.advertiserId
    modifies db`transactions, db`transactionSerial, db`advertisers
    ensures r1 == Ok(Received) && r2 == Ok(Received)
    ensures |db.transactions| == |old(db.transactions)| + 2
    ensures db.transactions[|db.transactions| - 2].data == db.transactions[|db.transactions| - 1].data == DepositRecord(event)
    ensures |db.advertisers| == |old(db.advertisers)|
    ensures db.advertisers[a].data.accountBalance == old(db.advertisers)[a].data.accountBalance + 2 * event.amount
    ensures db.advertisers[a].data.totalSpent == old(db.advertisers)[a].data.totalSpent + 2 * event.amount
  {
    r1 := HandlePaymentSuccess(db, None, event, false);
    r2 := HandlePaymentSuccess(db, None, event, false);
  }

  // ---------------------------------------------------------------- balance

  datatype Balance = Balance(accountBalance: Cents, totalSpent: Cents)

  /** `getBalance`: the caller's stored balance and deposit total; no
      advertiser gives 404. */
  function GetBalance(advertisers: Table<Advertiser>, userId: nat): (r: Reply<Balance>)
    ensures AdvertiserOfUser(advertisers, userId).None? <==> r == Fail(404, "Advertiser not found")
    ensures r.Ok? || r.Fail?
    ensures r.Ok? ==> exists k :: (0 <= k < |advertisers| && advertisers[k].data.userId == userId &&
      r.body == Balance(advertisers[k].data.accountBalance, advertisers[k].data.totalSpent))
  {
    match AdvertiserOfUser(advertisers, userId)
    case None => Fail(404, "Advertiser not found")
    case Some(i) => Ok(Balance(advertisers[i].data.accountBalance, advertisers[i].data.totalSpent))
  }

  /** A recorded deposit shows in the depositor's next `getBalance` as the
      same amount added to both figures; every other caller sees what they
      saw before. */
  lemma CreditSeenByGetBalance(advertisers: Table<Advertiser>, advertiserId: nat, amount: Cents, userId: nat)
    requires KeysIncreasing(advertisers)
    ensures match AdvertiserOfUser(advertisers, userId)
      case None => GetBalance(Credit(advertisers, advertiserId, amount), userId) == Fail(404, "Advertiser not found")
      case Some(i) =>
        var b := advertisers[i].data;
        GetBalance(Credit(advertisers, advertiserId, amount), userId) ==
          if advertisers[i].id == advertiserId then Ok(Balance(b.accountBalance + amount, b.totalSpent + amount))
          else Ok(Balance(b.accountBalance, b.totalSpent))
  {
    var credited := Credit(advertisers, advertiserId, amount);
    assert forall k :: 0 <= k < |advertisers| ==> credited[k].data.userId == advertisers[k].data.userId;
  }
}
