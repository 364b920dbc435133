/** The wallet and payment services as they run: statements change the tables in place, and a
    transaction that fails puts back what it found. */
module BankServer {
  import opened Options
  import opened Bank
  import C = Coupons
  import S = StripeEvents
  import F = Refunds

  datatype Method = CashMethod | WalletMethod | CardMethod

  /** What findById returns about a ride: its passenger, whether it is COMPLETED, its fare. */
  datatype Bill = Bill(passenger: nat, completed: bool, fare: nat)

  /** The couponCode argument: absent, or the outcome of looking the code up. */
  datatype Code = NoCode | Code(found: Option<(nat, C.Coupon)>)

  datatype Redemption = Redemption(coupon: nat, user: nat, ride: nat, discount: int)

  function CountByCoupon(rs: seq<Redemption>, coupon: nat): nat {
    if rs == [] then 0
    else CountByCoupon(rs[..|rs| - 1], coupon) + if rs[|rs| - 1].coupon == coupon then 1 else 0
  }

  function CountByUser(rs: seq<Redemption>, coupon: nat, user: nat): nat {
    if rs == [] then 0
    else
      CountByUser(rs[..|rs| - 1], coupon, user)
      + if rs[|rs| - 1].coupon == coupon && rs[|rs| - 1].user == user then 1 else 0
  }

  /** validateCoupon accepts the code, or there is none. */
  predicate CodeAccepted(code: Code, rs: seq<Redemption>, user: nat, fare: nat, now: int) {
    code.Code? ==>
      code.found.Some?
      && var (id, coupon) := code.found.value;
         C.Redeemable(coupon, fare, now, CountByCoupon(rs, id), CountByUser(rs, id, user))
  }

  function Charged(code: Code, fare: nat): (amount: nat)
    ensures amount <= fare
  {
    if code.Code? && code.found.Some?
    then
      C.PaidPlusDiscountIsFare(code.found.value.1, fare);
      C.DiscountIsBounded(code.found.value.1, fare);
      C.Paid(code.found.value.1, fare)
    else fare
  }

  function Charge(user: nat, ride: nat, amount: nat, how: Method, intent: nat): Txn {
    match how
    case CashMethod => PayCash(user, ride, amount)
    case WalletMethod => PayFromWallet(user, ride, amount)
    case CardMethod => PayCard(user, ride, amount, intent)
  }

  /** The checks of payForRide before any write. */
  predicate Billable(bill: Option<Bill>, payments: seq<Payment>, user: nat, ride: nat) {
    bill.Some? && bill.value.passenger == user && bill.value.completed && !RidePaid(payments, ride)
  }

  /** The payment row of this ride by this user, as each method of payment starts it. */
  predicate Records(p: Payment, user: nat, ride: nat, how: Method, intent: nat) {
    && p.ride == ride && p.payer == user
    && (how == CashMethod ==> p.provider == CASH && p.status == COMPLETED && p.intent == None)
    && (how == WalletMethod ==> p.provider == WALLET && p.status == COMPLETED && p.intent == None)
    && (how == CardMethod ==> p.provider == STRIPE && p.status == PENDING && p.intent == Some(intent))
  }

  /** The wallets afterwards: this user's is down by the amount. */
  predicate Withdrawn(was: map<nat, int>, now: map<nat, int>, user: nat, amount: nat) {
    if amount == 0 then now == was
    else user in was && now == was[user := was[user] - amount]
  }

  /** A coupon is redeemed only while active, in its period, on a fare it is meant for, and within
      its limits, this redemption included. */
  predicate WithinTerms(id: nat, coupon: C.Coupon, fare: nat, now: int, user: nat, after: seq<Redemption>) {
    && coupon.isActive && coupon.validFrom <= now <= coupon.validTo
    && (coupon.minRideFare.Some? ==> coupon.minRideFare.value <= fare)
    && (coupon.usageLimit.Some? ==> CountByCoupon(after, id) <= coupon.usageLimit.value)
    && CountByUser(after, id, user) <= coupon.usagePerUser
  }

  function Uses(rs: seq<Redemption>, coupon: nat): set<int> {
    set i | 0 <= i < |rs| && rs[i].coupon == coupon
  }

  function UsesBy(rs: seq<Redemption>, coupon: nat, user: nat): set<int> {
    set i | 0 <= i < |rs| && rs[i].coupon == coupon && rs[i].user == user
  }

  /** The two counts are the numbers of redemptions of the coupon, and of these by the user. */
  lemma {:induction false} CountsAreNumbers(rs: seq<Redemption>, coupon: nat, user: nat)
    ensures CountByCoupon(rs, coupon) == |Uses(rs, coupon)|
    ensures CountByUser(rs, coupon, user) == |UsesBy(rs, coupon, user)|
  {
    if rs != [] {
      var n := |rs| - 1;
      CountsAreNumbers(rs[..n], coupon, user);
      UsesGrow(rs, coupon, user);
    }
  }

  lemma UsesGrow(rs: seq<Redemption>, coupon: nat, user: nat)
    requires rs != []
    ensures var n := |rs| - 1;
      && Uses(rs, coupon) == Uses(rs[..n], coupon) + (if rs[n].coupon == coupon then {n} else {})
      && UsesBy(rs, coupon, user)
           == UsesBy(rs[..n], coupon, user) + (if rs[n].coupon == coupon && rs[n].user == user then {n} else {})
      && n !in Uses(rs[..n], coupon) && n !in UsesBy(rs[..n], coupon, user)
  {
  }

  /** When a payment goes through: the ride is the user's, completed and unpaid, the code is known and
      within its terms, and the money can be moved or the intent is new. */
  lemma PaymentAcceptedIff(b: Books, rs: seq<Redemption>, user: nat, ride: nat, bill: Option<Bill>, how: Method,
                           code: Code, intent: nat, now: int)
    ensures
      Billable(bill, b.payments, user, ride) && CodeAccepted(code, rs, user, bill.value.fare, now)
        && Apply(b, Charge(user, ride, Charged(code, bill.value.fare), how, intent)) != b
      <==>
      && bill.Some? && bill.value.passenger == user && bill.value.completed
      && (forall i :: 0 <= i < |b.payments| ==> b.payments[i].ride != ride)
      && (code.Code? ==> code.found.Some? && WithinTerms(code.found.value.0, code.found.value.1, bill.value.fare, now,
            user, rs + [Redemption(code.found.value.0, user, ride, 0)]))
      && (how == CardMethod ==> forall i :: 0 <= i < |b.payments| ==> b.payments[i].intent != Some(intent))
      && (how == WalletMethod ==>
            && user in b.wallets
            && b.wallets[user] >= bill.value.fare
                 - (if code.Code? then C.ComputeDiscount(code.found.value.1, bill.value.fare) else 0)
            && forall i :: 0 <= i < |b.ledger| && b.ledger[i].wallet == user && b.ledger[i].reason == RIDE_PAYMENT
                 ==> b.ledger[i].reference != Some(ride))
  {
    if bill.Some? && code.Code? && code.found.Some? {
      var rest := rs + [Redemption(code.found.value.0, user, ride, 0)];
      assert rest[..|rs|] == rs;
      C.PaidPlusDiscountIsFare(code.found.value.1, bill.value.fare);
    }
    if bill.Some? { ChargeLands(b, user, ride, Charged(code, bill.value.fare), how, intent); }
  }

  lemma ChargeLands(b: Books, user: nat, ride: nat, amount: nat, how: Method, intent: nat)
    ensures Apply(b, Charge(user, ride, amount, how, intent)) != b <==>
      && !RidePaid(b.payments, ride)
      && (how == CardMethod ==> !IntentTaken(b.payments, Some(intent)))
      && (how == WalletMethod ==> CanDebit(b, user, amount) && !KeyTaken(b.ledger, user, RIDE_PAYMENT, Some(ride)))
  {
    var t := Apply(b, Charge(user, ride, amount, how, intent));
    assert |t.payments| == |b.payments| + 1 ==> t != b;
  }

  /** Every transaction keeps the books in order, whether it commits or rolls back. */
  lemma Kept(b: Books, t: Txn)
    ensures Sound(b) ==> Sound(Apply(b, t))
  {
    if Sound(b) { ApplySound(b, t); }
  }

  class Server {
    var wallets: map<nat, int>
    var ledger: seq<Entry>
    var payments: seq<Payment>
    var refunds: seq<Refund>
    var redemptions: seq<Redemption>

    ghost function Snapshot(): Books
      reads this
    {
      Books(wallets, ledger, payments, refunds)
    }

    constructor (users: set<nat>)
      ensures Opening(Snapshot()) && wallets.Keys == users && redemptions == []
    {
      wallets, ledger, payments, refunds := map u | u in users :: 0, [], [], [];
      redemptions := [];
    }

    // ------------------------------------------------------------ statements

    method TryDebit(user: nat, amount: nat) returns (count: nat)
      modifies `wallets
      ensures count == if CanDebit(old(Snapshot()), user, amount) then 1 else 0
      ensures count == 1 ==> user in wallets && Snapshot() == Moved(old(Snapshot()), user, -(amount as int))
      ensures count == 0 ==> wallets == old(wallets)
    {
      count := 0;
      if user in wallets && wallets[user] >= amount {
        wallets := wallets[user := wallets[user] - amount];
        count := 1;
      }
    }

    method Credit(user: nat, amount: nat)
      requires user in wallets
      modifies `wallets
      ensures user in wallets && Snapshot() == Moved(old(Snapshot()), user, amount)
    {
      wallets := wallets[user := wallets[user] + amount];
    }

    /** False is Prisma's P2002: a row with this unique key exists. */
    method CreateTransaction(e: Entry) returns (ok: bool)
      modifies `ledger
      ensures ok <==> !KeyTaken(old(ledger), e.wallet, e.reason, e.reference)
      ensures ledger == if ok then old(ledger) + [e] else old(ledger)
    {
      ok := !KeyTaken(ledger, e.wallet, e.reason, e.reference);
      if ok { ledger := ledger + [e]; }
    }

    method CreatePayment(p: Payment) returns (ok: bool)
      modifies `payments
      ensures ok <==> !RidePaid(old(payments), p.ride) && !IntentTaken(old(payments), p.intent)
      ensures payments == if ok then old(payments) + [p] else old(payments)
    {
      ok := !RidePaid(payments, p.ride) && !IntentTaken(payments, p.intent);
      if ok { payments := payments + [p]; }
    }

    method CreateRefund(r: Refund) returns (ok: bool)
      modifies `refunds
      ensures ok <==> !RefundIdTaken(old(refunds), r.id)
      ensures refunds == if ok then old(refunds) + [r] else old(refunds)
    {
      ok := !RefundIdTaken(refunds, r.id);
      if ok { refunds := refunds + [r]; }
    }

    method UpdateStatus(payment: nat, status: Status)
      requires payment < |payments|
      modifies `payments
      ensures Snapshot() == WithStatus(old(Snapshot()), payment, status)
    {
      payments := payments[payment := payments[payment].(status := status)];
    }

    // ---------------------------------------------------------- wallet service

    method ConfirmTopUp(user: nat, amount: nat, intent: nat)
      modifies `wallets, `ledger
      ensures Snapshot() == Apply(old(Snapshot()), TopUp(user, amount, intent))
      ensures if user in old(wallets)
                 && forall i | 0 <= i < |old(ledger)| && old(ledger)[i].wallet == user ::
                      old(ledger)[i].reason == TOPUP ==> old(ledger)[i].reference != Some(intent)
              then wallets == old(wallets)[user := old(wallets)[user] + amount]
                   && ledger == old(ledger)
                        + [Entry(user, CREDIT, TOPUP, amount, old(wallets)[user] + amount, Some(intent))]
              else wallets == old(wallets) && ledger == old(ledger)
      ensures Sound(old(Snapshot())) ==> Sound(Snapshot())
    {
      Kept(old(Snapshot()), TopUp(user, amount, intent));
      if user !in wallets { return; }
      var savedWallets := wallets;
      Credit(user, amount);
      var balance := wallets[user];
      var ok := CreateTransaction(Entry(user, CREDIT, TOPUP, amount, balance, Some(intent)));
      if !ok { wallets := savedWallets; }
    }

    /** The balance update of either kind; 0 only for an uncovered debit. */
    method Move(user: nat, kind: Kind, amount: nat) returns (count: nat)
      requires user in wallets
      modifies `wallets
      ensures count == if kind == CREDIT || CanDebit(old(Snapshot()), user, amount) then 1 else 0
      ensures count == 1 ==> user in wallets && Snapshot() == Moved(old(Snapshot()), user, SignedAmount(kind, amount))
      ensures count == 0 ==> wallets == old(wallets)
    {
      count := 1;
      if kind == CREDIT {
        Credit(user, amount);
      } else {
        count := TryDebit(user, amount);
      }
    }

    method AdjustBalance(user: nat, delta: int) returns (ok: bool)
      modifies `wallets, `ledger
      ensures Snapshot() == Apply(old(Snapshot()), Adjust(user, delta))
      ensures Sound(old(Snapshot())) ==> Sound(Snapshot())
      ensures ok <==> user in old(wallets) && (delta < 0 ==> old(wallets)[user] >= -delta)
      ensures ok ==>
        && wallets == old(wallets)[user := old(wallets)[user] + delta]
        && |ledger| == |old(ledger)| + 1 && ledger[..|old(ledger)|] == old(ledger)
        && ledger[|old(ledger)|].wallet == user && ledger[|old(ledger)|].reason == ADJUSTMENT
        && ledger[|old(ledger)|].amount == (if delta < 0 then -delta else delta)
        && ledger[|old(ledger)|].kind == (if delta < 0 then DEBIT else CREDIT)
        && ledger[|old(ledger)|].balanceAfter == old(wallets)[user] + delta
        && ledger[|old(ledger)|].reference == None
      ensures !ok ==> wallets == old(wallets) && ledger == old(ledger)
    {
      Kept(old(Snapshot()), Adjust(user, delta));
      ok := false;
      if user !in wallets { return; }
      var kind := if delta >= 0 then CREDIT else DEBIT;
      var amount: nat := if delta >= 0 then delta else -delta;
      var count := Move(user, kind, amount);
      if count == 0 { return; }
      var balance := wallets[user];
      ok := CreateTransaction(Entry(user, kind, ADJUSTMENT, amount, balance, None));
    }

    /** Runs inside its caller's transaction; false is an error for the caller to roll back. */
    method CreditRefund(user: nat, amount: nat, reference: nat) returns (ok: bool)
      modifies `wallets, `ledger
      ensures ok <==> user in old(wallets) && !KeyTaken(old(ledger), user, REFUND, Some(reference))
      ensures ok ==> Some(Snapshot()) == Posted(old(Snapshot()), user, CREDIT, REFUND, amount, Some(reference))
    {
      ok := false;
      if user !in wallets { return; }
      Credit(user, amount);
      var balance := wallets[user];
      ok := CreateTransaction(Entry(user, CREDIT, REFUND, amount, balance, Some(reference)));
    }

    // --------------------------------------------------------- payment service

    /** The interactive transaction of a wallet payment. */
    method PayByWallet(user: nat, ride: nat, amount: nat) returns (ok: bool)
      modifies `wallets, `ledger, `payments
      ensures Snapshot() == Apply(old(Snapshot()), PayFromWallet(user, ride, amount))
      ensures ok ==>
        && payments == old(payments) + [Payment(ride, user, amount, WALLET, COMPLETED, None)]
        && user in old(wallets) && wallets == old(wallets)[user := old(wallets)[user] - amount]
      ensures Sound(old(Snapshot())) ==> Sound(Snapshot())
      ensures ok <==> Snapshot() != old(Snapshot())
    {
      Kept(old(Snapshot()), PayFromWallet(user, ride, amount));
      var savedWallets, savedLedger := wallets, ledger;
      ok := false;
      var count := TryDebit(user, amount);
      if count == 0 { return; }
      var balance := wallets[user];
      ok := CreateTransaction(Entry(user, DEBIT, RIDE_PAYMENT, amount, balance, Some(ride)));
      if !ok { wallets := savedWallets; return; }
      ok := CreatePayment(Payment(ride, user, amount, WALLET, COMPLETED, None));
      if !ok { wallets, ledger := savedWallets, savedLedger; return; }
      assert |payments| == |old(payments)| + 1;
    }

    /** The write of each method of payment. */
    method Pay(user: nat, ride: nat, amount: nat, how: Method, intent: nat) returns (ok: bool)
      modifies `wallets, `ledger, `payments
      ensures Snapshot() == Apply(old(Snapshot()), Charge(user, ride, amount, how, intent))
      ensures Sound(old(Snapshot())) ==> Sound(Snapshot())
      ensures ok <==> Snapshot() != old(Snapshot())
      ensures ok ==>
        && |payments| == |old(payments)| + 1 && payments[..|old(payments)|] == old(payments)
        && Records(payments[|old(payments)|], user, ride, how, intent)
        && payments[|old(payments)|].amount == amount
        && Withdrawn(old(wallets), wallets, user, if how == WalletMethod then amount else 0)
        && (how != WalletMethod ==> ledger == old(ledger))
    {
      Kept(old(Snapshot()), Charge(user, ride, amount, how, intent));
      match how {
        case CashMethod => ok := CreatePayment(Payment(ride, user, amount, CASH, COMPLETED, None));
        case WalletMethod => ok := PayByWallet(user, ride, amount);
        case CardMethod => ok := CreatePayment(Payment(ride, user, amount, STRIPE, PENDING, Some(intent)));
      }
      assert ok ==> |payments| == |old(payments)| + 1;
    }

    /** `intent` is the PaymentIntent that Stripe returned; it is used only for a card. */
    method PayForRide(user: nat, ride: nat, bill: Option<Bill>, how: Method, code: Code, intent: nat, now: int)
      returns (ok: bool)
      modifies this
      ensures ok <==>
        && Billable(bill, old(payments), user, ride)
        && CodeAccepted(code, old(redemptions), user, bill.value.fare, now)
        && Apply(old(Snapshot()), Charge(user, ride, Charged(code, bill.value.fare), how, intent)) != old(Snapshot())
      ensures ok ==>
        Snapshot() == Apply(old(Snapshot()), Charge(user, ride, Charged(code, bill.value.fare), how, intent))
      ensures ok ==>
        redemptions == old(redemptions)
          + if code.Code?
            then [Redemption(code.found.value.0, user, ride, bill.value.fare - Charged(code, bill.value.fare))]
            else []
      ensures !ok ==> Snapshot() == old(Snapshot()) && redemptions == old(redemptions)
      ensures ok ==>
        && bill.Some? && (code.Code? ==> code.found.Some?)
        && |payments| == |old(payments)| + 1 && payments[..|old(payments)|] == old(payments)
        && Records(payments[|old(payments)|], user, ride, how, intent)
        && payments[|old(payments)|].amount
             == bill.value.fare - (if code.Code? then C.ComputeDiscount(code.found.value.1, bill.value.fare) else 0)
        && Withdrawn(old(wallets), wallets, user, if how == WalletMethod then payments[|old(payments)|].amount else 0)
        && (how != WalletMethod ==> ledger == old(ledger))
        && (code.Code? ==> WithinTerms(code.found.value.0, code.found.value.1, bill.value.fare, now, user, redemptions))
      ensures Sound(old(Snapshot())) ==> Sound(Snapshot())
    {
      ok := false;
      if bill.None? || bill.value.passenger != user { return; }
      if !bill.value.completed { return; }
      if RidePaid(payments, ride) { return; }

      var amount := bill.value.fare;
      var discountAmount: int := 0;
      if code.Code? {
        if code.found.None? { return; }
        var (id, coupon) := code.found.value;
        if !C.Redeemable(coupon, amount, now, CountByCoupon(redemptions, id), CountByUser(redemptions, id, user)) {
          return;
        }
        discountAmount := C.ComputeDiscount(coupon, amount);
        C.PaidPlusDiscountIsFare(coupon, amount);
        amount := C.Paid(coupon, amount);
      }

      ok := Pay(user, ride, amount, how, intent);
      if ok && code.Code? {
        redemptions := redemptions + [Redemption(code.found.value.0, user, ride, discountAmount)];
      }
    }

    method HandleStripeEvent(e: S.Event)
      modifies this
      ensures Snapshot() == S.Handle(old(Snapshot()), e) && redemptions == old(redemptions)
      ensures Sound(old(Snapshot())) ==> Sound(Snapshot())
    {
      if Sound(old(Snapshot())) { F.ServeSound(old(Snapshot()), F.Webhook(e)); }
      if e.kind == S.Succeeded {
        if e.intent.topUp {
          ConfirmTopUp(e.intent.user, e.intent.amount, e.intent.id);
          return;
        }
        var found := S.FindByIntent(payments, e.intent.id);
        if found.Some? && payments[found.value].status != COMPLETED {
          UpdateStatus(found.value, COMPLETED);
        }
      } else if e.kind == S.PaymentFailed {
        if e.intent.topUp { return; }
        var found := S.FindByIntent(payments, e.intent.id);
        if found.Some? && payments[found.value].status == PENDING {
          UpdateStatus(found.value, FAILED);
        }
      }
    }

    /** sumCompletedByPayment, as the fold the database runs. */
    method SumCompletedByPayment(payment: nat) returns (sum: nat)
      ensures sum == F.CompletedSum(refunds, payment)
    {
      sum := 0;
      var i := 0;
      while i < |refunds|
        invariant 0 <= i <= |refunds| && sum == F.CompletedSum(refunds[..i], payment)
      {
        assert refunds[..i + 1][..i] == refunds[..i];
        if refunds[i].payment == payment && refunds[i].completed { sum := sum + refunds[i].amount; }
        i := i + 1;
      }
      assert refunds[..|refunds|] == refunds;
    }

    /** The interactive transaction of a wallet or cash refund. */
    method RefundByWallet(payment: nat, amount: nat, id: nat, status: Status) returns (ok: bool)
      requires payment < |payments| && payments[payment].provider != STRIPE
      modifies `wallets, `ledger, `payments, `refunds
      ensures Snapshot() == Apply(old(Snapshot()), RefundToWallet(id, payment, amount, status))
      ensures refunds == if ok then old(refunds) + [Refund(id, payment, amount, true)] else old(refunds)
      ensures Sound(old(Snapshot())) ==> Sound(Snapshot())
      ensures !ok ==> Snapshot() == old(Snapshot())
    {
      Kept(old(Snapshot()), RefundToWallet(id, payment, amount, status));
      var savedWallets, savedLedger, savedRefunds := wallets, ledger, refunds;
      ok := CreateRefund(Refund(id, payment, amount, true));
      if !ok { return; }
      ok := CreditRefund(payments[payment].payer, amount, id);
      if !ok {
        wallets, ledger, refunds := savedWallets, savedLedger, savedRefunds;
        return;
      }
      UpdateStatus(payment, status);
    }

    /** The array transaction that records what Stripe has done. */
    method RefundByCard(payment: nat, amount: nat, id: nat, stripeOk: bool, status: Status) returns (ok: bool)
      requires payment < |payments| && payments[payment].provider == STRIPE
      modifies `payments, `refunds
      ensures Snapshot() == Apply(old(Snapshot()), RefundToCard(id, payment, amount, stripeOk, status))
      ensures refunds == if ok then old(refunds) + [Refund(id, payment, amount, stripeOk)] else old(refunds)
      ensures Sound(old(Snapshot())) ==> Sound(Snapshot())
      ensures !ok ==> Snapshot() == old(Snapshot())
    {
      Kept(old(Snapshot()), RefundToCard(id, payment, amount, stripeOk, status));
      ok := CreateRefund(Refund(id, payment, amount, stripeOk));
      if !ok { return; }
      UpdateStatus(payment, status);
    }

    /** The transaction of either channel. */
    method CarryOutRefund(payment: nat, amount: nat, id: nat, stripeOk: bool, status: Status) returns (ok: bool)
      requires payment < |payments|
      modifies `wallets, `ledger, `payments, `refunds
      ensures Snapshot()
        == Apply(old(Snapshot()), F.RefundBy(old(payments)[payment], id, payment, amount, stripeOk, status))
      ensures Sound(old(Snapshot())) ==> Sound(Snapshot())
      ensures !ok ==> Snapshot() == old(Snapshot())
      ensures ok ==>
        && |refunds| == |old(refunds)| + 1 && refunds[..|old(refunds)|] == old(refunds)
        && refunds[|old(refunds)|]
             == Refund(id, payment, amount, old(payments)[payment].provider != STRIPE || stripeOk)
    {
      if payments[payment].provider == STRIPE {
        ok := RefundByCard(payment, amount, id, stripeOk, status);
      } else {
        ok := RefundByWallet(payment, amount, id, status);
      }
    }

    /** The checks of refundPayment: how much to refund, or None where it throws. */
    method DecideRefund(payment: nat, amount: Option<int>) returns (refund: Option<(nat, Status)>)
      ensures refund.Some? <==> F.MayRefund(Snapshot(), payment, amount)
      ensures refund.Some? ==>
        && refund.value.0 == F.Asked(Snapshot(), payment, amount)
        && refund.value.1 == F.NewStatus(F.CompletedSum(refunds, payment) + refund.value.0, payments[payment].amount)
    {
      if payment >= |payments| { return None; }
      var p := payments[payment];
      if p.status != COMPLETED && p.status != PARTIALLY_REFUNDED { return None; }

      var already := SumCompletedByPayment(payment);
      var remaining: int := p.amount - already;
      var asked: int := if amount.Some? then amount.value else remaining;
      F.ToleranceIsExact(asked, remaining, 0, 0);
      if F.AmountRefused(asked, remaining) { return None; }
      return Some((asked, F.NewStatus(already + asked, p.amount)));
    }

    method RefundPayment(payment: nat, amount: Option<int>, id: nat, stripeOk: bool) returns (ok: bool)
      modifies `wallets, `ledger, `payments, `refunds
      ensures Snapshot() == F.Serve(old(Snapshot()), F.RefundPayment(payment, amount, id, stripeOk))
      ensures Sound(old(Snapshot())) ==> Sound(Snapshot())
      ensures !ok ==> Snapshot() == old(Snapshot())
      ensures ok ==>
        && payment < |old(payments)| && |refunds| == |old(refunds)| + 1 && refunds[..|old(refunds)|] == old(refunds)
        && refunds[|old(refunds)|].id == id && refunds[|old(refunds)|].payment == payment
        && refunds[|old(refunds)|].amount
             == if amount.Some? then amount.value
                else old(payments)[payment].amount - F.CompletedSum(old(refunds), payment)
    {
      F.ServeRefund(Snapshot(), payment, amount, id, stripeOk);
      var refund := DecideRefund(payment, amount);
      if refund.None? { return false; }
      ok := CarryOutRefund(payment, refund.value.0, id, stripeOk, refund.value.1);
    }
  }
}
