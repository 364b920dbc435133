/** refundPayment over serial runs, mixed with payments, top-ups and webhook deliveries. */
module Refunds {
  import opened Options
  import opened Bank
  import S = StripeEvents
  import C = Coupons

  /** sumCompletedByPayment */
  function CompletedSum(refunds: seq<Refund>, payment: nat): nat {
    if refunds == [] then 0
    else
      var last := refunds[|refunds| - 1];
      CompletedSum(refunds[..|refunds| - 1], payment)
      + if last.payment == payment && last.completed then last.amount else 0
  }

  const TOLERANCE := 0.001

  predicate Refundable(s: Status) { s == COMPLETED || s == PARTIALLY_REFUNDED }

  /** The condition on which refundPayment throws; the service computes in dollars. */
  predicate AmountRefused(refund: int, remaining: int) {
    C.Dollars(refund) <= 0.0 || C.Dollars(refund) > C.Dollars(remaining) + TOLERANCE
  }

  function NewStatus(total: int, amount: int): Status {
    if C.Dollars(total) >= C.Dollars(amount) - TOLERANCE then REFUNDED else PARTIALLY_REFUNDED
  }

  /** On cent amounts the 0.001 tolerance is exact: it admits nothing above the remainder and
      nothing short of the full amount. */
  lemma ToleranceIsExact(refund: int, remaining: int, total: int, amount: int)
    ensures AmountRefused(refund, remaining) <==> refund <= 0 || refund > remaining
    ensures NewStatus(total, amount) == REFUNDED <==> total >= amount
  {
  }

  /** The transaction that refundPayment runs, or None where it throws.  `id` is the new refund
      row's id and `stripeOk` whether Stripe reports the refund as succeeded. */
  function RefundTxn(b: Books, payment: nat, amount: Option<int>, id: nat, stripeOk: bool): Option<Txn> {
    if payment >= |b.payments| || !Refundable(b.payments[payment].status) then None
    else
      var p := b.payments[payment];
      var already := CompletedSum(b.refunds, payment);
      var remaining := p.amount as int - already as int;
      var refund := if amount.Some? then amount.value else remaining;
      if AmountRefused(refund, remaining) then None
      else
        ToleranceIsExact(refund, remaining, 0, 0);
        var status := NewStatus(already + refund, p.amount);
        if p.provider == STRIPE then Some(RefundToCard(id, payment, refund, stripeOk, status))
        else Some(RefundToWallet(id, payment, refund, status))
  }

  datatype Call =
    | RefundPayment(payment: nat, amount: Option<int>, id: nat, stripeOk: bool)
    | Webhook(event: S.Event)
    | Plain(txn: Txn)     // a top-up, an adjustment or a payment

  function Serve(b: Books, c: Call): Books {
    match c
    case RefundPayment(payment, amount, id, stripeOk) =>
      var t := RefundTxn(b, payment, amount, id, stripeOk);
      if t.Some? then Apply(b, t.value) else b
    case Webhook(e) => S.Handle(b, e)
    case Plain(t) => if t.TopUp? || t.Adjust? || t.PayFromWallet? || t.PayCash? || t.PayCard? then Apply(b, t) else b
  }

  function ServeAll(b: Books, calls: seq<Call>): Books {
    if calls == [] then b else Serve(ServeAll(b, calls[..|calls| - 1]), calls[|calls| - 1])
  }

  /** What refundPayment does to the tables: a payment that was completed and not refunded in full
      is refunded by the amount asked for, or by the remainder if none is, through the payment's
      own channel; anything outside (0, remainder] is refused. */
  lemma RefundTables(b: Books, payment: nat, amount: Option<int>, id: nat, stripeOk: bool)
    ensures var t := Serve(b, RefundPayment(payment, amount, id, stripeOk));
      if payment >= |b.payments| then t == b
      else
        var p := b.payments[payment];
        var remaining := p.amount as int - CompletedSum(b.refunds, payment) as int;
        var x := if amount.Some? then amount.value else remaining;
        if (p.status == COMPLETED || p.status == PARTIALLY_REFUNDED) && 0 < x <= remaining
           && (forall i :: 0 <= i < |b.refunds| ==> b.refunds[i].id != id)
           && (p.provider != STRIPE ==>
                 && p.payer in b.wallets
                 && forall i | 0 <= i < |b.ledger| && b.ledger[i].wallet == p.payer ::
                      b.ledger[i].reason == REFUND ==> b.ledger[i].reference != Some(id))
        then
          && t.refunds == b.refunds + [Refund(id, payment, x, p.provider != STRIPE || stripeOk)]
          && t.payments
               == b.payments[payment := p.(status := if x == remaining then REFUNDED else PARTIALLY_REFUNDED)]
          && if p.provider == STRIPE then t.wallets == b.wallets && t.ledger == b.ledger
             else t.wallets == b.wallets[p.payer := b.wallets[p.payer] + x]
                  && t.ledger == b.ledger + [Entry(p.payer, CREDIT, REFUND, x, b.wallets[p.payer] + x, Some(id))]
        else t == b
  {
    if payment < |b.payments| {
      var p := b.payments[payment];
      var already := CompletedSum(b.refunds, payment);
      var remaining := p.amount as int - already as int;
      var x := if amount.Some? then amount.value else remaining;
      ToleranceIsExact(x, remaining, already + x, p.amount);
    }
  }

  /** What a call asks for: the given amount, or all that is left. */
  function Asked(b: Books, payment: nat, amount: Option<int>): int
    requires payment < |b.payments|
  {
    if amount.Some? then amount.value else b.payments[payment].amount as int - CompletedSum(b.refunds, payment) as int
  }

  /** The guards of refundPayment pass. */
  predicate MayRefund(b: Books, payment: nat, amount: Option<int>) {
    && payment < |b.payments| && Refundable(b.payments[payment].status)
    && 0 < Asked(b, payment, amount)
         <= b.payments[payment].amount as int - CompletedSum(b.refunds, payment) as int
  }

  /** The transaction of either channel. */
  function RefundBy(p: Payment, id: nat, payment: nat, amount: nat, stripeOk: bool, status: Status): Txn {
    if p.provider == STRIPE then RefundToCard(id, payment, amount, stripeOk, status)
    else RefundToWallet(id, payment, amount, status)
  }

  /** The call runs that transaction once the guards have passed, and nothing otherwise. */
  lemma ServeRefund(b: Books, payment: nat, amount: Option<int>, id: nat, stripeOk: bool)
    ensures Serve(b, RefundPayment(payment, amount, id, stripeOk))
      == if !MayRefund(b, payment, amount) then b
         else Apply(b, RefundBy(b.payments[payment], id, payment, Asked(b, payment, amount), stripeOk,
                NewStatus(CompletedSum(b.refunds, payment) + Asked(b, payment, amount), b.payments[payment].amount)))
  {
    if payment < |b.payments| {
      var already := CompletedSum(b.refunds, payment);
      ToleranceIsExact(Asked(b, payment, amount), b.payments[payment].amount as int - already as int, 0, 0);
    }
  }

  // ------------------------------------------------------------- invariant

  function ExactStatus(sum: nat, amount: nat): Status {
    if sum == 0 then COMPLETED else if sum == amount then REFUNDED else PARTIALLY_REFUNDED
  }

  predicate RowOk(p: Payment, sum: nat) {
    && sum <= p.amount
    && (p.provider != STRIPE ==> p.status == ExactStatus(sum, p.amount) && p.intent == None)
  }

  predicate RefundsOk(b: Books) {
    && (forall r :: r in b.refunds ==> r.payment < |b.payments|)
    && (forall i :: 0 <= i < |b.payments| ==> RowOk(b.payments[i], CompletedSum(b.refunds, i)))
  }

  lemma {:induction false} NoRefunds(refunds: seq<Refund>, payment: nat)
    requires forall r :: r in refunds ==> r.payment != payment
    ensures CompletedSum(refunds, payment) == 0
  {
    if refunds != [] {
      assert refunds[|refunds| - 1] in refunds;
      NoRefunds(refunds[..|refunds| - 1], payment);
    }
  }

  lemma InsertOk(b: Books, t: Books, p: Payment)
    requires RefundsOk(b) && t.refunds == b.refunds && t.payments == b.payments + [p]
    requires p.provider != STRIPE ==> p.status == COMPLETED && p.intent == None
    ensures RefundsOk(t)
  {
    NoRefunds(b.refunds, |b.payments|);
    forall i | 0 <= i < |t.payments| ensures RowOk(t.payments[i], CompletedSum(t.refunds, i)) {
      assert i < |b.payments| ==> RowOk(b.payments[i], CompletedSum(b.refunds, i));
    }
  }

  lemma PlainOk(b: Books, t: Txn)
    requires RefundsOk(b)
    ensures RefundsOk(Serve(b, Plain(t)))
  {
    var u := Serve(b, Plain(t));
    if u.payments != b.payments {
      InsertOk(b, u, u.payments[|b.payments|]);
    }
  }

  lemma WebhookOk(b: Books, e: S.Event)
    requires RefundsOk(b)
    ensures RefundsOk(S.Handle(b, e))
  {
  }

  lemma SumAppend(refunds: seq<Refund>, r: Refund, payment: nat)
    ensures CompletedSum(refunds + [r], payment)
            == CompletedSum(refunds, payment) + if r.payment == payment && r.completed then r.amount else 0
  {
  }

  lemma RefundOk(b: Books, payment: nat, amount: Option<int>, id: nat, stripeOk: bool)
    requires RefundsOk(b)
    ensures RefundsOk(Serve(b, RefundPayment(payment, amount, id, stripeOk)))
  {
    var u := Serve(b, RefundPayment(payment, amount, id, stripeOk));
    var o := RefundTxn(b, payment, amount, id, stripeOk);
    if o.Some? && u != b {
      var p, already := b.payments[payment], CompletedSum(b.refunds, payment);
      assert RowOk(p, already);
      var refund := o.value.amount;
      ToleranceIsExact(refund, p.amount - already, already + refund, p.amount);
      var r := Refund(id, payment, refund, if p.provider == STRIPE then stripeOk else true);
      assert u.refunds == b.refunds + [r] && u.payments == b.payments[payment := p.(status := o.value.status)];
      RefundedRowOk(b, u, r, o.value.status);
    }
  }

  lemma RefundedRowOk(b: Books, u: Books, r: Refund, status: Status)
    requires RefundsOk(b) && r.payment < |b.payments|
    requires u.refunds == b.refunds + [r]
    requires u.payments == b.payments[r.payment := b.payments[r.payment].(status := status)]
    requires var p, total := b.payments[r.payment], CompletedSum(b.refunds, r.payment) + r.amount;
      0 < r.amount && total <= p.amount
      && (p.provider != STRIPE ==> r.completed && status == if total >= p.amount then REFUNDED else PARTIALLY_REFUNDED)
    ensures RefundsOk(u)
  {
  }

  lemma {:induction false} ServeAllOk(b: Books, calls: seq<Call>)
    requires Opening(b)
    ensures RefundsOk(ServeAll(b, calls))
  {
    if calls != [] {
      var front := calls[..|calls| - 1];
      ServeAllOk(b, front);
      match calls[|calls| - 1]
      case RefundPayment(payment, amount, id, stripeOk) => RefundOk(ServeAll(b, front), payment, amount, id, stripeOk);
      case Webhook(e) => WebhookOk(ServeAll(b, front), e);
      case Plain(t) => PlainOk(ServeAll(b, front), t);
    }
  }

  // ----------------------------------------------------------- main result

  /** Completed refunds never exceed the payment.  A WALLET or CASH payment is COMPLETED iff
      nothing has been refunded, else REFUNDED iff everything has, else PARTIALLY_REFUNDED. */
  lemma {:induction false} RefundsNeverExceed(b: Books, calls: seq<Call>, i: nat)
    requires Opening(b) && i < |ServeAll(b, calls).payments|
    ensures var t := ServeAll(b, calls);
      var p, sum := t.payments[i], CompletedSum(t.refunds, i);
      && sum <= p.amount
      && (p.provider != STRIPE ==>
            && (p.status == COMPLETED <==> sum == 0)
            && (p.status == REFUNDED <==> sum != 0 && sum == p.amount)
            && (p.status == PARTIALLY_REFUNDED <==> 0 < sum < p.amount))
  {
    ServeAllOk(b, calls);
    var t := ServeAll(b, calls);
    assert RowOk(t.payments[i], CompletedSum(t.refunds, i));
  }

  // ------------------------------------------------------ card payments

  /** What has happened to one payment: successes and failures delivered for it, and refunds that
      went through, with what Stripe made of them. */
  datatype Effect = Success | Failure | RefundOf(amount: nat, completed: bool)

  function EffectOf(b: Books, c: Call, i: nat): seq<Effect> {
    match c
    case Webhook(e) =>
      if i >= |b.payments| || e.intent.topUp || !S.IsFor(b.payments[i], e.intent.id) then []
      else if e.kind == S.Succeeded then [Success]
      else if e.kind == S.PaymentFailed then [Failure]
      else []
    case RefundPayment(payment, _, _, _) =>
      var refunds := Serve(b, c).refunds;
      if payment == i && |refunds| > |b.refunds|
      then [RefundOf(refunds[|refunds| - 1].amount, refunds[|refunds| - 1].completed)] else []
    case Plain(_) => []
  }

  function History(b: Books, calls: seq<Call>, i: nat): seq<Effect> {
    if calls == [] then []
    else
      var front := calls[..|calls| - 1];
      History(b, front, i) + EffectOf(ServeAll(b, front), calls[|calls| - 1], i)
  }

  function Refunded(h: seq<Effect>): nat {
    if h == [] then 0
    else
      var last := h[|h| - 1];
      Refunded(h[..|h| - 1]) + if last.RefundOf? && last.completed then last.amount else 0
  }

  /** Whether a history leaves a card payment with the right status.  Failures do not matter once
      a success came; the last success or refund decides.  A success must not follow a completed
      refund; a refund must be completed itself, or leave part of a payment that was partly
      refunded before. */
  predicate EndsExact(h: seq<Effect>, amount: nat) {
    h != [] &&
    var front := h[..|h| - 1];
    match h[|h| - 1]
    case Failure => EndsExact(front, amount)
    case Success => Refunded(front) == 0
    case RefundOf(a, completed) => completed || 0 < Refunded(front) < amount - a
  }

  /** The status says what the completed refunds say. */
  predicate StatusExact(b: Books, i: nat)
    requires i < |b.payments|
  {
    b.payments[i].status == ExactStatus(CompletedSum(b.refunds, i), b.payments[i].amount)
  }

  predicate Explained(b: Books, i: nat, h: seq<Effect>)
    requires i < |b.payments|
  {
    && CompletedSum(b.refunds, i) == Refunded(h)
    && (StatusExact(b, i) <==> EndsExact(h, b.payments[i].amount))
  }

  lemma HistoryAppend(h: seq<Effect>, e: Effect)
    ensures (h + [e])[..|h|] == h
    ensures Refunded(h + [e]) == Refunded(h) + if e.RefundOf? && e.completed then e.amount else 0
  {
    assert (h + [e])[..|h|] == h;
  }

  /** What an event does to one payment row. */
  function AfterEvent(p: Payment, effects: seq<Effect>): Payment {
    if effects == [Success] then p.(status := COMPLETED)
    else if effects == [Failure] && p.status == PENDING then p.(status := FAILED)
    else p
  }

  lemma WebhookEffect(b: Books, e: S.Event, i: nat)
    requires UniquePayments(b.payments) && i < |b.payments|
    ensures var t := S.Handle(b, e);
      t.refunds == b.refunds && |t.payments| == |b.payments|
      && t.payments[i] == AfterEvent(b.payments[i], EffectOf(b, Webhook(e), i))
  {
    var found := S.FindByIntent(b.payments, e.intent.id);
    assert S.IsFor(b.payments[i], e.intent.id) ==> found == Some(i);
  }

  lemma EventExplained(b: Books, t: Books, i: nat, h: seq<Effect>, e: Effect)
    requires i < |b.payments| && i < |t.payments| && !e.RefundOf? && Explained(b, i, h)
    requires t.refunds == b.refunds && t.payments[i] == AfterEvent(b.payments[i], [e])
    ensures Explained(t, i, h + [e])
  {
    HistoryAppend(h, e);
  }

  lemma WebhookExplained(b: Books, e: S.Event, i: nat, h: seq<Effect>)
    requires UniquePayments(b.payments) && i < |b.payments| && Explained(b, i, h)
    ensures i < |S.Handle(b, e).payments| && Explained(S.Handle(b, e), i, h + EffectOf(b, Webhook(e), i))
  {
    var effects := EffectOf(b, Webhook(e), i);
    WebhookEffect(b, e, i);
    if effects == [] {
      assert h + [] == h;
    } else {
      EventExplained(b, S.Handle(b, e), i, h, effects[0]);
    }
  }

  /** A refund that goes through: one row, and the status that the service computed. */
  lemma RefundEffect(b: Books, c: Call) returns (r: Refund)
    requires RefundsOk(b) && c.RefundPayment? && Serve(b, c) != b
    ensures c.payment < |b.payments| && r.payment == c.payment && Serve(b, c).refunds == b.refunds + [r]
    ensures var p, already := b.payments[c.payment], CompletedSum(b.refunds, c.payment);
      && 0 < r.amount <= p.amount - already
      && Serve(b, c).payments == b.payments[c.payment := p.(status :=
           if already + r.amount == p.amount then REFUNDED else PARTIALLY_REFUNDED)]
  {
    var o := RefundTxn(b, c.payment, c.amount, c.id, c.stripeOk).value;
    var p, already := b.payments[c.payment], CompletedSum(b.refunds, c.payment);
    assert RowOk(p, already);
    ToleranceIsExact(o.amount, p.amount - already, already + o.amount, p.amount);
    r := Refund(c.id, c.payment, o.amount, if p.provider == STRIPE then c.stripeOk else true);
    assert Serve(b, c).refunds == b.refunds + [r];
    assert Serve(b, c).payments == b.payments[c.payment := p.(status := o.status)];
  }

  lemma RefundExplained(b: Books, c: Call, i: nat, h: seq<Effect>)
    requires RefundsOk(b) && c.RefundPayment? && i < |b.payments| && Explained(b, i, h)
    ensures i < |Serve(b, c).payments| && Explained(Serve(b, c), i, h + EffectOf(b, c, i))
  {
    assert h + [] == h;
    if Serve(b, c) != b {
      var r := RefundEffect(b, c);
      assert EffectOf(b, c, i) == if r.payment == i then [RefundOf(r.amount, r.completed)] else [];
      SumAppend(b.refunds, r, i);
      OneRefundExplained(b, Serve(b, c), r, i, h);
    }
  }

  lemma OneRefundExplained(b: Books, t: Books, r: Refund, i: nat, h: seq<Effect>)
    requires i < |b.payments| == |t.payments| && Explained(b, i, h)
    requires CompletedSum(t.refunds, i) == CompletedSum(b.refunds, i)
        + if r.payment == i && r.completed then r.amount else 0
    requires r.payment != i ==> t.payments[i] == b.payments[i]
    requires r.payment == i ==>
      var p, already := b.payments[i], CompletedSum(b.refunds, i);
      0 < r.amount <= p.amount - already
      && t.payments[i] == p.(status := if already + r.amount == p.amount then REFUNDED else PARTIALLY_REFUNDED)
    ensures Explained(t, i, if r.payment == i then h + [RefundOf(r.amount, r.completed)] else h)
  {
    HistoryAppend(h, RefundOf(r.amount, r.completed));
  }

  lemma PlainExplained(b: Books, t: Txn, i: nat)
    requires RefundsOk(b)
    ensures |b.payments| <= |Serve(b, Plain(t)).payments| && Serve(b, Plain(t)).refunds == b.refunds
    ensures i < |b.payments| ==> Serve(b, Plain(t)).payments[i] == b.payments[i]
    ensures |b.payments| <= i < |Serve(b, Plain(t)).payments| && Serve(b, Plain(t)).payments[i].provider == STRIPE ==>
      Explained(Serve(b, Plain(t)), i, [])
  {
    NoRefunds(b.refunds, |b.payments|);
  }

  lemma CallsOnlyAdd(b: Books, c: Call)
    requires RefundsOk(b)
    ensures |b.payments| <= |Serve(b, c).payments|
    ensures !c.Plain? ==> |b.payments| == |Serve(b, c).payments|
    ensures forall i :: 0 <= i < |b.payments| ==> Serve(b, c).payments[i].provider == b.payments[i].provider
  {
    if c.Plain? { PlainExplained(b, c.txn, 0); }
  }

  lemma {:induction false} HistoryStartsEmpty(b: Books, calls: seq<Call>, i: nat)
    requires Opening(b) && i >= |ServeAll(b, calls).payments|
    ensures History(b, calls, i) == []
  {
    if calls != [] {
      var front := calls[..|calls| - 1];
      ServeAllOk(b, front);
      CallsOnlyAdd(ServeAll(b, front), calls[|calls| - 1]);
      HistoryStartsEmpty(b, front, i);
    }
  }

  lemma {:induction false} ServeAllSound(b: Books, calls: seq<Call>)
    requires Opening(b)
    ensures Sound(ServeAll(b, calls))
  {
    if calls == [] {
      AllSound(b, []);
    } else {
      var front, c := calls[..|calls| - 1], calls[|calls| - 1];
      ServeAllSound(b, front);
      ServeSound(ServeAll(b, front), c);
    }
  }

  lemma ServeSound(b: Books, c: Call)
    requires Sound(b)
    ensures Sound(Serve(b, c))
  {
    match c
    case RefundPayment(payment, amount, id, stripeOk) =>
      var t := RefundTxn(b, payment, amount, id, stripeOk);
      if t.Some? { ApplySound(b, t.value); }
    case Webhook(e) =>
      var t := S.Reaction(b, e);
      if t.Some? { ApplySound(b, t.value); }
    case Plain(t) => ApplySound(b, t);
  }

  lemma {:induction false} CardExplained(b: Books, calls: seq<Call>, i: nat)
    requires Opening(b) && i < |ServeAll(b, calls).payments| && ServeAll(b, calls).payments[i].provider == STRIPE
    ensures Explained(ServeAll(b, calls), i, History(b, calls, i))
  {
    var front, c := calls[..|calls| - 1], calls[|calls| - 1];
    var t, h := ServeAll(b, front), History(b, front, i);
    ServeAllOk(b, front);
    ServeAllSound(b, front);
    CallsOnlyAdd(t, c);
    if i >= |t.payments| {
      HistoryStartsEmpty(b, front, i);
      PlainExplained(t, c.txn, i);
    } else {
      CardExplained(b, front, i);
      match c
      case Webhook(e) => WebhookExplained(t, e, i, h);
      case RefundPayment(_, _, _, _) => RefundExplained(t, c, i, h);
      case Plain(txn) =>
        PlainExplained(t, txn, i);
        assert h + [] == h;
    }
  }

  /** In every serial run a card payment's status is exact if and only if its history ends so. */
  lemma {:induction false} CardStatusExactIff(b: Books, calls: seq<Call>, i: nat)
    requires Opening(b) && i < |ServeAll(b, calls).payments| && ServeAll(b, calls).payments[i].provider == STRIPE
    ensures var t := ServeAll(b, calls);
      t.payments[i].status == ExactStatus(CompletedSum(t.refunds, i), t.payments[i].amount)
      <==> EndsExact(History(b, calls, i), t.payments[i].amount)
  {
    CardExplained(b, calls, i);
  }

  /** The plain case: a success came, no refund of it was left pending, and no success came after
      a refund. */
  predicate PlainHistory(h: seq<Effect>) {
    && Success in h
    && (forall k :: 0 <= k < |h| && h[k].RefundOf? ==> h[k].completed)
    && (forall k, l :: 0 <= k < l < |h| && h[k].RefundOf? ==> h[l] != Success)
  }

  lemma {:induction false} NothingRefunded(h: seq<Effect>)
    requires forall k :: 0 <= k < |h| ==> !h[k].RefundOf?
    ensures Refunded(h) == 0
  {
    if h != [] { NothingRefunded(h[..|h| - 1]); }
  }

  lemma {:induction false} PlainHistoryIsExact(h: seq<Effect>, amount: nat)
    requires PlainHistory(h)
    ensures EndsExact(h, amount)
  {
    var front, last := h[..|h| - 1], h[|h| - 1];
    assert h == front + [last];
    if last == Failure {
      PlainHistoryIsExact(front, amount);
    } else if last == Success {
      NothingRefunded(front);
    }
  }

  // Two runs that end otherwise.  A card payment of 5.00 succeeds and is refunded in full; in the
  // first, its success is then delivered again; in the second, Stripe leaves the refund pending.
  const INTENT := S.Intent(77, false, 1, 500)
  const SUCCESS := Webhook(S.Event(S.Succeeded, INTENT))
  const PAID: seq<Call> := [Plain(PayCard(1, 10, 500, 77)), SUCCESS]
  const REDELIVERED := PAID + [RefundPayment(0, None, 3, true)] + [SUCCESS]
  const LEFT_PENDING := PAID + [RefundPayment(0, None, 3, false)]
  const START := Books(map[1 := 0], [], [], [])

  function CardBooks(status: Status, refunds: seq<Refund>): Books {
    Books(map[1 := 0], [], [Payment(10, 1, 500, STRIPE, status, Some(77))], refunds)
  }

  lemma ServeOneMore(calls: seq<Call>, c: Call)
    ensures ServeAll(START, calls + [c]) == Serve(ServeAll(START, calls), c)
  {
    assert (calls + [c])[..|calls|] == calls;
  }

  lemma SuccessCompletes(status: Status, refunds: seq<Refund>)
    ensures Serve(CardBooks(status, refunds), SUCCESS) == CardBooks(COMPLETED, refunds)
  {
    var b := CardBooks(status, refunds);
    assert S.IsFor(b.payments[0], 77);
    assert S.FindByIntent(b.payments, 77) == Some(0);
  }

  lemma FullRefund(ok: bool)
    ensures Serve(CardBooks(COMPLETED, []), RefundPayment(0, None, 3, ok))
        == CardBooks(REFUNDED, [Refund(3, 0, 500, ok)])
  {
    ToleranceIsExact(500, 500, 500, 500);
  }

  lemma PaidRun()
    ensures ServeAll(START, PAID) == CardBooks(COMPLETED, [])
  {
    assert PAID == [] + [PAID[0]] + [SUCCESS];
    ServeOneMore([], PAID[0]);
    assert Serve(START, PAID[0]) == CardBooks(PENDING, []);
    ServeOneMore([] + [PAID[0]], SUCCESS);
    SuccessCompletes(PENDING, []);
  }

  /** A redelivered success: the whole amount is refunded and the status reads COMPLETED. */
  lemma CardStatusCanLie()
    ensures var t := ServeAll(START, REDELIVERED);
      |t.payments| == 1 && t.payments[0].status == COMPLETED && CompletedSum(t.refunds, 0) == t.payments[0].amount
  {
    var r := Refund(3, 0, 500, true);
    PaidRun();
    FullRefund(true);
    ServeOneMore(PAID, RefundPayment(0, None, 3, true));
    SuccessCompletes(REFUNDED, [r]);
    ServeOneMore(PAID + [RefundPayment(0, None, 3, true)], SUCCESS);
    SumAppend([], r, 0);
    assert [] + [r] == [r];
  }

  /** A refund that Stripe leaves pending: nothing is refunded and the status reads REFUNDED; the
      next redelivered success makes it right again. */
  lemma PendingRefundCanLie()
    ensures var t := ServeAll(START, LEFT_PENDING);
      |t.payments| == 1 && t.payments[0].status == REFUNDED && CompletedSum(t.refunds, 0) == 0
    ensures var t := ServeAll(START, LEFT_PENDING + [SUCCESS]);
      |t.payments| == 1 && t.payments[0].status == COMPLETED && CompletedSum(t.refunds, 0) == 0
  {
    var r := Refund(3, 0, 500, false);
    PaidRun();
    FullRefund(false);
    ServeOneMore(PAID, RefundPayment(0, None, 3, false));
    SuccessCompletes(REFUNDED, [r]);
    ServeOneMore(LEFT_PENDING, SUCCESS);
    SumAppend([], r, 0);
    assert [] + [r] == [r];
  }
}
