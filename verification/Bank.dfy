/** Wallets, the append-only ledger, payments and refunds, and the transactions the wallet and
    payment services run against them.

    A wallet belongs to one user and is keyed by that user.  Amounts are in cents.  The unique
    keys are those of the schema: (wallet, reason, referenceId) for ledger rows, rideId and
    stripePaymentIntentId for payments.  A transaction that hits one rolls back whole. */
module Bank {
  import opened Options

  datatype Reason = TOPUP | RIDE_PAYMENT | REFUND | ADJUSTMENT

  datatype Kind = CREDIT | DEBIT

  datatype Entry = Entry(wallet: nat, kind: Kind, reason: Reason, amount: nat, balanceAfter: int,
                         reference: Option<nat>)

  datatype Status = PENDING | COMPLETED | FAILED | REFUNDED | PARTIALLY_REFUNDED

  datatype Provider = CASH | WALLET | STRIPE

  datatype Payment = Payment(ride: nat, payer: nat, amount: nat, provider: Provider, status: Status,
                             intent: Option<nat>)

  /** `completed` is status COMPLETED; the only other status written is PENDING. */
  datatype Refund = Refund(id: nat, payment: nat, amount: nat, completed: bool)

  datatype Books = Books(wallets: map<nat, int>, ledger: seq<Entry>, payments: seq<Payment>, refunds: seq<Refund>)

  // ----------------------------------------------------------- statements

  predicate CanDebit(b: Books, user: nat, amount: nat) {
    user in b.wallets && b.wallets[user] >= amount
  }

  function Moved(b: Books, user: nat, delta: int): Books
    requires user in b.wallets
  {
    b.(wallets := b.wallets[user := b.wallets[user] + delta])
  }

  /** The ledger's unique key; NULL references never clash. */
  predicate KeyTaken(ledger: seq<Entry>, wallet: nat, reason: Reason, reference: Option<nat>) {
    reference.Some?
    && exists i | 0 <= i < |ledger| ::
         ledger[i].wallet == wallet && ledger[i].reason == reason && ledger[i].reference == reference
  }

  predicate RidePaid(payments: seq<Payment>, ride: nat) {
    exists i | 0 <= i < |payments| :: payments[i].ride == ride
  }

  predicate IntentTaken(payments: seq<Payment>, intent: Option<nat>) {
    intent.Some? && exists i | 0 <= i < |payments| :: payments[i].intent == intent
  }

  predicate RefundIdTaken(refunds: seq<Refund>, id: nat) {
    exists i | 0 <= i < |refunds| :: refunds[i].id == id
  }

  function SignedAmount(kind: Kind, amount: nat): int {
    if kind == CREDIT then amount as int else -(amount as int)
  }

  /** Balance change, read-back and ledger insert, as one unit; None if the key clashes. */
  function Posted(b: Books, user: nat, kind: Kind, reason: Reason, amount: nat, reference: Option<nat>): Option<Books>
    requires user in b.wallets
  {
    var moved := Moved(b, user, SignedAmount(kind, amount));
    if KeyTaken(b.ledger, user, reason, reference) then None
    else Some(moved.(ledger := b.ledger + [Entry(user, kind, reason, amount, moved.wallets[user], reference)]))
  }

  /** paymentRepository.create; None if a unique key clashes. */
  function Inserted(b: Books, p: Payment): Option<Books> {
    if RidePaid(b.payments, p.ride) || IntentTaken(b.payments, p.intent) then None
    else Some(b.(payments := b.payments + [p]))
  }

  function WithStatus(b: Books, payment: nat, status: Status): Books {
    if payment < |b.payments|
    then b.(payments := b.payments[payment := b.payments[payment].(status := status)])
    else b
  }

  // --------------------------------------------------------- transactions

  datatype Txn =
    | TopUp(user: nat, amount: nat, intent: nat)
    | Adjust(user: nat, delta: int)
    | PayFromWallet(user: nat, ride: nat, amount: nat)
    | PayCash(user: nat, ride: nat, amount: nat)
    | PayCard(user: nat, ride: nat, amount: nat, intent: nat)
    | RefundToWallet(id: nat, payment: nat, amount: nat, status: Status)
    | RefundToCard(id: nat, payment: nat, amount: nat, completed: bool, status: Status)
    | Settle(payment: nat, status: Status)      // a webhook's status update

  function Or(o: Option<Books>, b: Books): Books {
    if o.Some? then o.value else b
  }

  /** All of the transaction, or nothing. */
  function Apply(b: Books, t: Txn): Books {
    match t
    case TopUp(user, amount, intent) =>
      if user in b.wallets then Or(Posted(b, user, CREDIT, TOPUP, amount, Some(intent)), b) else b
    case Adjust(user, delta) =>
      if user !in b.wallets then b
      else if delta >= 0 then Or(Posted(b, user, CREDIT, ADJUSTMENT, delta, None), b)
      else if CanDebit(b, user, -delta) then Or(Posted(b, user, DEBIT, ADJUSTMENT, -delta, None), b)
      else b
    case PayFromWallet(user, ride, amount) =>
      if !CanDebit(b, user, amount) then b
      else
        var debited := Posted(b, user, DEBIT, RIDE_PAYMENT, amount, Some(ride));
        if debited.None? then b
        else Or(Inserted(debited.value, Payment(ride, user, amount, WALLET, COMPLETED, None)), b)
    case PayCash(user, ride, amount) => Or(Inserted(b, Payment(ride, user, amount, CASH, COMPLETED, None)), b)
    case PayCard(user, ride, amount, intent) =>
      Or(Inserted(b, Payment(ride, user, amount, STRIPE, PENDING, Some(intent))), b)
    case RefundToWallet(id, payment, amount, status) =>
      if payment < |b.payments| && b.payments[payment].provider != STRIPE && !RefundIdTaken(b.refunds, id)
         && b.payments[payment].payer in b.wallets
      then
        var recorded := b.(refunds := b.refunds + [Refund(id, payment, amount, true)]);
        var credited := Posted(recorded, b.payments[payment].payer, CREDIT, REFUND, amount, Some(id));
        if credited.None? then b else WithStatus(credited.value, payment, status)
      else b
    case RefundToCard(id, payment, amount, completed, status) =>
      if payment < |b.payments| && b.payments[payment].provider == STRIPE && !RefundIdTaken(b.refunds, id)
      then WithStatus(b.(refunds := b.refunds + [Refund(id, payment, amount, completed)]), payment, status)
      else b
    case Settle(payment, status) => WithStatus(b, payment, status)
  }

  function ApplyAll(b: Books, ts: seq<Txn>): Books {
    if ts == [] then b else Apply(ApplyAll(b, ts[..|ts| - 1]), ts[|ts| - 1])
  }

  // ------------------------------------------------------ reconciliation

  function Signed(e: Entry): int {
    SignedAmount(e.kind, e.amount)
  }

  /** Credits minus debits of one wallet. */
  function Net(ledger: seq<Entry>, wallet: nat): int {
    if ledger == [] then 0
    else
      var last := ledger[|ledger| - 1];
      Net(ledger[..|ledger| - 1], wallet) + if last.wallet == wallet then Signed(last) else 0
  }

  predicate SameKey(e: Entry, f: Entry) {
    e.reference.Some? && e.wallet == f.wallet && e.reason == f.reason && e.reference == f.reference
  }

  predicate UniqueKeys(ledger: seq<Entry>) {
    forall i, j :: 0 <= i < j < |ledger| ==> !SameKey(ledger[i], ledger[j])
  }

  ghost predicate Balanced(b: Books) {
    && (forall u :: u in b.wallets ==> b.wallets[u] == Net(b.ledger, u) && b.wallets[u] >= 0)
    && (forall k :: 0 <= k < |b.ledger| ==>
          b.ledger[k].wallet in b.wallets && b.ledger[k].balanceAfter == Net(b.ledger[..k + 1], b.ledger[k].wallet))
    && UniqueKeys(b.ledger)
  }

  predicate UniquePayments(payments: seq<Payment>) {
    forall i, j :: 0 <= i < j < |payments| ==>
      payments[i].ride != payments[j].ride && (payments[i].intent.Some? ==> payments[i].intent != payments[j].intent)
  }

  predicate UniqueRefunds(refunds: seq<Refund>) {
    forall i, j :: 0 <= i < j < |refunds| ==> refunds[i].id != refunds[j].id
  }

  /** The debit that paid for a ride from a wallet. */
  predicate PaidBy(e: Entry, p: Payment) {
    e.reason == RIDE_PAYMENT && e.kind == DEBIT && p.provider == WALLET
    && e.reference == Some(p.ride) && e.amount == p.amount && e.wallet == p.payer
  }

  /** The credit that carried a refund. */
  predicate CarriedBy(e: Entry, r: Refund, payments: seq<Payment>) {
    e.reason == REFUND && e.kind == CREDIT && e.reference == Some(r.id) && e.amount == r.amount && r.completed
    && r.payment < |payments| && payments[r.payment].provider != STRIPE && payments[r.payment].payer == e.wallet
  }

  predicate Payment1(b: Books, e: Entry) {
    exists i :: 0 <= i < |b.payments| && PaidBy(e, b.payments[i])
  }

  predicate Debit1(b: Books, p: Payment) {
    exists k :: 0 <= k < |b.ledger| && PaidBy(b.ledger[k], p)
  }

  predicate Refund1(b: Books, e: Entry) {
    exists i :: 0 <= i < |b.refunds| && CarriedBy(e, b.refunds[i], b.payments)
  }

  predicate Credit1(b: Books, r: Refund) {
    exists k :: 0 <= k < |b.ledger| && CarriedBy(b.ledger[k], r, b.payments)
  }

  predicate Reconciled(b: Books) {
    && UniquePayments(b.payments) && UniqueRefunds(b.refunds)
    && (forall e :: e in b.ledger && e.reason == RIDE_PAYMENT ==> Payment1(b, e))
    && (forall p :: p in b.payments && p.provider == WALLET ==> Debit1(b, p))
    && (forall e :: e in b.ledger && e.reason == REFUND ==> Refund1(b, e))
    && (forall r :: r in b.refunds ==> r.payment < |b.payments|)
    && (forall r :: r in b.refunds && b.payments[r.payment].provider != STRIPE ==> Credit1(b, r))
  }

  ghost predicate Sound(b: Books) {
    Balanced(b) && Reconciled(b)
  }

  /** Empty books: wallets exist and hold nothing. */
  predicate Opening(b: Books) {
    b.ledger == [] && b.payments == [] && b.refunds == [] && forall u :: u in b.wallets ==> b.wallets[u] == 0
  }

  // ------------------------------------------- each transaction keeps Sound

  lemma NetAppend(ledger: seq<Entry>, e: Entry, wallet: nat)
    ensures Net(ledger + [e], wallet) == Net(ledger, wallet) + if e.wallet == wallet then Signed(e) else 0
  {
  }

  lemma KeysStayUnique(ledger: seq<Entry>, e: Entry)
    requires UniqueKeys(ledger) && !KeyTaken(ledger, e.wallet, e.reason, e.reference)
    ensures UniqueKeys(ledger + [e])
  {
    var t := ledger + [e];
    forall i, j | 0 <= i < j < |t| ensures !SameKey(t[i], t[j]) {
      assert t[i] == ledger[i];
      if j < |ledger| { assert t[j] == ledger[j] && !SameKey(ledger[i], ledger[j]); }
    }
  }

  lemma BalanceKept(b: Books, e: Entry, u: nat)
    requires Balanced(b) && u in b.wallets && e.wallet in b.wallets
    requires e.wallet == u ==> b.wallets[u] + Signed(e) >= 0
    ensures var after := if e.wallet == u then b.wallets[u] + Signed(e) else b.wallets[u];
      after == Net(b.ledger + [e], u) && after >= 0
  {
    NetAppend(b.ledger, e, u);
  }

  lemma PrefixesKept(ledger: seq<Entry>, e: Entry, k: nat)
    requires k <= |ledger|
    requires k < |ledger| ==> ledger[k].balanceAfter == Net(ledger[..k + 1], ledger[k].wallet)
    requires e.balanceAfter == Net(ledger + [e], e.wallet)
    ensures (ledger + [e])[k].balanceAfter == Net((ledger + [e])[..k + 1], (ledger + [e])[k].wallet)
  {
    if k < |ledger| {
      assert (ledger + [e])[..k + 1] == ledger[..k + 1];
    } else {
      assert (ledger + [e])[..k + 1] == ledger + [e];
    }
  }

  lemma EntryBalanced(b: Books, t: Books, e: Entry)
    requires Balanced(b) && e.wallet in b.wallets && b.wallets[e.wallet] + Signed(e) >= 0
    requires t.wallets == b.wallets[e.wallet := b.wallets[e.wallet] + Signed(e)] && t.ledger == b.ledger + [e]
    requires e.balanceAfter == t.wallets[e.wallet] && !KeyTaken(b.ledger, e.wallet, e.reason, e.reference)
    ensures Balanced(t)
  {
    forall u | u in t.wallets ensures t.wallets[u] == Net(t.ledger, u) && t.wallets[u] >= 0 {
      BalanceKept(b, e, u);
    }
    forall k | 0 <= k < |t.ledger|
      ensures t.ledger[k].wallet in t.wallets && t.ledger[k].balanceAfter == Net(t.ledger[..k + 1], t.ledger[k].wallet)
    {
      PrefixesKept(b.ledger, e, k);
    }
    KeysStayUnique(b.ledger, e);
  }

  lemma PostedBalanced(b: Books, user: nat, kind: Kind, reason: Reason, amount: nat, reference: Option<nat>)
    requires Balanced(b) && user in b.wallets && (kind == DEBIT ==> CanDebit(b, user, amount))
    ensures var t := Posted(b, user, kind, reason, amount, reference);
      t.Some? ==>
        && Balanced(t.value) && t.value.payments == b.payments && t.value.refunds == b.refunds
        && t.value.wallets.Keys == b.wallets.Keys
        && |t.value.ledger| == |b.ledger| + 1 && t.value.ledger[..|b.ledger|] == b.ledger
        && var e := t.value.ledger[|b.ledger|];
           e == Entry(user, kind, reason, amount, t.value.wallets[user], reference)
  {
    var o := Posted(b, user, kind, reason, amount, reference);
    if o.Some? {
      assert b.wallets[user] >= 0;
      EntryBalanced(b, o.value, o.value.ledger[|b.ledger|]);
    }
  }

  /** Books that only grow keep every match already made. */
  predicate Grows(b: Books, t: Books) {
    && b.ledger <= t.ledger && b.refunds <= t.refunds && |b.payments| <= |t.payments|
    && forall i :: 0 <= i < |b.payments| ==> t.payments[i].(status := b.payments[i].status) == b.payments[i]
  }

  lemma MatchesKept(b: Books, t: Books)
    requires Grows(b, t) && Reconciled(b)
    ensures forall e :: e in b.ledger && e.reason == RIDE_PAYMENT ==> Payment1(t, e)
    ensures forall e :: e in b.ledger && e.reason == REFUND ==> Refund1(t, e)
    ensures forall i :: 0 <= i < |b.payments| && t.payments[i].provider == WALLET ==> Debit1(t, t.payments[i])
    ensures forall r :: r in b.refunds ==>
      r.payment < |t.payments| && (t.payments[r.payment].provider != STRIPE ==> Credit1(t, r))
  {
  }

  lemma ReconciledStep(b: Books, t: Books)
    requires Grows(b, t) && Reconciled(b) && UniquePayments(t.payments) && UniqueRefunds(t.refunds)
    requires forall k :: |b.ledger| <= k < |t.ledger| ==>
      (t.ledger[k].reason == RIDE_PAYMENT ==> Payment1(t, t.ledger[k]))
      && (t.ledger[k].reason == REFUND ==> Refund1(t, t.ledger[k]))
    requires forall i :: |b.payments| <= i < |t.payments| && t.payments[i].provider == WALLET ==>
        Debit1(t, t.payments[i])
    requires forall i :: |b.refunds| <= i < |t.refunds| ==>
      t.refunds[i].payment < |t.payments|
      && (t.payments[t.refunds[i].payment].provider != STRIPE ==> Credit1(t, t.refunds[i]))
    ensures Reconciled(t)
  {
    MatchesKept(b, t);
    forall e | e in t.ledger && (e.reason == RIDE_PAYMENT || e.reason == REFUND)
      ensures (e.reason == RIDE_PAYMENT ==> Payment1(t, e)) && (e.reason == REFUND ==> Refund1(t, e))
    {
      var k :| 0 <= k < |t.ledger| && t.ledger[k] == e;
      assert k < |b.ledger| ==> e == b.ledger[k] && e in b.ledger;
    }
    forall p | p in t.payments && p.provider == WALLET ensures Debit1(t, p) {
      var i :| 0 <= i < |t.payments| && t.payments[i] == p;
    }
    forall r | r in t.refunds
      ensures r.payment < |t.payments| && (t.payments[r.payment].provider != STRIPE ==> Credit1(t, r))
    {
      var i :| 0 <= i < |t.refunds| && t.refunds[i] == r;
      assert i < |b.refunds| ==> r == b.refunds[i] && r in b.refunds;
    }
  }

  /** Top-ups and adjustments: one ledger row, and no other table. */
  lemma PostSound(b: Books, user: nat, kind: Kind, reason: Reason, amount: nat, reference: Option<nat>)
    requires Sound(b) && user in b.wallets && (kind == DEBIT ==> CanDebit(b, user, amount))
    requires reason == TOPUP || reason == ADJUSTMENT
    ensures Sound(Or(Posted(b, user, kind, reason, amount, reference), b))
  {
    PostedBalanced(b, user, kind, reason, amount, reference);
    ReconciledStep(b, Or(Posted(b, user, kind, reason, amount, reference), b));
  }

  lemma WalletPaySound(b: Books, user: nat, ride: nat, amount: nat)
    requires Sound(b)
    ensures Sound(Apply(b, PayFromWallet(user, ride, amount)))
  {
    var t := Apply(b, PayFromWallet(user, ride, amount));
    if CanDebit(b, user, amount) && t != b {
      PostedBalanced(b, user, DEBIT, RIDE_PAYMENT, amount, Some(ride));
      var n, m := |b.ledger|, |b.payments|;
      assert PaidBy(t.ledger[n], t.payments[m]);
      ReconciledStep(b, t);
    }
  }

  lemma InsertSound(b: Books, p: Payment)
    requires Sound(b) && p.provider != WALLET
    ensures Sound(Or(Inserted(b, p), b))
  {
    ReconciledStep(b, Or(Inserted(b, p), b));
  }

  lemma StatusSound(b: Books, payment: nat, status: Status)
    requires Sound(b)
    ensures Sound(WithStatus(b, payment, status))
  {
    ReconciledStep(b, WithStatus(b, payment, status));
  }

  /** The refund row and its credit. */
  predicate Refunding(b: Books, r: Refund, t: Books) {
    && r.completed && !RefundIdTaken(b.refunds, r.id)
    && r.payment < |b.payments| && b.payments[r.payment].provider != STRIPE
    && b.payments[r.payment].payer in b.wallets
    && Posted(b.(refunds := b.refunds + [r]), b.payments[r.payment].payer,
             CREDIT, REFUND, r.amount, Some(r.id)) == Some(t)
  }

  lemma CreditedBalanced(b: Books, r: Refund, t: Books)
    requires Balanced(b) && Refunding(b, r, t)
    ensures Balanced(t)
  {
    PostedBalanced(b.(refunds := b.refunds + [r]), b.payments[r.payment].payer, CREDIT, REFUND, r.amount, Some(r.id));
  }

  lemma CreditedReconciled(b: Books, r: Refund, t: Books)
    requires Reconciled(b) && Refunding(b, r, t)
    ensures Reconciled(t)
  {
    assert CarriedBy(t.ledger[|b.ledger|], t.refunds[|b.refunds|], t.payments);
    ReconciledStep(b, t);
  }

  lemma WalletRefundSound(b: Books, id: nat, payment: nat, amount: nat, status: Status)
    requires Sound(b)
    ensures Sound(Apply(b, RefundToWallet(id, payment, amount, status)))
  {
    if payment < |b.payments| && b.payments[payment].provider != STRIPE && !RefundIdTaken(b.refunds, id)
       && b.payments[payment].payer in b.wallets {
      var r := Refund(id, payment, amount, true);
      var credited := Posted(b.(refunds := b.refunds + [r]), b.payments[payment].payer,
               CREDIT, REFUND, amount, Some(id));
      if credited.Some? {
        CreditedBalanced(b, r, credited.value);
        CreditedReconciled(b, r, credited.value);
        StatusSound(credited.value, payment, status);
      }
    }
  }

  lemma CardRefundSound(b: Books, id: nat, payment: nat, amount: nat, completed: bool, status: Status)
    requires Sound(b)
    ensures Sound(Apply(b, RefundToCard(id, payment, amount, completed, status)))
  {
    if payment < |b.payments| && b.payments[payment].provider == STRIPE && !RefundIdTaken(b.refunds, id) {
      var recorded := b.(refunds := b.refunds + [Refund(id, payment, amount, completed)]);
      ReconciledStep(b, recorded);
      StatusSound(recorded, payment, status);
    }
  }

  lemma {:induction false} ApplySound(b: Books, t: Txn)
    requires Sound(b)
    ensures Sound(Apply(b, t))
  {
    match t
    case TopUp(user, amount, intent) =>
      if user in b.wallets { PostSound(b, user, CREDIT, TOPUP, amount, Some(intent)); }
    case Adjust(user, delta) =>
      if user in b.wallets && delta >= 0 {
        PostSound(b, user, CREDIT, ADJUSTMENT, delta, None);
      } else if user in b.wallets && CanDebit(b, user, -delta) {
        PostSound(b, user, DEBIT, ADJUSTMENT, -delta, None);
      }
    case PayFromWallet(user, ride, amount) => WalletPaySound(b, user, ride, amount);
    case PayCash(user, ride, amount) => InsertSound(b, Payment(ride, user, amount, CASH, COMPLETED, None));
    case PayCard(user, ride, amount, intent) =>
      InsertSound(b, Payment(ride, user, amount, STRIPE, PENDING, Some(intent)));
    case RefundToWallet(id, payment, amount, status) => WalletRefundSound(b, id, payment, amount, status);
    case RefundToCard(id, payment, amount, completed, status) =>
      CardRefundSound(b, id, payment, amount, completed, status);
    case Settle(payment, status) => StatusSound(b, payment, status);
  }

  lemma {:induction false} AllSound(b: Books, ts: seq<Txn>)
    requires Opening(b)
    ensures Sound(ApplyAll(b, ts))
  {
    if ts != [] {
      AllSound(b, ts[..|ts| - 1]);
      ApplySound(ApplyAll(b, ts[..|ts| - 1]), ts[|ts| - 1]);
    }
  }

  // --------------------------------------------------------- main results

  /** In every state that committed and rolled-back transactions can produce, in whatever
      order: each balance is credits minus debits and never negative, and each ledger row
      records the exact running balance of its wallet. */
  lemma {:induction false} LedgerExplainsBalances(b: Books, ts: seq<Txn>)
    requires Opening(b)
    ensures var t := ApplyAll(b, ts);
      && (forall u :: u in t.wallets ==> t.wallets[u] == Net(t.ledger, u) && t.wallets[u] >= 0)
      && (forall k :: 0 <= k < |t.ledger| ==> t.ledger[k].balanceAfter == Net(t.ledger[..k + 1], t.ledger[k].wallet))
  {
    AllSound(b, ts);
  }

  /** Two debits for one ride would belong to the ride's one payment, hence to one wallet, and
      clash in the ledger's unique key. */
  lemma OneDebitPerRide(t: Books, k: nat, l: nat)
    requires Sound(t) && k < l < |t.ledger|
    requires t.ledger[k].reason == RIDE_PAYMENT && t.ledger[l].reason == RIDE_PAYMENT
    ensures t.ledger[k].reference != t.ledger[l].reference
  {
    var i := PaymentOf(t, k);
    var j := PaymentOf(t, l);
    assert t.payments[i].ride == t.payments[j].ride ==> i == j;
  }

  lemma PaymentOf(t: Books, k: nat) returns (i: nat)
    requires Reconciled(t) && k < |t.ledger| && t.ledger[k].reason == RIDE_PAYMENT
    ensures i < |t.payments| && PaidBy(t.ledger[k], t.payments[i])
  {
    assert t.ledger[k] in t.ledger && Payment1(t, t.ledger[k]);
    i :| 0 <= i < |t.payments| && PaidBy(t.ledger[k], t.payments[i]);
  }

  lemma OneCreditPerRefund(t: Books, k: nat, l: nat)
    requires Sound(t) && k < l < |t.ledger|
    requires t.ledger[k].reason == REFUND && t.ledger[l].reason == REFUND
    ensures t.ledger[k].reference != t.ledger[l].reference
  {
    var i := RefundOf(t, k);
    var j := RefundOf(t, l);
    assert t.refunds[i].id == t.refunds[j].id ==> i == j;
  }

  lemma RefundOf(t: Books, k: nat) returns (i: nat)
    requires Reconciled(t) && k < |t.ledger| && t.ledger[k].reason == REFUND
    ensures i < |t.refunds| && CarriedBy(t.ledger[k], t.refunds[i], t.payments)
  {
    assert t.ledger[k] in t.ledger && Refund1(t, t.ledger[k]);
    i :| 0 <= i < |t.refunds| && CarriedBy(t.ledger[k], t.refunds[i], t.payments);
  }

  /** Each RIDE_PAYMENT debit pays exactly one WALLET payment, of the same ride, payer and
      amount, and each WALLET payment has exactly one such debit.  So a ride is paid once and
      debited at most once, however many calls passed the "not yet paid" check. */
  lemma {:induction false} DebitsMatchPayments(b: Books, ts: seq<Txn>)
    requires Opening(b)
    ensures var t := ApplyAll(b, ts);
      && (forall i, j :: 0 <= i < j < |t.payments| ==> t.payments[i].ride != t.payments[j].ride)
      && (forall e :: e in t.ledger && e.reason == RIDE_PAYMENT ==>
            exists i :: 0 <= i < |t.payments| && PaidBy(e, t.payments[i]))
      && (forall p :: p in t.payments && p.provider == WALLET ==>
            exists k :: 0 <= k < |t.ledger| && PaidBy(t.ledger[k], p))
      && (forall k, l :: 0 <= k < l < |t.ledger| && t.ledger[k].reason == RIDE_PAYMENT
                         && t.ledger[l].reason == RIDE_PAYMENT ==>
            t.ledger[k].reference != t.ledger[l].reference)
  {
    AllSound(b, ts);
    var t := ApplyAll(b, ts);
    forall e | e in t.ledger && e.reason == RIDE_PAYMENT
      ensures exists i :: 0 <= i < |t.payments| && PaidBy(e, t.payments[i])
    {
      assert Payment1(t, e);
    }
    forall p | p in t.payments && p.provider == WALLET
      ensures exists k :: 0 <= k < |t.ledger| && PaidBy(t.ledger[k], p)
    {
      assert Debit1(t, p);
    }
    forall k, l | 0 <= k < l < |t.ledger| && t.ledger[k].reason == RIDE_PAYMENT && t.ledger[l].reason == RIDE_PAYMENT
      ensures t.ledger[k].reference != t.ledger[l].reference
    {
      OneDebitPerRide(t, k, l);
    }
  }

  /** Each REFUND credit carries exactly one refund row of a payment that was not made by card,
      to that payment's payer and for its amount, and each such refund row has its credit. */
  lemma {:induction false} CreditsMatchRefunds(b: Books, ts: seq<Txn>)
    requires Opening(b)
    ensures var t := ApplyAll(b, ts);
      && (forall i, j :: 0 <= i < j < |t.refunds| ==> t.refunds[i].id != t.refunds[j].id)
      && (forall e :: e in t.ledger && e.reason == REFUND ==>
            exists i :: 0 <= i < |t.refunds| && CarriedBy(e, t.refunds[i], t.payments))
      && (forall r :: r in t.refunds && r.payment < |t.payments| && t.payments[r.payment].provider != STRIPE ==>
            exists k :: 0 <= k < |t.ledger| && CarriedBy(t.ledger[k], r, t.payments))
      && (forall k, l :: 0 <= k < l < |t.ledger| && t.ledger[k].reason == REFUND && t.ledger[l].reason == REFUND ==>
            t.ledger[k].reference != t.ledger[l].reference)
  {
    AllSound(b, ts);
    var t := ApplyAll(b, ts);
    forall e | e in t.ledger && e.reason == REFUND
      ensures exists i :: 0 <= i < |t.refunds| && CarriedBy(e, t.refunds[i], t.payments)
    {
      assert Refund1(t, e);
    }
    forall r | r in t.refunds && r.payment < |t.payments| && t.payments[r.payment].provider != STRIPE
      ensures exists k :: 0 <= k < |t.ledger| && CarriedBy(t.ledger[k], r, t.payments)
    {
      assert Credit1(t, r);
    }
    forall k, l | 0 <= k < l < |t.ledger| && t.ledger[k].reason == REFUND && t.ledger[l].reason == REFUND
      ensures t.ledger[k].reference != t.ledger[l].reference
    {
      OneCreditPerRefund(t, k, l);
    }
  }
}
