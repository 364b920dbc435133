/** Refunds that overlap.  refundPayment reads the sum of earlier refunds before it opens the
    transaction that writes, and that transaction looks at neither the sum nor the status again.
    So a refund of a WALLET or CASH payment is two steps here, and anything may come between them;
    card refunds stay one step. */
module RefundRaces {
  import opened Options
  import opened Bank
  import F = Refunds

  /** A refund that has been decided and not yet written, with the sum its decision read and the
      number of refund rows there were. */
  datatype Decided = Decided(id: nat, payment: nat, amount: nat, status: Status, read: nat, rows: nat)

  datatype System = System(books: Books, open: map<nat, Decided>)

  datatype Action =
    | Whole(call: F.Call)
    | Decide(key: nat, payment: nat, amount: Option<int>, id: nat)
    | Land(key: nat)

  predicate NotByCard(b: Books, payment: nat) {
    payment < |b.payments| && b.payments[payment].provider != STRIPE
  }

  function TxnOf(d: Decided): Txn {
    RefundToWallet(d.id, d.payment, d.amount, d.status)
  }

  function Do(s: System, a: Action): System {
    match a
    case Whole(c) => s.(books := F.Serve(s.books, c))
    case Decide(k, payment, amount, id) =>
      var t := F.RefundTxn(s.books, payment, amount, id, true);
      if k in s.open || !NotByCard(s.books, payment) || t.None? || !t.value.RefundToWallet? then s
      else s.(open := s.open[k := Decided(id, payment, t.value.amount, t.value.status,
                                          F.CompletedSum(s.books.refunds, payment), |s.books.refunds|)])
    case Land(k) =>
      if k !in s.open then s else System(Apply(s.books, TxnOf(s.open[k])), s.open - {k})
  }

  function Run(s: System, actions: seq<Action>): System {
    if actions == [] then s else Do(Run(s, actions[..|actions| - 1]), actions[|actions| - 1])
  }

  function Sum(s: System, i: nat): nat { F.CompletedSum(s.books.refunds, i) }

  /** More has been refunded than was paid. */
  predicate Exceeded(s: System, i: nat) {
    i < |s.books.payments| && Sum(s, i) > s.books.payments[i].amount
  }

  /** Each decision left room for itself in the sum it read. */
  predicate DecisionOk(b: Books, d: Decided) {
    && NotByCard(b, d.payment) && 0 < d.amount
    && d.read + d.amount <= b.payments[d.payment].amount
    && d.rows <= |b.refunds| && d.read == F.CompletedSum(b.refunds[..d.rows], d.payment)
  }

  predicate Inv(s: System) {
    && (forall k :: k in s.open ==> DecisionOk(s.books, s.open[k]))
    && (forall r :: r in s.books.refunds ==> r.payment < |s.books.payments|)
  }

  /** The write goes through, and the refunds of the payment that were written since its sum was
      read come to more than the decision left over. */
  predicate Overdraws(s: System, a: Action, i: nat) {
    && a.Land? && a.key in s.open && s.open[a.key].payment == i && i < |s.books.payments|
    && Apply(s.books, TxnOf(s.open[a.key])) != s.books
    && s.open[a.key].rows <= |s.books.refunds|
    && F.CompletedSum(s.books.refunds[s.open[a.key].rows..], i)
       > s.books.payments[i].amount - s.open[a.key].read - s.open[a.key].amount
  }

  /** A refund that nothing comes in between is refundPayment as a whole. */
  lemma AloneIsServe(s: System, k: nat, payment: nat, amount: Option<int>, id: nat)
    requires k !in s.open && NotByCard(s.books, payment)
    ensures Do(Do(s, Decide(k, payment, amount, id)), Land(k))
      == s.(books := F.Serve(s.books, F.RefundPayment(payment, amount, id, true)))
  {
    var t := F.RefundTxn(s.books, payment, amount, id, true);
    if t.Some? {
      var u := Do(s, Decide(k, payment, amount, id));
      assert TxnOf(u.open[k]) == t.value;
      assert u.open - {k} == s.open;
    }
  }

  // ---------------------------------------------------------------- one step

  lemma {:induction false} SumSplit(refunds: seq<Refund>, k: nat, i: nat)
    requires k <= |refunds|
    ensures F.CompletedSum(refunds, i) == F.CompletedSum(refunds[..k], i) + F.CompletedSum(refunds[k..], i)
  {
    if k == |refunds| {
      assert refunds[..k] == refunds && refunds[k..] == [];
    } else {
      var n := |refunds| - 1;
      assert refunds[..n][..k] == refunds[..k] && refunds[k..][..n - k] == refunds[..n][k..];
      SumSplit(refunds[..n], k, i);
    }
  }

  /** What every transaction and webhook leaves of a payment, and of the refunds. */
  predicate SamePayments(b: Books, t: Books) {
    && |b.payments| <= |t.payments|
    && forall i :: 0 <= i < |b.payments| ==>
         t.payments[i].amount == b.payments[i].amount && t.payments[i].provider == b.payments[i].provider
  }

  lemma LandEffect(b: Books, d: Decided)
    requires DecisionOk(b, d)
    ensures var t := Apply(b, TxnOf(d));
      t == b || (SamePayments(b, t) && |t.payments| == |b.payments|
                 && t.refunds == b.refunds + [Refund(d.id, d.payment, d.amount, true)])
  {
  }

  lemma PlainEffect(b: Books, t: Txn)
    ensures var u := F.Serve(b, F.Plain(t)); SamePayments(b, u) && u.refunds == b.refunds
  {
  }

  lemma WebhookEffect(b: Books, c: F.Call)
    requires c.Webhook?
    ensures var u := F.Serve(b, c);
      SamePayments(b, u) && |u.payments| == |b.payments| && u.refunds == b.refunds
  {
  }

  /** A refund served whole reads the sum it writes on. */
  lemma RefundEffect(b: Books, c: F.Call) returns (r: Refund)
    requires c.RefundPayment? && F.Serve(b, c) != b
    ensures var t := F.Serve(b, c);
      && SamePayments(b, t) && |t.payments| == |b.payments| && t.refunds == b.refunds + [r]
      && r.payment < |b.payments|
      && F.CompletedSum(b.refunds, r.payment) + r.amount <= b.payments[r.payment].amount
  {
    var o := F.RefundTxn(b, c.payment, c.amount, c.id, c.stripeOk).value;
    var p, already := b.payments[c.payment], F.CompletedSum(b.refunds, c.payment);
    F.ToleranceIsExact(o.amount, p.amount - already, 0, 0);
    r := Refund(c.id, c.payment, o.amount, if p.provider == STRIPE then c.stripeOk else true);
    assert F.Serve(b, c).refunds == b.refunds + [r];
  }

  lemma InvKept(s: System, t: System)
    requires Inv(s) && SamePayments(s.books, t.books) && s.books.refunds <= t.books.refunds
    requires forall k :: k in t.open ==> k in s.open && t.open[k] == s.open[k]
    requires forall r :: r in t.books.refunds ==> r.payment < |t.books.payments|
    ensures Inv(t)
  {
    forall k | k in t.open ensures DecisionOk(t.books, t.open[k]) {
      var d := s.open[k];
      assert DecisionOk(s.books, d);
      assert t.books.refunds[..d.rows] == s.books.refunds[..d.rows];
    }
  }

  lemma NewIsUnrefunded(b: Books, i: nat)
    requires forall r :: r in b.refunds ==> r.payment < |b.payments|
    ensures i >= |b.payments| ==> F.CompletedSum(b.refunds, i) == 0
  {
    if i >= |b.payments| { F.NoRefunds(b.refunds, i); }
  }

  lemma WholeNeverExceeds(s: System, c: F.Call, i: nat)
    requires Inv(s) && !Exceeded(s, i)
    ensures Inv(Do(s, Whole(c))) && !Exceeded(Do(s, Whole(c)), i)
  {
    var b, t := s.books, Do(s, Whole(c));
    match c
    case Plain(txn) =>
      PlainEffect(b, txn);
      InvKept(s, t);
      NewIsUnrefunded(b, i);
    case Webhook(_) =>
      WebhookEffect(b, c);
      InvKept(s, t);
    case RefundPayment(_, _, _, _) =>
      if F.Serve(b, c) != b {
        var r := RefundEffect(b, c);
        InvKept(s, t);
        F.SumAppend(b.refunds, r, i);
      }
  }

  lemma DecideKeeps(s: System, a: Action)
    requires Inv(s) && a.Decide?
    ensures Inv(Do(s, a)) && Do(s, a).books == s.books
  {
    var b, t := s.books, F.RefundTxn(s.books, a.payment, a.amount, a.id, true);
    if t.Some? && Do(s, a) != s {
      var p, already := b.payments[a.payment], F.CompletedSum(b.refunds, a.payment);
      F.ToleranceIsExact(t.value.amount, p.amount - already, 0, 0);
      assert b.refunds[..|b.refunds|] == b.refunds;
      var d := Decided(a.id, a.payment, t.value.amount, t.value.status, already, |b.refunds|);
      assert Do(s, a) == s.(open := s.open[a.key := d]) && DecisionOk(b, d);
    }
  }

  lemma LandKeeps(s: System, k: nat)
    requires Inv(s) && k in s.open
    ensures Inv(Do(s, Land(k)))
  {
    LandEffect(s.books, s.open[k]);
    InvKept(s, Do(s, Land(k)));
  }

  lemma LandExceedsIff(s: System, k: nat, i: nat)
    requires Inv(s) && !Exceeded(s, i) && k in s.open
    ensures Exceeded(Do(s, Land(k)), i) <==> Overdraws(s, Land(k), i)
  {
    var d := s.open[k];
    LandEffect(s.books, d);
    SumSplit(s.books.refunds, d.rows, i);
    F.SumAppend(s.books.refunds, Refund(d.id, d.payment, d.amount, true), i);
  }

  /** One step refunds more than was paid exactly when it writes a refund decided on a sum that
      other refunds have meanwhile raised by more than the decision left over. */
  lemma ExceedsIff(s: System, a: Action, i: nat)
    requires Inv(s) && !Exceeded(s, i)
    ensures Inv(Do(s, a)) && (Exceeded(Do(s, a), i) <==> Overdraws(s, a, i))
  {
    match a
    case Whole(c) => WholeNeverExceeds(s, c, i);
    case Decide(_, _, _, _) => DecideKeeps(s, a);
    case Land(k) =>
      if k in s.open {
        LandKeeps(s, k);
        LandExceedsIff(s, k, i);
      }
  }

  // --------------------------------------------------------------- whole runs

  predicate Initially(s: System) {
    Opening(s.books) && s.open == map[]
  }

  predicate NeverExceeded(s: System, actions: seq<Action>, i: nat) {
    forall k :: 0 <= k <= |actions| ==> !Exceeded(Run(s, actions[..k]), i)
  }

  predicate NeverOverdraws(s: System, actions: seq<Action>, i: nat) {
    forall k :: 0 <= k < |actions| ==> !Overdraws(Run(s, actions[..k]), actions[k], i)
  }

  lemma ExceededLast(s: System, front: seq<Action>, a: Action, i: nat)
    ensures NeverExceeded(s, front + [a], i) <==> NeverExceeded(s, front, i) && !Exceeded(Run(s, front + [a]), i)
  {
    var actions := front + [a];
    assert actions[..|actions|] == actions;
    forall k | 0 <= k <= |front| ensures front[..k] == actions[..k] {}
    if NeverExceeded(s, actions, i) {
      forall k | 0 <= k <= |front| ensures !Exceeded(Run(s, front[..k]), i) {
        assert !Exceeded(Run(s, actions[..k]), i);
      }
      assert !Exceeded(Run(s, actions[..|actions|]), i);
    } else {
      var k :| 0 <= k <= |actions| && Exceeded(Run(s, actions[..k]), i);
      if k < |actions| { assert Exceeded(Run(s, front[..k]), i); }
    }
  }

  lemma OverdrawsLast(s: System, front: seq<Action>, a: Action, i: nat)
    ensures NeverOverdraws(s, front + [a], i) <==> NeverOverdraws(s, front, i) && !Overdraws(Run(s, front), a, i)
  {
    var actions := front + [a];
    assert actions[..|front|] == front && actions[|front|] == a;
    forall k | 0 <= k < |front| ensures front[..k] == actions[..k] && front[k] == actions[k] {}
  }

  lemma {:induction false} KeepsInv(s: System, actions: seq<Action>, i: nat)
    requires Initially(s) && NeverExceeded(s, actions, i)
    ensures Inv(Run(s, actions)) && !Exceeded(Run(s, actions), i)
  {
    assert actions[..|actions|] == actions;
    if actions != [] {
      var front, a := actions[..|actions| - 1], actions[|actions| - 1];
      assert front + [a] == actions;
      ExceededLast(s, front, a, i);
      KeepsInv(s, front, i);
      ExceedsIff(Run(s, front), a, i);
    }
  }

  lemma NextExceedsIff(s: System, front: seq<Action>, a: Action, i: nat)
    requires Initially(s) && NeverExceeded(s, front, i)
    ensures Exceeded(Run(s, front + [a]), i) <==> Overdraws(Run(s, front), a, i)
  {
    KeepsInv(s, front, i);
    assert (front + [a])[..|front|] == front;
    ExceedsIff(Run(s, front), a, i);
  }

  /** Over a run: the refunds of a payment never exceed it iff no step of the run overdraws.  In
      particular refunds that do not overlap never do. */
  lemma {:induction false} OverlapExceedsIff(s: System, actions: seq<Action>, i: nat)
    requires Initially(s)
    ensures NeverExceeded(s, actions, i) <==> NeverOverdraws(s, actions, i)
  {
    if actions == [] {
      assert actions[..0] == [];
    } else {
      var front, a := actions[..|actions| - 1], actions[|actions| - 1];
      assert front + [a] == actions;
      OverlapExceedsIff(s, front, i);
      ExceededLast(s, front, a, i);
      OverdrawsLast(s, front, a, i);
      if NeverExceeded(s, front, i) { NextExceedsIff(s, front, a, i); }
    }
  }

  // ------------------------------------------------------------ a failing run

  const START := System(Books(map[1 := 0], [], [], []), map[])

  // A wallet is filled and pays 5.00; two full refunds are decided before either is written.
  const TWO_DECIDED := [Whole(F.Plain(TopUp(1, 500, 9)))] + [Whole(F.Plain(PayFromWallet(1, 10, 500)))]
                       + [Decide(1, 0, None, 3)] + [Decide(2, 0, None, 4)]

  const PAYMENT := Payment(10, 1, 500, WALLET, COMPLETED, None)

  function Paid(open: map<nat, Decided>): System {
    System(Books(map[1 := 0], [Entry(1, CREDIT, TOPUP, 500, 500, Some(9)),
                               Entry(1, DEBIT, RIDE_PAYMENT, 500, 0, Some(10))], [PAYMENT], []), open)
  }

  lemma Next(actions: seq<Action>, a: Action)
    ensures Run(START, actions + [a]) == Do(Run(START, actions), a)
  {
    assert (actions + [a])[..|actions|] == actions;
  }

  lemma PaidSteps()
    ensures Do(Do(START, Whole(F.Plain(TopUp(1, 500, 9)))), Whole(F.Plain(PayFromWallet(1, 10, 500)))) == Paid(map[])
  {
    assert START.books.ledger + [Entry(1, CREDIT, TOPUP, 500, 500, Some(9))]
      + [Entry(1, DEBIT, RIDE_PAYMENT, 500, 0, Some(10))]
        == Paid(map[]).books.ledger;
    assert START.books.payments + [PAYMENT] == [PAYMENT];
  }

  lemma DecideStep(open: map<nat, Decided>, k: nat, id: nat)
    requires k !in open
    ensures Do(Paid(open), Decide(k, 0, None, id)) == Paid(open[k := Decided(id, 0, 500, REFUNDED, 0, 0)])
  {
    F.ToleranceIsExact(500, 500, 500, 500);
  }

  lemma TwoDecidedRun()
    ensures Run(START, TWO_DECIDED)
            == Paid(map[1 := Decided(3, 0, 500, REFUNDED, 0, 0), 2 := Decided(4, 0, 500, REFUNDED, 0, 0)])
  {
    var a, c := Whole(F.Plain(TopUp(1, 500, 9))), Whole(F.Plain(PayFromWallet(1, 10, 500)));
    assert [] + [a] == [a];
    Next([], a);
    Next([a], c);
    PaidSteps();
    Next([a] + [c], Decide(1, 0, None, 3));
    DecideStep(map[], 1, 3);
    Next([a] + [c] + [Decide(1, 0, None, 3)], Decide(2, 0, None, 4));
    DecideStep(map[1 := Decided(3, 0, 500, REFUNDED, 0, 0)], 2, 4);
  }

  function OneLanded(): System {
    var d := Decided(4, 0, 500, REFUNDED, 0, 0);
    System(Books(map[1 := 500], Paid(map[]).books.ledger + [Entry(1, CREDIT, REFUND, 500, 500, Some(3))],
                 [PAYMENT.(status := REFUNDED)], [Refund(3, 0, 500, true)]), map[2 := d])
  }

  lemma LandStep()
    ensures Do(Paid(map[1 := Decided(3, 0, 500, REFUNDED, 0, 0), 2 := Decided(4, 0, 500, REFUNDED, 0, 0)]), Land(1))
            == OneLanded()
  {
    assert [] + [Refund(3, 0, 500, true)] == [Refund(3, 0, 500, true)];
    assert [PAYMENT][0 := PAYMENT.(status := REFUNDED)] == [PAYMENT.(status := REFUNDED)];
  }

  lemma NextOverdraws()
    ensures Overdraws(OneLanded(), Land(2), 0) && Inv(OneLanded()) && !Exceeded(OneLanded(), 0)
  {
    var t, r := OneLanded(), Refund(3, 0, 500, true);
    assert [] + [r] == [r] && [r][0..] == [r] && [r][..0] == [];
    F.SumAppend([], r, 0);
    assert Apply(t.books, TxnOf(t.open[2])).refunds == [r] + [Refund(4, 0, 500, true)];
  }

  /** Both are written: twice what was paid has been refunded. */
  lemma OverlappingRefundsExceed()
    ensures Initially(START) && Exceeded(Run(START, TWO_DECIDED + [Land(1)] + [Land(2)]), 0)
  {
    TwoDecidedRun();
    Next(TWO_DECIDED, Land(1));
    LandStep();
    NextOverdraws();
    Next(TWO_DECIDED + [Land(1)], Land(2));
    ExceedsIff(OneLanded(), Land(2), 0);
  }
}
