/** Stripe webhooks: events arrive in any order and any number of times.  With payment rows
    already present and no refund in between, the outcome depends only on which distinct events
    arrived. */
module StripeEvents {
  import opened Options
  import opened Bank

  /** `topUp` is metadata.type == "WALLET_TOPUP"; user and amount are fixed with the intent. */
  datatype Intent = Intent(id: nat, topUp: bool, user: nat, amount: nat)

  datatype EventType = Succeeded | PaymentFailed | Unhandled

  datatype Event = Event(kind: EventType, intent: Intent)

  /** findByStripePaymentIntentId; the column is unique. */
  predicate IsFor(p: Payment, intent: nat) { p.intent == Some(intent) }

  function FindByIntent(payments: seq<Payment>, intent: nat): (found: Option<nat>)
    ensures found.Some? ==> found.value < |payments| && IsFor(payments[found.value], intent)
    ensures found.None? ==> forall i :: 0 <= i < |payments| ==> !IsFor(payments[i], intent)
  {
    if payments == [] then None
    else if IsFor(payments[|payments| - 1], intent) then Some(|payments| - 1)
    else FindByIntent(payments[..|payments| - 1], intent)
  }

  /** handleStripeEvent: which transaction an event runs, if any. */
  function Reaction(b: Books, e: Event): Option<Txn> {
    var found := FindByIntent(b.payments, e.intent.id);
    if e.kind == Succeeded && e.intent.topUp then Some(TopUp(e.intent.user, e.intent.amount, e.intent.id))
    else if e.kind == Succeeded && found.Some? && b.payments[found.value].status != COMPLETED
    then Some(Settle(found.value, COMPLETED))
    else if e.kind == PaymentFailed && !e.intent.topUp && found.Some? && b.payments[found.value].status == PENDING
    then Some(Settle(found.value, FAILED))
    else None
  }

  function Handle(b: Books, e: Event): Books {
    var r := Reaction(b, e);
    if r.Some? then Apply(b, r.value) else b
  }

  function Deliver(b: Books, events: seq<Event>): Books {
    if events == [] then b else Handle(Deliver(b, events[..|events| - 1]), events[|events| - 1])
  }

  /** Card payments are the ones with an intent, and one intent belongs to one payment. */
  predicate CardRows(payments: seq<Payment>) {
    && UniquePayments(payments)
    && forall i :: 0 <= i < |payments| && payments[i].intent.Some? ==> payments[i].provider == STRIPE
  }

  /** What one event does to the tables.  A top-up's success credits the wallet unless its intent was
      recorded before; a payment's success completes it whatever its status; a failure matters only
      to a PENDING payment. */
  lemma EventTables(b: Books, e: Event)
    requires UniquePayments(b.payments)
    ensures var t := Handle(b, e);
      t.refunds == b.refunds && |t.payments| == |b.payments|
    ensures var t := Handle(b, e);
      if e.kind == Succeeded && e.intent.topUp && e.intent.user in b.wallets
         && (forall i | 0 <= i < |b.ledger| && b.ledger[i].wallet == e.intent.user ::
               b.ledger[i].reason == TOPUP ==> b.ledger[i].reference != Some(e.intent.id))
      then
        && t.wallets == b.wallets[e.intent.user := b.wallets[e.intent.user] + e.intent.amount]
        && t.ledger == b.ledger + [Entry(e.intent.user, CREDIT, TOPUP, e.intent.amount,
                                         b.wallets[e.intent.user] + e.intent.amount, Some(e.intent.id))]
      else t.wallets == b.wallets && t.ledger == b.ledger
    ensures forall i :: 0 <= i < |b.payments| ==>
      Handle(b, e).payments[i] ==
        if e.intent.topUp || b.payments[i].intent != Some(e.intent.id) then b.payments[i]
        else if e.kind == Succeeded then b.payments[i].(status := COMPLETED)
        else if e.kind == PaymentFailed && b.payments[i].status == PENDING then b.payments[i].(status := FAILED)
        else b.payments[i]
  {
    var found := FindByIntent(b.payments, e.intent.id);
    if found.Some? {
      assert forall i :: 0 <= i < |b.payments| && i != found.value ==> b.payments[i].intent != Some(e.intent.id);
    }
  }

  // -------------------------------------------------- payments: closed form

  predicate SomeSuccess(events: seq<Event>, intent: nat) {
    exists e :: e in events && e.kind == Succeeded && !e.intent.topUp && e.intent.id == intent
  }

  predicate SomeFailure(events: seq<Event>, intent: nat) {
    exists e :: e in events && e.kind == PaymentFailed && !e.intent.topUp && e.intent.id == intent
  }

  /** COMPLETED if some success arrived; else FAILED if it was PENDING and some failure arrived. */
  function Settled(p: Payment, events: seq<Event>): Payment {
    if p.intent.None? then p
    else if SomeSuccess(events, p.intent.value) then p.(status := COMPLETED)
    else if p.status == PENDING && SomeFailure(events, p.intent.value) then p.(status := FAILED)
    else p
  }

  lemma SomeAppend(front: seq<Event>, e: Event, intent: nat)
    ensures SomeSuccess(front + [e], intent) <==>
      SomeSuccess(front, intent) || (e.kind == Succeeded && !e.intent.topUp && e.intent.id == intent)
    ensures SomeFailure(front + [e], intent) <==>
      SomeFailure(front, intent) || (e.kind == PaymentFailed && !e.intent.topUp && e.intent.id == intent)
  {
  }

  predicate AllSettled(was: seq<Payment>, now: seq<Payment>, events: seq<Event>) {
    |now| == |was| && forall i :: 0 <= i < |was| ==> now[i] == Settled(was[i], events)
  }

  lemma SettleOne(b: Books, now: Books, front: seq<Event>, e: Event)
    requires CardRows(b.payments) && AllSettled(b.payments, now.payments, front)
    ensures AllSettled(b.payments, Handle(now, e).payments, front + [e])
  {
    var t := Handle(now, e);
    forall i | 0 <= i < |b.payments| ensures t.payments[i] == Settled(b.payments[i], front + [e]) {
      var p := b.payments[i];
      if p.intent.Some? { SomeAppend(front, e, p.intent.value); }
      var found := FindByIntent(now.payments, e.intent.id);
      if found.Some? {
        assert now.payments[found.value].intent == b.payments[found.value].intent;
        assert IsFor(now.payments[i], e.intent.id) ==> i == found.value;
      }
      assert now.payments[i].intent == p.intent;
    }
  }

  lemma {:induction false} PaymentsSettled(b: Books, events: seq<Event>)
    requires CardRows(b.payments)
    ensures AllSettled(b.payments, Deliver(b, events).payments, events)
  {
    if events != [] {
      var front := events[..|events| - 1];
      PaymentsSettled(b, front);
      SettleOne(b, Deliver(b, front), front, events[|events| - 1]);
      assert front + [events[|events| - 1]] == events;
    }
  }

  // --------------------------------------------------- top-ups: closed form

  predicate Credited(ledger: seq<Entry>, i: Intent) {
    KeyTaken(ledger, i.user, TOPUP, Some(i.id))
  }

  /** The distinct top-up intents that succeed among the events, for wallets that exist, and
      that were not credited before. */
  function NewTopUps(b: Books, events: seq<Event>): set<Intent> {
    set e | e in events && e.kind == Succeeded && e.intent.topUp && e.intent.user in b.wallets
            && !Credited(b.ledger, e.intent) :: e.intent
  }

  ghost function Total(s: set<Intent>, user: nat): nat {
    if s == {} then 0
    else
      var x :| x in s;
      Total(s - {x}, user) + if x.user == user then x.amount else 0
  }

  lemma {:induction false} TotalAdd(s: set<Intent>, x: Intent, user: nat)
    requires x !in s
    ensures Total(s + {x}, user) == Total(s, user) + if x.user == user then x.amount else 0
    decreases s
  {
    var y :| y in s + {x} && Total(s + {x}, user) == Total(s + {x} - {y}, user)
        + if y.user == user then y.amount else 0;
    if y == x {
      assert s + {x} - {x} == s;
    } else {
      assert s + {x} - {y} == (s - {y}) + {x};
      TotalAdd(s - {y}, x, user);
      TotalAdd(s - {y}, y, user);
      assert (s - {y}) + {y} == s;
    }
  }

  /** An intent's id fixes the intent. */
  predicate Coherent(events: seq<Event>) {
    forall e, f :: e in events && f in events && e.intent.id == f.intent.id ==> e.intent == f.intent
  }

  ghost predicate BalancesDone(b: Books, t: Books, events: seq<Event>) {
    && t.wallets.Keys == b.wallets.Keys
    && (forall u :: u in b.wallets ==> t.wallets[u] == b.wallets[u] + Total(NewTopUps(b, events), u))
  }

  ghost predicate TopUpsDone(b: Books, t: Books, events: seq<Event>) {
    && BalancesDone(b, t, events)
    && (forall i: Intent :: i.user in b.wallets ==>
          (Credited(t.ledger, i) <==>
             Credited(b.ledger, i) || exists j :: j in NewTopUps(b, events) && j.id == i.id && j.user == i.user))
  }

  lemma TopUpOne(b: Books, now: Books, front: seq<Event>, e: Event)
    requires TopUpsDone(b, now, front) && Coherent(front + [e])
    ensures TopUpsDone(b, Handle(now, e), front + [e])
  {
    var events, t := front + [e], Handle(now, e);
    var was, s := NewTopUps(b, front), NewTopUps(b, events);
    var x := e.intent;
    assert e in events && forall f :: f in front ==> f in events;
    if e.kind == Succeeded && x.topUp && x.user in b.wallets && !Credited(b.ledger, x) {
      assert s == was + {x};
      if x in was {
        assert s == was;
        assert t == now;
      } else {
        forall j | j in was ensures j.id == x.id ==> j == x {
          var f :| f in front && f.intent == j;
          assert f in events;
        }
        forall u: nat { TotalAdd(was, x, u); }
        assert t.ledger == now.ledger + [Entry(x.user, CREDIT, TOPUP, x.amount, t.wallets[x.user], Some(x.id))];
        CreditedAppend(now.ledger, t.ledger[|now.ledger|]);
      }
    } else {
      assert s == was;
      assert t.wallets == now.wallets && t.ledger == now.ledger;
    }
  }

  lemma CreditedAppend(ledger: seq<Entry>, e: Entry)
    ensures forall i: Intent :: Credited(ledger + [e], i) <==>
      Credited(ledger, i) || (e.wallet == i.user && e.reason == TOPUP && e.reference == Some(i.id))
  {
    forall i: Intent
      ensures Credited(ledger + [e], i) <==>
        Credited(ledger, i) || (e.wallet == i.user && e.reason == TOPUP && e.reference == Some(i.id))
    {
      if Credited(ledger, i) {
        var k :| 0 <= k < |ledger| && ledger[k].wallet == i.user && ledger[k].reason == TOPUP
                 && ledger[k].reference == Some(i.id);
        assert (ledger + [e])[k] == ledger[k];
      }
      assert (ledger + [e])[|ledger|] == e;
    }
  }

  lemma {:induction false} TopUpsClosedForm(b: Books, events: seq<Event>)
    requires Coherent(events)
    ensures TopUpsDone(b, Deliver(b, events), events)
  {
    if events == [] {
      assert NewTopUps(b, events) == {};
    } else {
      var front := events[..|events| - 1];
      assert front + [events[|events| - 1]] == events;
      TopUpsClosedForm(b, front);
      TopUpOne(b, Deliver(b, front), front, events[|events| - 1]);
    }
  }

  // --------------------------------------------------------- main results

  predicate SameEvents(a: seq<Event>, c: seq<Event>) {
    (forall e :: e in a ==> e in c) && (forall e :: e in c ==> e in a)
  }

  lemma SettledOfSet(was: seq<Payment>, p: seq<Payment>, q: seq<Payment>, a: seq<Event>, c: seq<Event>)
    requires AllSettled(was, p, a) && AllSettled(was, q, c) && SameEvents(a, c)
    ensures p == q
  {
  }

  lemma NewTopUpsOfSet(b: Books, a: seq<Event>, c: seq<Event>)
    requires SameEvents(a, c)
    ensures NewTopUps(b, a) == NewTopUps(b, c)
  {
  }

  lemma SameBalances(b: Books, a: seq<Event>, c: seq<Event>)
    requires Coherent(a) && SameEvents(a, c)
    ensures Deliver(b, a).wallets == Deliver(b, c).wallets
  {
    assert Coherent(c);
    TopUpsClosedForm(b, a);
    TopUpsClosedForm(b, c);
    NewTopUpsOfSet(b, a, c);
    DoneAlike(b, Deliver(b, a), Deliver(b, c), a, c);
  }

  lemma DoneAlike(b: Books, t: Books, u: Books, a: seq<Event>, c: seq<Event>)
    requires BalancesDone(b, t, a) && BalancesDone(b, u, c) && NewTopUps(b, a) == NewTopUps(b, c)
    ensures t.wallets == u.wallets
  {
    assert t.wallets.Keys == u.wallets.Keys;
    forall x | x in t.wallets ensures t.wallets[x] == u.wallets[x] {
      assert x in b.wallets;
    }
  }

  lemma SamePayments(b: Books, a: seq<Event>, c: seq<Event>)
    requires CardRows(b.payments) && SameEvents(a, c)
    ensures Deliver(b, a).payments == Deliver(b, c).payments
  {
    PaymentsSettled(b, a);
    PaymentsSettled(b, c);
    SettledOfSet(b.payments, Deliver(b, a).payments, Deliver(b, c).payments, a, c);
  }

  /** Order and duplication do not matter: two deliveries of the same set of events leave the
      same balances and the same payment rows. */
  lemma {:induction false} DeliveryOrderIsIrrelevant(b: Books, a: seq<Event>, c: seq<Event>)
    requires CardRows(b.payments) && Coherent(a) && SameEvents(a, c)
    ensures Deliver(b, a).wallets == Deliver(b, c).wallets
    ensures Deliver(b, a).payments == Deliver(b, c).payments
  {
    SameBalances(b, a, c);
    SamePayments(b, a, c);
  }

  /** Each top-up intent is credited exactly once however often its success is delivered: the
      balance grows by the sum over the distinct new intents. */
  lemma {:induction false} TopUpsCreditOnce(b: Books, events: seq<Event>, user: nat)
    requires Coherent(events) && user in b.wallets
    ensures user in Deliver(b, events).wallets
    ensures Deliver(b, events).wallets[user] == b.wallets[user] + Total(NewTopUps(b, events), user)
  {
    TopUpsClosedForm(b, events);
  }

  /** A card payment that was PENDING is COMPLETED iff some success arrived, and otherwise FAILED
      iff some failure arrived; a late failure never undoes a success. */
  lemma {:induction false} PendingPaymentSettles(b: Books, events: seq<Event>, i: nat)
    requires CardRows(b.payments) && i < |b.payments|
    requires b.payments[i].intent.Some? && b.payments[i].status == PENDING
    ensures i < |Deliver(b, events).payments|
    ensures var s, id := Deliver(b, events).payments[i].status, b.payments[i].intent.value;
      && (s == COMPLETED <==> SomeSuccess(events, id))
      && (s == FAILED <==> !SomeSuccess(events, id) && SomeFailure(events, id))
      && (s == PENDING <==> !SomeSuccess(events, id) && !SomeFailure(events, id))
  {
    PaymentsSettled(b, events);
  }
}
