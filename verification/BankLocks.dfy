/** Granularity A for money: the statements of any number of open transactions interleave.
    A transaction works on private copies of the rows it has written, holds the lock of a
    wallet row from its balance update to its end, waits for a row another open transaction
    has inserted under the same unique key, and may be rolled back at any point.

    The result: whatever the schedule, the committed tables are those that the committed
    transactions would have produced one at a time, in commit order. */
module BankLocks {
  import opened Options
  import opened Bank

  /** Where a transaction stands: about to record its refund row, about to change the balance,
      about to read it back, about to write the ledger, about to write its last row, about to
      commit. */
  datatype Stage = Recording | Changing | Reading | Logging | Closing | Committing

  datatype Open = Open(txn: Txn, user: nat, stage: Stage, balance: int, entry: Option<Entry>)

  datatype System = System(books: Books, open: map<nat, Open>, history: seq<Txn>)

  datatype Action =
    | Begin(id: nat, txn: Txn)
    | Advance(id: nat)
    | Rollback(id: nat)       // an error, a lost connection, a crash
    | Single(txn: Txn)        // a transaction of one statement, or of an array without balances

  predicate Interactive(t: Txn) {
    t.TopUp? || t.Adjust? || t.PayFromWallet? || t.RefundToWallet?
  }

  function KindOf(t: Txn): Kind
    requires Interactive(t)
  {
    if t.PayFromWallet? || (t.Adjust? && t.delta < 0) then DEBIT else CREDIT
  }

  function AmountOf(t: Txn): nat
    requires Interactive(t)
  {
    match t
    case Adjust(_, delta) => if delta < 0 then -delta else delta
    case TopUp(_, amount, _) => amount
    case PayFromWallet(_, _, amount) => amount
    case RefundToWallet(_, _, amount, _) => amount
  }

  function ReasonOf(t: Txn): Reason
    requires Interactive(t)
  {
    match t
    case TopUp(_, _, _) => TOPUP
    case Adjust(_, _) => ADJUSTMENT
    case PayFromWallet(_, _, _) => RIDE_PAYMENT
    case RefundToWallet(_, _, _, _) => REFUND
  }

  function ReferenceOf(t: Txn): Option<nat>
    requires Interactive(t)
  {
    match t
    case TopUp(_, _, intent) => Some(intent)
    case Adjust(_, _) => None
    case PayFromWallet(_, ride, _) => Some(ride)
    case RefundToWallet(id, _, _, _) => Some(id)
  }

  /** The wallet a transaction moves. */
  function UserOf(b: Books, t: Txn): Option<nat>
    requires Interactive(t)
  {
    if t.RefundToWallet?
    then
      if t.payment < |b.payments| && b.payments[t.payment].provider != STRIPE
      then Some(b.payments[t.payment].payer) else None
    else Some(t.user)
  }

  predicate HoldsLock(o: Open)
  {
    o.stage == Reading || o.stage == Logging || o.stage == Closing || o.stage == Committing
  }

  predicate HasLogged(o: Open) { o.stage == Closing || o.stage == Committing }

  predicate Locked(s: System, id: nat, user: nat) {
    exists k :: k in s.open && k != id && HoldsLock(s.open[k]) && s.open[k].user == user
  }

  /** Another open transaction has inserted, and not committed, a row with this key. */
  predicate RefundPending(s: System, id: nat, refund: nat) {
    exists k :: k in s.open && k != id && s.open[k].txn.RefundToWallet? && s.open[k].stage != Recording
                && s.open[k].txn.id == refund
  }

  predicate PaymentPending(s: System, id: nat, ride: nat) {
    exists k :: k in s.open && k != id && s.open[k].txn.PayFromWallet? && s.open[k].stage == Committing
                && s.open[k].txn.ride == ride
  }

  predicate KeyPending(s: System, id: nat, e: Entry) {
    e.reference.Some?
    && exists k :: k in s.open && k != id && HasLogged(s.open[k]) && s.open[k].entry.Some?
                   && s.open[k].entry.value.wallet == e.wallet && s.open[k].entry.value.reason == e.reason
                   && s.open[k].entry.value.reference == e.reference
  }

  function At(s: System, id: nat, o: Open): System {
    s.(open := s.open[id := o])
  }

  function Gone(s: System, id: nat): System {
    s.(open := s.open - {id})
  }

  /** The private rows become the committed ones. */
  function Commit(b: Books, o: Open): Books
    requires o.entry.Some?
  {
    var wallets := b.wallets[o.user := o.balance];
    var ledger := b.ledger + [o.entry.value];
    match o.txn
    case PayFromWallet(user, ride, amount) =>
      Books(wallets, ledger, b.payments + [Payment(ride, user, amount, WALLET, COMPLETED, None)], b.refunds)
    case RefundToWallet(id, payment, amount, status) =>
      WithStatus(Books(wallets, ledger, b.payments, b.refunds + [Refund(id, payment, amount, true)]), payment, status)
    case _ => Books(wallets, ledger, b.payments, b.refunds)
  }

  function Step(s: System, id: nat): System
    requires id in s.open && Interactive(s.open[id].txn)
  {
    var o, b := s.open[id], s.books;
    match o.stage
    case Recording =>
      if RefundPending(s, id, if o.txn.RefundToWallet? then o.txn.id else 0) then s
      else if o.txn.RefundToWallet? && RefundIdTaken(b.refunds, o.txn.id) then Gone(s, id)
      else At(s, id, o.(stage := Changing))
    case Changing =>
      if o.user !in b.wallets then Gone(s, id)
      else if Locked(s, id, o.user) then s
      else if KindOf(o.txn) == DEBIT && !CanDebit(b, o.user, AmountOf(o.txn)) then Gone(s, id)
      else At(s, id, o.(stage := Reading,
                        balance := b.wallets[o.user] + SignedAmount(KindOf(o.txn), AmountOf(o.txn))))
    case Reading =>
      At(s, id, o.(stage := Logging, entry := Some(Entry(o.user, KindOf(o.txn), ReasonOf(o.txn), AmountOf(o.txn),
                                                         o.balance, ReferenceOf(o.txn)))))
    case Logging =>
      if o.entry == None || KeyPending(s, id, o.entry.value) then s
      else if KeyTaken(b.ledger, o.user, o.entry.value.reason, o.entry.value.reference) then Gone(s, id)
      else At(s, id, o.(stage := Closing))
    case Closing =>
      if o.txn.PayFromWallet? && PaymentPending(s, id, o.txn.ride) then s
      else if o.txn.PayFromWallet? && RidePaid(b.payments, o.txn.ride) then Gone(s, id)
      else At(s, id, o.(stage := Committing))
    case Committing =>
      if o.entry == None then s
      else System(Commit(b, o), s.open - {id}, s.history + [o.txn])
  }

  /** A single-step transaction waits for uncommitted rows under its own unique keys. */
  predicate Blocked(s: System, t: Txn) {
    match t
    case PayCash(_, ride, _) => exists k :: k in s.open && s.open[k].txn.PayFromWallet?
                                            && s.open[k].stage == Committing && s.open[k].txn.ride == ride
    case PayCard(_, ride, _, _) => exists k :: k in s.open && s.open[k].txn.PayFromWallet?
                                               && s.open[k].stage == Committing && s.open[k].txn.ride == ride
    case RefundToCard(id, _, _, _, _) => exists k :: k in s.open && s.open[k].txn.RefundToWallet?
                                                     && s.open[k].stage != Recording && s.open[k].txn.id == id
    case _ => false
  }

  function Do(s: System, a: Action): System {
    match a
    case Begin(id, t) =>
      if id in s.open || !Interactive(t) || UserOf(s.books, t) == None then s
      else At(s, id, Open(t, UserOf(s.books, t).value, if t.RefundToWallet? then Recording else Changing, 0, None))
    case Advance(id) => if id in s.open && Interactive(s.open[id].txn) then Step(s, id) else s
    case Rollback(id) => Gone(s, id)
    case Single(t) =>
      if Interactive(t) || Blocked(s, t) then s
      else System(Apply(s.books, t), s.open, s.history + [t])
  }

  function Run(s: System, actions: seq<Action>): System {
    if actions == [] then s else Do(Run(s, actions[..|actions| - 1]), actions[|actions| - 1])
  }

  // ------------------------------------------------------------- invariant

  /** What a transaction has read and checked stays true of the committed tables until it ends. */
  predicate OpenOk(b: Books, o: Open) {
    && Interactive(o.txn) && UserOf(b, o.txn) == Some(o.user)
    && (o.txn.RefundToWallet? && o.stage != Recording ==> !RefundIdTaken(b.refunds, o.txn.id))
    && (HoldsLock(o) ==>
          o.user in b.wallets
          && o.balance == b.wallets[o.user] + SignedAmount(KindOf(o.txn), AmountOf(o.txn))
          && (KindOf(o.txn) == DEBIT ==> CanDebit(b, o.user, AmountOf(o.txn))))
    && (o.stage == Logging || HasLogged(o) ==>
          o.entry == Some(Entry(o.user, KindOf(o.txn), ReasonOf(o.txn), AmountOf(o.txn),
                o.balance, ReferenceOf(o.txn))))
    && (HasLogged(o) ==> !KeyTaken(b.ledger, o.user, ReasonOf(o.txn), ReferenceOf(o.txn)))
    && (o.stage == Committing && o.txn.PayFromWallet? ==> !RidePaid(b.payments, o.txn.ride))
  }

  /** Two open transactions never hold one wallet, nor insert under one key. */
  predicate Apart(o: Open, p: Open) {
    && (HoldsLock(o) && HoldsLock(p) ==> o.user != p.user)
    && (o.txn.RefundToWallet? && p.txn.RefundToWallet? && o.stage != Recording && p.stage != Recording ==>
          o.txn.id != p.txn.id)
    && (o.txn.PayFromWallet? && p.txn.PayFromWallet? && o.stage == Committing && p.stage == Committing ==>
          o.txn.ride != p.txn.ride)
  }

  ghost predicate Inv(start: Books, s: System) {
    && (forall k :: k in s.open ==> OpenOk(s.books, s.open[k]))
    && (forall k, l :: k in s.open && l in s.open && k != l ==> Apart(s.open[k], s.open[l]))
    && s.books == ApplyAll(start, s.history)
  }

  lemma CommitIsApply(b: Books, o: Open)
    requires OpenOk(b, o) && o.stage == Committing
    ensures Commit(b, o) == Apply(b, o.txn)
  {
    var t := o.txn;
    var posted := Posted(b, o.user, KindOf(t), ReasonOf(t), AmountOf(t), ReferenceOf(t));
    assert posted.Some? && posted.value.wallets == b.wallets[o.user := o.balance];
    assert posted.value.ledger == b.ledger + [o.entry.value];
    if t.RefundToWallet? {
      var recorded := b.(refunds := b.refunds + [Refund(t.id, t.payment, t.amount, true)]);
      var credited := Posted(recorded, o.user, CREDIT, REFUND, t.amount, Some(t.id));
      assert credited.value
          == Books(b.wallets[o.user := o.balance], b.ledger + [o.entry.value], b.payments, recorded.refunds);
    }
  }

  lemma CommitKeepsOther(b: Books, o: Open, p: Open)
    requires OpenOk(b, o) && OpenOk(b, p) && Apart(o, p) && o.stage == Committing
    ensures OpenOk(Commit(b, o), p)
  {
  }

  lemma SingleKeepsOther(b: Books, t: Txn, p: Open)
    requires OpenOk(b, p) && !Interactive(t)
    requires (t.PayCash? || t.PayCard?) && p.txn.PayFromWallet? && p.stage == Committing ==> p.txn.ride != t.ride
    requires t.RefundToCard? && p.txn.RefundToWallet? && p.stage != Recording ==> p.txn.id != t.id
    ensures OpenOk(Apply(b, t), p)
  {
  }

  lemma AtKeeps(start: Books, s: System, id: nat, o: Open)
    requires Inv(start, s) && OpenOk(s.books, o)
    requires forall k :: k in s.open && k != id ==> Apart(o, s.open[k])
    ensures Inv(start, At(s, id, o))
  {
  }

  lemma CommitKeeps(start: Books, s: System, id: nat)
    requires Inv(start, s) && id in s.open && s.open[id].stage == Committing
    ensures Inv(start, Step(s, id))
  {
    var o := s.open[id];
    var t := Step(s, id);
    CommitIsApply(s.books, o);
    assert t.history[..|t.history| - 1] == s.history;
    forall k | k in t.open ensures OpenOk(t.books, t.open[k]) {
      CommitKeepsOther(s.books, o, s.open[k]);
    }
  }

  lemma StepKeeps(start: Books, s: System, id: nat)
    requires Inv(start, s) && id in s.open
    ensures Inv(start, Step(s, id))
  {
    var o := s.open[id];
    var t := Step(s, id);
    assert OpenOk(s.books, o);
    if o.stage == Committing {
      CommitKeeps(start, s, id);
    } else if t != s && id in t.open {
      var o' := t.open[id];
      assert t == At(s, id, o');
      forall k | k in s.open && k != id ensures Apart(o', s.open[k]) {
        assert Apart(o, s.open[k]);
      }
      AtKeeps(start, s, id, o');
    }
  }

  lemma SingleKeeps(start: Books, s: System, t: Txn)
    requires Inv(start, s) && !Interactive(t) && !Blocked(s, t)
    ensures Inv(start, Do(s, Single(t)))
  {
    var u := Do(s, Single(t));
    assert u.history[..|u.history| - 1] == s.history;
    forall k | k in u.open ensures OpenOk(u.books, u.open[k]) {
      SingleKeepsOther(s.books, t, s.open[k]);
    }
  }

  lemma DoKeeps(start: Books, s: System, a: Action)
    requires Inv(start, s)
    ensures Inv(start, Do(s, a))
  {
    match a
    case Begin(id, t) =>
      if !(id in s.open || !Interactive(t) || UserOf(s.books, t) == None) {
        AtKeeps(start, s, id,
                Open(t, UserOf(s.books, t).value, if t.RefundToWallet? then Recording else Changing, 0, None));
      }
    case Advance(id) => if id in s.open { StepKeeps(start, s, id); }
    case Rollback(id) =>
    case Single(t) => if !(Interactive(t) || Blocked(s, t)) { SingleKeeps(start, s, t); }
  }

  lemma {:induction false} RunKeeps(start: Books, actions: seq<Action>)
    ensures Inv(start, Run(System(start, map[], []), actions))
  {
    if actions != [] {
      var front := actions[..|actions| - 1];
      RunKeeps(start, front);
      DoKeeps(start, Run(System(start, map[], []), front), actions[|actions| - 1]);
    }
  }

  /** Interleaving transactions under row locks is the same as running the committed ones one
      at a time in the order in which they committed; rolled-back ones leave nothing. */
  lemma {:induction false} LockedRunsAreSerial(start: Books, actions: seq<Action>)
    ensures var s := Run(System(start, map[], []), actions); s.books == ApplyAll(start, s.history)
  {
    RunKeeps(start, actions);
  }

  /** So in every interleaving the committed balance is credits minus debits, never negative,
      and every committed row's balanceAfter is the prefix sum in commit order; debits match
      wallet payments and credits match refunds, one to one, and no ride is paid twice. */
  lemma {:induction false} InterleavedLedger(start: Books, actions: seq<Action>)
    requires Opening(start)
    ensures var b := Run(System(start, map[], []), actions).books;
      && (forall u :: u in b.wallets ==> b.wallets[u] == Net(b.ledger, u) && b.wallets[u] >= 0)
      && (forall k :: 0 <= k < |b.ledger| ==> b.ledger[k].balanceAfter == Net(b.ledger[..k + 1], b.ledger[k].wallet))
    ensures Matched(Run(System(start, map[], []), actions).books)
  {
    LockedRunsAreSerial(start, actions);
    var s := Run(System(start, map[], []), actions);
    assert s.books == ApplyAll(start, s.history);
    LedgerExplainsBalances(start, s.history);
    SerialRunsMatch(start, s.history);
  }

  predicate Matched(b: Books) {
    && (forall i, j :: 0 <= i < j < |b.payments| ==> b.payments[i].ride != b.payments[j].ride)
    && (forall e :: e in b.ledger && e.reason == RIDE_PAYMENT ==> Payment1(b, e))
    && (forall p :: p in b.payments && p.provider == WALLET ==> Debit1(b, p))
    && (forall k, l :: 0 <= k < l < |b.ledger| && b.ledger[k].reason == b.ledger[l].reason
                       && b.ledger[k].reason in {RIDE_PAYMENT, REFUND} ==>
          b.ledger[k].reference != b.ledger[l].reference)
    && (forall e :: e in b.ledger && e.reason == REFUND ==> Refund1(b, e))
    && (forall r :: r in b.refunds && r.payment < |b.payments| && b.payments[r.payment].provider != STRIPE ==>
          Credit1(b, r))
  }

  lemma {:induction false} SerialRunsMatch(start: Books, ts: seq<Txn>)
    requires Opening(start)
    ensures Matched(ApplyAll(start, ts))
  {
    DebitsMatchPayments(start, ts);
    CreditsMatchRefunds(start, ts);
    AllSound(start, ts);
  }

  /** Two transactions past their balance update never move the same wallet. */
  lemma {:induction false} OneWriterPerWallet(start: Books, actions: seq<Action>, k: nat, l: nat)
    ensures var s := Run(System(start, map[], []), actions);
      k in s.open && l in s.open && k != l && HoldsLock(s.open[k]) && HoldsLock(s.open[l]) ==>
        s.open[k].user != s.open[l].user
  {
    RunKeeps(start, actions);
    var s := Run(System(start, map[], []), actions);
    assert k in s.open && l in s.open && k != l ==> Apart(s.open[k], s.open[l]);
  }

  // ------------------------------------------------- the other direction

  /** A transaction alone: Begin, then so many advances. */
  function Alone(b: Books, t: Txn, advances: nat): System {
    if advances == 0 then Do(System(b, map[], []), Begin(0, t)) else Do(Alone(b, t, advances - 1), Advance(0))
  }

  function Remaining(stage: Stage): nat {
    match stage case Recording => 6 case Changing => 5 case Reading => 4 case Logging => 3 case Closing => 2
                case Committing => 1
  }

  predicate Solo(b: Books, s: System, t: Txn) {
    s.books == b && s.open.Keys == {0} && s.open[0].txn == t && OpenOk(b, s.open[0])
  }

  predicate Done(b: Books, s: System, t: Txn) {
    s.open == map[] && s.books == Apply(b, t)
  }

  lemma SoloStep(b: Books, s: System, t: Txn)
    requires Interactive(t) && Solo(b, s, t)
    ensures var u := Step(s, 0);
      Done(b, u, t) || (Solo(b, u, t) && Remaining(u.open[0].stage) == Remaining(s.open[0].stage) - 1)
  {
    var o := s.open[0];
    assert s.open - {0} == map[];
    if o.stage == Committing { CommitIsApply(b, o); }
    if t.RefundToWallet? {
      var recorded := b.(refunds := b.refunds + [Refund(t.id, t.payment, t.amount, true)]);
      assert recorded.ledger == b.ledger;
    }
  }

  predicate Driving(b: Books, s: System, t: Txn, k: nat) {
    Done(b, s, t) || (Solo(b, s, t) && Remaining(s.open[0].stage) <= k)
  }

  lemma DriveOne(b: Books, s: System, t: Txn, k: nat)
    requires Interactive(t) && k > 0 && Driving(b, s, t, k)
    ensures Driving(b, Do(s, Advance(0)), t, k - 1)
  {
    if s.open != map[] {
      SoloStep(b, s, t);
      assert Do(s, Advance(0)) == Step(s, 0);
    } else {
      assert Do(s, Advance(0)) == s;
    }
  }

  lemma {:induction false} Drive(b: Books, t: Txn, n: nat)
    requires Interactive(t) && n <= 6
    ensures Driving(b, Alone(b, t, n), t, 6 - n)
  {
    if n > 0 {
      Drive(b, t, n - 1);
      DriveOne(b, Alone(b, t, n - 1), t, 7 - n);
    }
  }

  /** Left alone, every transaction runs to its end and has exactly its atomic effect, whether
      it commits or rolls back: the interleaved machine does nothing less than Apply. */
  lemma AloneIsApply(b: Books, t: Txn)
    requires Interactive(t)
    ensures Alone(b, t, 6).books == Apply(b, t) && Alone(b, t, 6).open == map[]
  {
    Drive(b, t, 6);
  }
}
