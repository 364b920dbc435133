/** Granularity B: calls run one after the other, and the process may die after any durable
    step of any of them.  Nothing repairs the state between calls. */
module RideRecovery {
  import opened Options
  import opened Rides
  import opened RidePlans

  // ------------------------------------------------- recomputed statistics

  function Fare(row: Ride): nat {
    if row.actualFare.Some? then row.actualFare.value else 0
  }

  predicate CompletedBy(row: Ride, driver: nat) { row.status == COMPLETED && row.driver == Some(driver) }

  predicate CompletedFor(row: Ride, passenger: nat) { row.status == COMPLETED && row.passenger == passenger }

  /** Sum of actualFare over a driver's COMPLETED rides. */
  function Earned(rides: seq<Ride>, driver: nat): nat {
    if rides == [] then 0
    else
      var last := rides[|rides| - 1];
      Earned(rides[..|rides| - 1], driver) + if CompletedBy(last, driver) then Fare(last) else 0
  }

  function Driven(rides: seq<Ride>, driver: nat): nat {
    if rides == [] then 0
    else Driven(rides[..|rides| - 1], driver) + if CompletedBy(rides[|rides| - 1], driver) then 1 else 0
  }

  function Ridden(rides: seq<Ride>, passenger: nat): nat {
    if rides == [] then 0
    else Ridden(rides[..|rides| - 1], passenger) + if CompletedFor(rides[|rides| - 1], passenger) then 1 else 0
  }

  // ---------------------------------------------------------- the invariant

  predicate RowConsistent(w: World, row: Ride) {
    && (row.status == REQUESTED ==> row.driver == None)
    && (NeedsDriver(row.status) ==> row.driver.Some?)
    && (row.driver.Some? ==> row.driver.value in w.drivers)
    && row.passenger in w.trips
  }

  /** Two active rides never share a driver or a passenger. */
  predicate Exclusive(a: Ride, b: Ride) {
    Active(a.status) && Active(b.status) ==> a.passenger != b.passenger && (a.driver.Some? ==> a.driver != b.driver)
  }

  predicate NotStranded(w: World, driver: nat)
    requires driver in w.drivers
  {
    w.drivers[driver].online && !HasActiveRide(w.rides, driver) ==> w.drivers[driver].available
  }

  predicate TotalsAgree(w: World, driver: nat)
    requires driver in w.drivers
  {
    && w.drivers[driver].totalRides == Driven(w.rides, driver)
    && w.drivers[driver].totalEarnings == Earned(w.rides, driver)
  }

  ghost predicate Consistent(w: World) {
    && (forall i :: 0 <= i < |w.rides| ==> RowConsistent(w, w.rides[i]))
    && (forall i, j :: 0 <= i < j < |w.rides| ==> Exclusive(w.rides[i], w.rides[j]))
    && (forall d :: d in w.drivers ==> NotStranded(w, d))
    && (forall d :: d in w.drivers ==> TotalsAgree(w, d))
    && (forall p :: p in w.trips ==> w.trips[p] == Ridden(w.rides, p))
  }

  // ------------------------------------------------- which steps are legal

  function Freeing(driver: Option<nat>): Tx {
    if driver.Some? then [SetAvailable(driver.value, true)] else []
  }

  /** The condition under which a durable step keeps Consistent.  Every step of every plan
      meets it in the state in which the step is taken. */
  predicate Legal(w: World, tx: Tx) {
    && |tx| > 0
    && match tx[0]
       case CreateRide(row) =>
         tx == [tx[0]] && row.status == REQUESTED && row.driver == None && row.passenger in w.trips
         && !RidingNow(w.rides, row.passenger)
       case TryAssign(r, d, _, _) => tx == [tx[0]] && d in w.drivers && !HasActiveRide(w.rides, d)
       case UpdateStatus(r, Arrive(_)) => tx == [tx[0]] && CurrentlyIn(w.rides, r, ACCEPTED)
       case UpdateStatus(r, Start(_)) => tx == [tx[0]] && CurrentlyIn(w.rides, r, ARRIVED)
       case UpdateStatus(r, Complete(at, fare)) =>
         && CurrentlyIn(w.rides, r, IN_PROGRESS) && w.rides[r].driver.Some?
         && fare == w.rides[r].estimatedFare
         && tx == CompleteTx(w.rides[r].driver.value, r, w.rides[r], at)
       case UpdateStatus(r, Cancel(_, _)) =>
         r < |w.rides| && Cancellable(w.rides[r].status) && tx == [tx[0]] + Freeing(w.rides[r].driver)
       case TryUpdateStatus(r, expected, Cancel(_, _)) =>
         CurrentlyIn(w.rides, r, expected) && Cancellable(expected) && tx == [tx[0]] + Freeing(w.rides[r].driver)
       case TryUpdateStatus(_, _, _) => false
       case SetAvailable(d, available) => tx == [tx[0]] && !available && HasActiveRide(w.rides, d)
       case SetOnline(d, online, available) => tx == [tx[0]] && online == available
       case AddEarnings(_, _) => false
       case CountTrip(_) => false
       case _ => tx == [tx[0]]
  }

  predicate LegalAll(w: World, txs: seq<Tx>)
    decreases |txs|
  {
    txs == [] || (Legal(w, txs[0]) && LegalAll(ExecTx(w, txs[0]), txs[1..]))
  }

  // ------------------------------------------- one row changes: statistics

  lemma {:induction false} EarnedUpdate(rides: seq<Ride>, i: nat, row: Ride, d: nat)
    requires i < |rides|
    ensures Earned(rides[i := row], d) + (if CompletedBy(rides[i], d) then Fare(rides[i]) else 0)
            == Earned(rides, d) + (if CompletedBy(row, d) then Fare(row) else 0)
    ensures Driven(rides[i := row], d) + (if CompletedBy(rides[i], d) then 1 else 0)
            == Driven(rides, d) + (if CompletedBy(row, d) then 1 else 0)
  {
    var front, n := rides[..|rides| - 1], |rides| - 1;
    if i == n {
      assert rides[i := row][..n] == front;
    } else {
      assert rides[i := row][..n] == front[i := row];
      EarnedUpdate(front, i, row, d);
    }
  }

  lemma {:induction false} RiddenUpdate(rides: seq<Ride>, i: nat, row: Ride, p: nat)
    requires i < |rides|
    ensures Ridden(rides[i := row], p) + (if CompletedFor(rides[i], p) then 1 else 0)
            == Ridden(rides, p) + (if CompletedFor(row, p) then 1 else 0)
  {
    var front, n := rides[..|rides| - 1], |rides| - 1;
    if i == n {
      assert rides[i := row][..n] == front;
    } else {
      assert rides[i := row][..n] == front[i := row];
      RiddenUpdate(front, i, row, p);
    }
  }

  lemma StatsAppend(rides: seq<Ride>, row: Ride)
    requires row.status != COMPLETED
    ensures forall d :: Earned(rides + [row], d) == Earned(rides, d) && Driven(rides + [row], d) == Driven(rides, d)
    ensures forall p :: Ridden(rides + [row], p) == Ridden(rides, p)
  {
    assert (rides + [row])[..|rides|] == rides;
  }

  lemma StatsKept(rides: seq<Ride>, i: nat, row: Ride)
    requires i < |rides| && rides[i].status != COMPLETED && row.status != COMPLETED
    ensures forall d :: Earned(rides[i := row], d) == Earned(rides, d) && Driven(rides[i := row], d) == Driven(rides, d)
    ensures forall p :: Ridden(rides[i := row], p) == Ridden(rides, p)
  {
    forall d: nat
      ensures Earned(rides[i := row], d) == Earned(rides, d) && Driven(rides[i := row], d) == Driven(rides, d)
    {
      EarnedUpdate(rides, i, row, d);
    }
    forall p: nat ensures Ridden(rides[i := row], p) == Ridden(rides, p) { RiddenUpdate(rides, i, row, p); }
  }

  // --------------------------------------------- legal steps keep Consistent

  lemma ActiveKept(rides: seq<Ride>, i: nat, row: Ride, d: nat)
    requires i < |rides| && HasActiveRide(rides, d)
    requires rides[i].driver == Some(d) ==> Active(row.status) && row.driver == Some(d)
    ensures HasActiveRide(rides[i := row], d)
  {
    var j :| 0 <= j < |rides| && rides[j].driver == Some(d) && Active(rides[j].status);
    assert rides[i := row][j].driver == Some(d) && Active(rides[i := row][j].status);
  }

  /** Rewriting one row: it may stop being active, or keep its driver, or gain a driver
      who has no active ride. */
  lemma ShapeKept(w: World, t: World, i: nat, row: Ride)
    requires Consistent(w) && i < |w.rides| && t.rides == w.rides[i := row]
    requires t.drivers.Keys == w.drivers.Keys && t.trips.Keys == w.trips.Keys
    requires RowConsistent(t, row) && row.passenger == w.rides[i].passenger
    requires Active(row.status) ==> Active(w.rides[i].status)
    requires Active(row.status) ==>
      row.driver == w.rides[i].driver || (row.driver.Some? && !HasActiveRide(w.rides, row.driver.value))
    ensures forall k :: 0 <= k < |t.rides| ==> RowConsistent(t, t.rides[k])
    ensures forall k, l :: 0 <= k < l < |t.rides| ==> Exclusive(t.rides[k], t.rides[l])
  {
  }

  /** Arrive, Start and Cancel, conditional or not: the row stays active with its driver, or
      the driver is freed in the same transaction. */
  lemma PatchKeeps(w: World, t: World, i: nat, p: Patch)
    requires Consistent(w) && i < |w.rides| && !p.Complete?
    requires p.Arrive? ==> w.rides[i].status == ACCEPTED
    requires p.Start? ==> w.rides[i].status == ARRIVED
    requires p.Cancel? ==> Cancellable(w.rides[i].status)
    requires t.rides == w.rides[i := Patched(w.rides[i], p)] && t.trips == w.trips
    requires var d := w.rides[i].driver;
      t.drivers == if p.Cancel? && d.Some? && d.value in w.drivers
                   then w.drivers[d.value := w.drivers[d.value].(available := true)] else w.drivers
    ensures Consistent(t)
  {
    var row := Patched(w.rides[i], p);
    assert RowConsistent(w, w.rides[i]);
    ShapeKept(w, t, i, row);
    StatsKept(w.rides, i, row);
    forall d | d in t.drivers ensures NotStranded(t, d) && TotalsAgree(t, d) {
      assert NotStranded(w, d) && TotalsAgree(w, d);
      if HasActiveRide(w.rides, d) && !(p.Cancel? && w.rides[i].driver == Some(d)) {
        ActiveKept(w.rides, i, row, d);
      }
    }
  }

  lemma FourSteps(w: World, a: Stmt, b: Stmt, c: Stmt, d: Stmt)
    ensures ExecTx(w, [a, b, c, d]) == Exec(Exec(Exec(Exec(w, a), b), c), d)
  {
    assert [a, b, c, d] == [a] + [b, c, d] && [b, c, d] == [b] + [c, d] && [c, d] == [c] + [d];
    ExecTxHead(w, a, [b, c, d]);
    ExecTxHead(Exec(w, a), b, [c, d]);
    ExecTxHead(Exec(Exec(w, a), b), c, [d]);
    ExecTxOne(Exec(Exec(Exec(w, a), b), c), d);
  }

  function PaidDrivers(drivers: map<nat, Driver>, d: nat, fare: nat): map<nat, Driver> {
    DriverTable(DriverTable(drivers, SetAvailable(d, true)), AddEarnings(d, fare))
  }

  lemma DriverPaid(drivers: map<nat, Driver>, d: nat, fare: nat)
    requires d in drivers
    ensures var t := PaidDrivers(drivers, d, fare);
      && t.Keys == drivers.Keys
      && t[d] == drivers[d].(available := true, totalRides := drivers[d].totalRides + 1,
                             totalEarnings := drivers[d].totalEarnings + fare)
      && forall x :: x in drivers && x != d ==> t[x] == drivers[x]
  {
  }

  lemma CompleteEffect(w: World, i: nat, d: nat, row: Ride, at: int)
    ensures var t := ExecTx(w, CompleteTx(d, i, row, at));
      && t.rides == RideTable(w.rides, UpdateStatus(i, Complete(at, row.estimatedFare)))
      && t.drivers == PaidDrivers(w.drivers, d, row.estimatedFare)
      && t.trips == TripTable(w.trips, CountTrip(row.passenger))
  {
    var s1, s2, s3, s4 := UpdateStatus(i, Complete(at, row.estimatedFare)), SetAvailable(d, true),
      AddEarnings(d, row.estimatedFare), CountTrip(row.passenger);
    FourSteps(w, s1, s2, s3, s4);
    assert CompleteTx(d, i, row, at) == [s1, s2, s3, s4];
    var w2 := Exec(Exec(w, s1), s2);
    assert w2.drivers == DriverTable(w.drivers, s2) && w2.rides == RideTable(w.rides, s1) && w2.trips == w.trips;
  }

  lemma CompletedRowKeeps(w: World, t: World, i: nat, d: nat, at: int)
    requires Consistent(w) && CurrentlyIn(w.rides, i, IN_PROGRESS) && w.rides[i].driver == Some(d)
    requires t.rides == w.rides[i := Patched(w.rides[i], Complete(at, w.rides[i].estimatedFare))]
    requires t.drivers == PaidDrivers(w.drivers, d, w.rides[i].estimatedFare)
    requires t.trips == TripTable(w.trips, CountTrip(w.rides[i].passenger))
    ensures Consistent(t)
  {
    var row := t.rides[i];
    assert RowConsistent(w, w.rides[i]);
    DriverPaid(w.drivers, d, w.rides[i].estimatedFare);
    ShapeKept(w, t, i, row);
    forall x | x in t.drivers ensures NotStranded(t, x) && TotalsAgree(t, x) {
      assert NotStranded(w, x) && TotalsAgree(w, x);
      EarnedUpdate(w.rides, i, row, x);
      if x != d && HasActiveRide(w.rides, x) { ActiveKept(w.rides, i, row, x); }
    }
    forall p | p in t.trips ensures t.trips[p] == Ridden(t.rides, p) {
      RiddenUpdate(w.rides, i, row, p);
    }
  }

  lemma CompleteKeeps(w: World, i: nat, d: nat, at: int)
    requires Consistent(w) && CurrentlyIn(w.rides, i, IN_PROGRESS) && w.rides[i].driver == Some(d)
    ensures Consistent(ExecTx(w, CompleteTx(d, i, w.rides[i], at)))
  {
    CompleteEffect(w, i, d, w.rides[i], at);
    CompletedRowKeeps(w, ExecTx(w, CompleteTx(d, i, w.rides[i], at)), i, d, at);
  }

  lemma AssignKeeps(w: World, i: nat, d: nat, vehicle: nat, at: int)
    requires Consistent(w) && d in w.drivers && !HasActiveRide(w.rides, d)
    ensures Consistent(Exec(w, TryAssign(i, d, vehicle, at)))
  {
    if CanAssign(w.rides, i) {
      var row := Assigned(w.rides[i], d, vehicle, at);
      var t := Exec(w, TryAssign(i, d, vehicle, at));
      assert RowConsistent(w, w.rides[i]);
      ShapeKept(w, t, i, row);
      StatsKept(w.rides, i, row);
      forall x | x in t.drivers ensures NotStranded(t, x) && TotalsAgree(t, x) {
        assert NotStranded(w, x) && TotalsAgree(w, x);
        if HasActiveRide(w.rides, x) { ActiveKept(w.rides, i, row, x); }
        if x == d { assert t.rides[i].driver == Some(d) && Active(t.rides[i].status); }
      }
    }
  }

  lemma CreateKeeps(w: World, row: Ride)
    requires Consistent(w) && Legal(w, [CreateRide(row)])
    ensures Consistent(Exec(w, CreateRide(row)))
  {
    var t := Exec(w, CreateRide(row));
    StatsAppend(w.rides, row);
    forall k | 0 <= k < |t.rides| ensures RowConsistent(t, t.rides[k]) {
      assert k < |w.rides| ==> RowConsistent(w, w.rides[k]);
    }
    forall k, l | 0 <= k < l < |t.rides| ensures Exclusive(t.rides[k], t.rides[l]) {
      if l < |w.rides| { assert Exclusive(w.rides[k], w.rides[l]); }
    }
    forall d | d in t.drivers ensures NotStranded(t, d) && TotalsAgree(t, d) {
      assert NotStranded(w, d) && TotalsAgree(w, d);
      if HasActiveRide(w.rides, d) {
        var j :| 0 <= j < |w.rides| && w.rides[j].driver == Some(d) && Active(w.rides[j].status);
        assert t.rides[j].driver == Some(d);
      }
    }
  }

  /** Driver-only writes, and writes that touch neither rides nor profiles. */
  lemma OtherKeeps(w: World, s: Stmt)
    requires Consistent(w) && Legal(w, [s]) && !TouchesRides(s)
    ensures Consistent(Exec(w, s))
  {
    var t := Exec(w, s);
    assert t.rides == w.rides && t.trips == w.trips;
    forall k | 0 <= k < |t.rides| ensures RowConsistent(t, t.rides[k]) { assert RowConsistent(w, w.rides[k]); }
    forall d | d in t.drivers ensures NotStranded(t, d) && TotalsAgree(t, d) {
      assert NotStranded(w, d) && TotalsAgree(w, d);
    }
  }

  lemma FreeingEffect(w: World, head: Stmt, driver: Option<nat>)
    ensures ExecTx(w, [head] + Freeing(driver))
            == if driver.Some? then Exec(Exec(w, head), SetAvailable(driver.value, true)) else Exec(w, head)
  {
    ExecTxHead(w, head, Freeing(driver));
    if driver.Some? { ExecTxOne(Exec(w, head), SetAvailable(driver.value, true)); }
  }

  /** The ride a cancelling head names, when its condition holds. */
  lemma CancelKeeps(w: World, head: Stmt, i: nat, p: Patch)
    requires Consistent(w) && i < |w.rides| && p.Cancel? && Cancellable(w.rides[i].status)
    requires Exec(w, head) == w.(rides := w.rides[i := Patched(w.rides[i], p)])
    ensures Consistent(ExecTx(w, [head] + Freeing(w.rides[i].driver)))
  {
    FreeingEffect(w, head, w.rides[i].driver);
    PatchKeeps(w, ExecTx(w, [head] + Freeing(w.rides[i].driver)), i, p);
  }

  lemma RideWriteKeeps(w: World, tx: Tx)
    requires Consistent(w) && Legal(w, tx) && (tx[0].UpdateStatus? || tx[0].TryUpdateStatus?)
    ensures Consistent(ExecTx(w, tx))
  {
    match tx[0]
    case UpdateStatus(r, Complete(at, fare)) => CompleteKeeps(w, r, w.rides[r].driver.value, at);
    case UpdateStatus(r, Cancel(at, actor)) => CancelKeeps(w, tx[0], r, Cancel(at, actor));
    case TryUpdateStatus(r, _, Cancel(at, actor)) => CancelKeeps(w, tx[0], r, Cancel(at, actor));
    case UpdateStatus(r, Arrive(at)) =>
      ExecTxOne(w, tx[0]);
      PatchKeeps(w, Exec(w, tx[0]), r, Arrive(at));
    case UpdateStatus(r, Start(at)) =>
      ExecTxOne(w, tx[0]);
      PatchKeeps(w, Exec(w, tx[0]), r, Start(at));
  }

  lemma LegalKeeps(w: World, tx: Tx)
    requires Consistent(w) && Legal(w, tx)
    ensures Consistent(ExecTx(w, tx))
  {
    if tx[0].UpdateStatus? || tx[0].TryUpdateStatus? {
      RideWriteKeeps(w, tx);
    } else {
      var s := tx[0];
      ExecTxOne(w, s);
      if s.CreateRide? {
        CreateKeeps(w, s.row);
      } else if s.TryAssign? {
        AssignKeeps(w, s.ride, s.driver, s.vehicle, s.at);
      } else {
        OtherKeeps(w, s);
      }
    }
  }

  lemma {:induction false} LegalAllKeeps(w: World, txs: seq<Tx>, k: nat)
    requires Consistent(w) && LegalAll(w, txs) && k <= |txs|
    ensures Consistent(ExecAll(w, txs[..k]))
    decreases k
  {
    if k > 0 {
      LegalKeeps(w, txs[0]);
      assert txs[..k][0] == txs[0] && txs[..k][1..] == txs[1..][..k - 1];
      LegalAllKeeps(ExecTx(w, txs[0]), txs[1..], k - 1);
    }
  }

  // ------------------------------------------------- every plan is legal

  lemma LegalHead(w: World, tx: Tx, rest: seq<Tx>)
    requires Legal(w, tx) && LegalAll(ExecTx(w, tx), rest)
    ensures LegalAll(w, [tx] + rest)
  {
  }

  lemma {:induction false} LegalAppend(w: World, a: seq<Tx>, b: seq<Tx>)
    requires LegalAll(w, a) && LegalAll(ExecAll(w, a), b)
    ensures LegalAll(w, a + b)
    decreases |a|
  {
    if a == [] {
      assert a + b == b;
    } else {
      assert (a + b)[1..] == a[1..] + b;
      LegalAppend(ExecTx(w, a[0]), a[1..], b);
    }
  }

  /** Redis and log statements, which have no precondition. */
  predicate FreeStmt(s: Stmt) {
    s.Record? || s.AddPending? || s.RemovePending? || s.Reject? || s.IncrAttempts? || s.ExpireAttempts?
    || s.DelAttempts?
  }

  lemma FreeStep(w: World, s: Stmt)
    requires FreeStmt(s)
    ensures Legal(w, [s])
    ensures var t := ExecTx(w, [s]); t.rides == w.rides && t.drivers == w.drivers && t.trips == w.trips
  {
  }

  lemma {:induction false} FreeLegal(w: World, txs: seq<Tx>)
    requires forall tx :: tx in txs ==> |tx| == 1 && FreeStmt(tx[0])
    ensures LegalAll(w, txs)
    ensures var t := ExecAll(w, txs); t.rides == w.rides && t.drivers == w.drivers && t.trips == w.trips
    decreases |txs|
  {
    if txs != [] {
      assert txs[0] in txs && txs[0] == [txs[0][0]];
      FreeStep(w, txs[0][0]);
      FreeLegal(ExecTx(w, txs[0]), txs[1..]);
    }
  }

  /** A plan made of one guarded step followed by free ones. */
  lemma OneThenFree(w: World, tx: Tx, rest: seq<Tx>)
    requires Legal(w, tx) && forall x :: x in rest ==> |x| == 1 && FreeStmt(x[0])
    ensures LegalAll(w, [tx] + rest)
  {
    FreeLegal(ExecTx(w, tx), rest);
    LegalHead(w, tx, rest);
  }

  lemma AssignedLegal(w: World, user: nat, ride: nat, vehicle: nat, now: int)
    requires user in w.drivers && !HasActiveRide(w.rides, user) && CanAssign(w.rides, ride)
    ensures LegalAll(w, [[TryAssign(ride, user, vehicle, now)], [SetAvailable(user, false)], [RemovePending(ride)],
                         [Record(ride, ACCEPTED)]])
  {
    var assign := [TryAssign(ride, user, vehicle, now)];
    var rest := [[SetAvailable(user, false)], [RemovePending(ride)], [Record(ride, ACCEPTED)]];
    var t := ExecTx(w, assign);
    ExecTxOne(w, assign[0]);
    assert t.rides[ride].driver == Some(user) && Active(t.rides[ride].status);
    assert rest == [[SetAvailable(user, false)]] + rest[1..];
    OneThenFree(t, [SetAvailable(user, false)], rest[1..]);
    LegalHead(w, assign, rest);
  }

  lemma AcceptLegal(w: World, user: nat, ride: nat, now: int)
    ensures LegalAll(w, AcceptPlan(w, user, ride, now))
  {
    if MayAccept(w, user, ride) {
      var vehicle := w.drivers[user].vehicles[w.rides[ride].vehicleType];
      if CanAssign(w.rides, ride) {
        AssignedLegal(w, user, ride, vehicle, now);
      } else {
        OneThenFree(w, [TryAssign(ride, user, vehicle, now)], []);
        assert AcceptPlan(w, user, ride, now) == [[TryAssign(ride, user, vehicle, now)]] + [];
      }
    }
  }

  /** After a correct code: the key is deleted, the ride is under way, the log says so. */
  lemma StartTailLegal(w: World, ride: nat, now: int)
    requires CurrentlyIn(w.rides, ride, ARRIVED)
    ensures LegalAll(w, [[DelAttempts(ride)], [UpdateStatus(ride, Start(now))], [Record(ride, IN_PROGRESS)]])
  {
    var rest := [[UpdateStatus(ride, Start(now))]] + [[Record(ride, IN_PROGRESS)]];
    FreeStep(w, DelAttempts(ride));
    OneThenFree(ExecTx(w, [DelAttempts(ride)]), [UpdateStatus(ride, Start(now))], [[Record(ride, IN_PROGRESS)]]);
    LegalHead(w, [DelAttempts(ride)], rest);
    assert [[DelAttempts(ride)], [UpdateStatus(ride, Start(now))], [Record(ride, IN_PROGRESS)]]
        == [[DelAttempts(ride)]] + rest;
  }

  lemma StartLegal(w: World, user: nat, ride: nat, guess: nat, now: int)
    ensures LegalAll(w, StartPlan(w, user, ride, guess, now))
  {
    if CountsAttempt(w, user, ride, now) {
      var a := AttemptPlan(w, ride, now);
      FreeLegal(w, a);
      StartTailLegal(ExecAll(w, a), ride, now);
      LegalAppend(w, a, [[DelAttempts(ride)], [UpdateStatus(ride, Start(now))], [Record(ride, IN_PROGRESS)]]);
    }
  }

  /** Rows found by the stale queries, still as they were found, each ride once. */
  predicate FoundAsIs(rides: seq<Ride>, found: seq<Stale>) {
    && (forall x :: x in found ==> x.ride < |rides| && x.row == rides[x.ride] && Cancellable(x.row.status)
                                   && (x.row.status == REQUESTED ==> x.row.driver == None))
    && (forall i, j :: 0 <= i < j < |found| ==> found[i].ride != found[j].ride)
  }

  lemma SweepTxEffect(w: World, x: Stale, now: int)
    requires x.ride < |w.rides| && x.row == w.rides[x.ride]
    ensures ExecTx(w, SweepTx(x, now)).rides == w.rides[x.ride := Patched(x.row, Cancel(now, SYSTEM))]
    ensures ExecTx(w, SweepTx(x, now)).drivers.Keys == w.drivers.Keys
  {
    var s := TryUpdateStatus(x.ride, x.row.status, Cancel(now, SYSTEM));
    var freed := if x.row.status == REQUESTED then None else x.row.driver;
    assert SweepTx(x, now) == [s] + Freeing(freed);
    FreeingEffect(w, s, freed);
  }

  /** One loop iteration cancels its own row and no other. */
  lemma SweepOneRides(w: World, x: Stale, now: int)
    requires x.ride < |w.rides| && x.row == w.rides[x.ride]
    ensures ExecAll(w, SweepOne(w.rides, x, now)).rides == w.rides[x.ride := Patched(x.row, Cancel(now, SYSTEM))]
    ensures ExecAll(w, SweepOne(w.rides, x, now)).drivers.Keys == w.drivers.Keys
  {
    var rest := SweepOne(w.rides, x, now)[1..];
    SweepTxEffect(w, x, now);
    assert SweepOne(w.rides, x, now) == [SweepTx(x, now)] + rest;
    ExecAllHead(w, SweepTx(x, now), rest);
    FreeLegal(ExecTx(w, SweepTx(x, now)), rest);
  }

  /** An iteration leaves the rows still to be processed as they were found. */
  lemma SweepKeepsRest(w: World, found: seq<Stale>, now: int)
    requires found != [] && FoundAsIs(w.rides, found)
    ensures FoundAsIs(ExecAll(w, SweepOne(w.rides, found[0], now)).rides, found[1..])
  {
    assert found[0] in found;
    SweepOneRides(w, found[0], now);
    var rides := ExecAll(w, SweepOne(w.rides, found[0], now)).rides;
    forall y | y in found[1..]
      ensures y.ride < |rides| && y.row == rides[y.ride] && Cancellable(y.row.status)
              && (y.row.status == REQUESTED ==> y.row.driver == None)
    {
      var k :| 0 <= k < |found[1..]| && found[1..][k] == y;
      assert found[k + 1] == y && found[0].ride != found[k + 1].ride;
    }
  }

  lemma {:induction false} SweepLegal(w: World, found: seq<Stale>, now: int)
    requires FoundAsIs(w.rides, found)
    ensures LegalAll(w, SweepEach(w, found, now))
    decreases |found|
  {
    if found != [] {
      var x := found[0];
      assert x in found;
      var one := SweepOne(w.rides, x, now);
      var t := ExecAll(w, one);
      assert SweepTx(x, now) == [SweepTx(x, now)[0]] + Freeing(w.rides[x.ride].driver);
      OneThenFree(w, SweepTx(x, now), one[1..]);
      assert one == [SweepTx(x, now)] + one[1..];
      SweepOneRides(w, x, now);
      SweepKeepsRest(w, found, now);
      SweepLegal(t, found[1..], now);
      LegalAppend(w, one, SweepEach(t, found[1..], now));
    }
  }

  predicate Increasing(f: seq<Stale>) {
    forall i, j :: 0 <= i < j < |f| ==> f[i].ride < f[j].ride
  }

  lemma {:induction false} FindStaleOnce(rides: seq<Ride>, status: Status, now: int)
    ensures Increasing(FindStale(rides, status, now))
  {
    if rides != [] {
      var last := |rides| - 1;
      FindStaleOnce(rides[..last], status, now);
      var f := FindStale(rides[..last], status, now);
      var g := FindStale(rides, status, now);
      forall i, j | 0 <= i < j < |g| ensures g[i].ride < g[j].ride {
        assert f[i] in f && g[i] == f[i];
        assert j < |f| ==> g[j] == f[j];
      }
    }
  }

  /** The three queries find each ride at most once, and only rides that may be cancelled. */
  lemma AllStaleOnce(rides: seq<Ride>, now: int)
    ensures var f := AllStale(rides, now);
      && (forall x :: x in f ==> x.ride < |rides| && x.row == rides[x.ride] && Cancellable(x.row.status))
      && forall i, j :: 0 <= i < j < |f| ==> f[i].ride != f[j].ride
  {
    var f := AllStale(rides, now);
    FindStaleOnce(rides, REQUESTED, now);
    FindStaleOnce(rides, ACCEPTED, now);
    FindStaleOnce(rides, ARRIVED, now);
    var r, a := |FindStale(rides, REQUESTED, now)|, |FindStale(rides, ACCEPTED, now)|;
    forall i, j | 0 <= i < j < |f| ensures f[i].ride != f[j].ride {
      assert f[i].row.status == if i < r then REQUESTED else if i < r + a then ACCEPTED else ARRIVED by {
        assert f[i] in if i < r then FindStale(rides, REQUESTED, now)
                       else if i < r + a then FindStale(rides, ACCEPTED, now) else FindStale(rides, ARRIVED, now);
      }
      assert f[j].row.status == if j < r then REQUESTED else if j < r + a then ACCEPTED else ARRIVED by {
        assert f[j] in if j < r then FindStale(rides, REQUESTED, now)
                       else if j < r + a then FindStale(rides, ACCEPTED, now) else FindStale(rides, ARRIVED, now);
      }
      assert f[i] in f && f[j] in f;
    }
  }

  lemma AllStaleAsIs(w: World, now: int)
    requires Consistent(w)
    ensures FoundAsIs(w.rides, AllStale(w.rides, now))
  {
    AllStaleOnce(w.rides, now);
    forall x | x in AllStale(w.rides, now) ensures x.row.status == REQUESTED ==> x.row.driver == None {
      assert RowConsistent(w, w.rides[x.ride]);
    }
  }

  lemma {:induction false} HeartbeatLegal(w: World, listed: seq<nat>, alive: set<nat>)
    ensures LegalAll(w, HeartbeatPlan(listed, alive))
    decreases |listed|
  {
    if listed != [] {
      if listed[0] in alive {
        HeartbeatLegal(w, listed[1..], alive);
        assert [] + HeartbeatPlan(listed[1..], alive) == HeartbeatPlan(listed[1..], alive);
      } else {
        var tx := [SetOnline(listed[0], false, false)];
        HeartbeatLegal(ExecTx(w, tx), listed[1..], alive);
        LegalHead(w, tx, HeartbeatPlan(listed[1..], alive));
      }
    }
  }

  /** A plan whose first step is guarded and whose other steps are free. */
  lemma GuardedLegal(w: World, plan: seq<Tx>)
    requires plan != [] && Legal(w, plan[0])
    requires forall x: Tx :: x in plan[1..] ==> |x| == 1 && FreeStmt(x[0])
    ensures LegalAll(w, plan)
  {
    assert plan == [plan[0]] + plan[1..];
    OneThenFree(w, plan[0], plan[1..]);
  }

  lemma CancelLegal(w: World, user: nat, ride: nat, now: int)
    ensures LegalAll(w, CancelPlan(w, user, ride, now))
  {
    var plan := CancelPlan(w, user, ride, now);
    if MayCancel(w, user, ride) {
      assert plan[0] == [plan[0][0]] + Freeing(w.rides[ride].driver);
      GuardedLegal(w, plan);
    }
  }

  lemma PlanLegal(w: World, c: Call, now: int)
    requires Consistent(w)
    ensures LegalAll(w, Plan(w, c, now))
  {
    match c
    case AcceptRide(u, r) => AcceptLegal(w, u, r, now);
    case StartRide(u, r, guess) => StartLegal(w, u, r, guess, now);
    case ExpireStaleRides =>
      AllStaleAsIs(w, now);
      SweepLegal(w, AllStale(w.rides, now), now);
    case ExpireStaleHeartbeats(listed, alive) => HeartbeatLegal(w, listed, alive);
    case CancelRide(u, r) => CancelLegal(w, u, r, now);
    case _ => if Plan(w, c, now) != [] { GuardedLegal(w, Plan(w, c, now)); }
  }

  // --------------------------------------------------------- whole B runs

  /** One call of a run: which call, at what instant, and how many of its durable steps
      happened before the process died (all of them, if `survived` is large enough). */
  datatype Episode = Episode(call: Call, now: int, survived: nat)

  function Survive(w: World, e: Episode): World {
    var plan := Plan(w, e.call, e.now);
    ExecAll(w, plan[..if e.survived < |plan| then e.survived else |plan|])
  }

  function CrashRun(w: World, episodes: seq<Episode>): World {
    if episodes == [] then w
    else Survive(CrashRun(w, episodes[..|episodes| - 1]), episodes[|episodes| - 1])
  }

  /** Before the first ride: profiles exist, nothing has been driven. */
  predicate Opening(w: World) {
    && w.rides == []
    && (forall d :: d in w.drivers ==>
          w.drivers[d].totalRides == 0 && w.drivers[d].totalEarnings == 0
          && (w.drivers[d].online ==> w.drivers[d].available))
    && (forall p :: p in w.trips ==> w.trips[p] == 0)
  }

  lemma {:induction false} CrashRunConsistent(w: World, episodes: seq<Episode>)
    requires Opening(w)
    ensures Consistent(CrashRun(w, episodes))
  {
    if episodes != [] {
      var front, e := episodes[..|episodes| - 1], episodes[|episodes| - 1];
      CrashRunConsistent(w, front);
      var s := CrashRun(w, front);
      var plan := Plan(s, e.call, e.now);
      PlanLegal(s, e.call, e.now);
      LegalAllKeeps(s, plan, if e.survived < |plan| then e.survived else |plan|);
    }
  }

  /** Wherever processes die, an online driver without an active ride is available. */
  lemma {:induction false} NoStrandedDriver(w: World, episodes: seq<Episode>, driver: nat)
    requires Opening(w)
    ensures var t := CrashRun(w, episodes);
      driver in t.drivers && t.drivers[driver].online && !t.drivers[driver].available ==>
        exists i | 0 <= i < |t.rides| :: t.rides[i].driver == Some(driver) && Active(t.rides[i].status)
  {
    CrashRunConsistent(w, episodes);
    var t := CrashRun(w, episodes);
    assert driver in t.drivers ==> NotStranded(t, driver);
  }

  /** Each driver and each passenger has at most one active ride in every reachable state. */
  lemma {:induction false} OneActiveRideEach(w: World, episodes: seq<Episode>, i: nat, j: nat)
    requires Opening(w)
    ensures var rides := CrashRun(w, episodes).rides;
      i < |rides| && j < |rides| && i != j && Active(rides[i].status) && Active(rides[j].status) ==>
        rides[i].passenger != rides[j].passenger && (rides[i].driver.Some? ==> rides[i].driver != rides[j].driver)
  {
    CrashRunConsistent(w, episodes);
    var rides := CrashRun(w, episodes).rides;
    if i < j < |rides| { assert Exclusive(rides[i], rides[j]); }
    if j < i < |rides| { assert Exclusive(rides[j], rides[i]); }
  }

  /** The cached statistics equal their recomputation from the COMPLETED rides. */
  lemma {:induction false} CachedTotalsAgree(w: World, episodes: seq<Episode>)
    requires Opening(w)
    ensures var t := CrashRun(w, episodes);
      && (forall d :: d in t.drivers ==>
            t.drivers[d].totalEarnings == Earned(t.rides, d) && t.drivers[d].totalRides == Driven(t.rides, d))
      && (forall p :: p in t.trips ==> t.trips[p] == Ridden(t.rides, p))
  {
    CrashRunConsistent(w, episodes);
    var t := CrashRun(w, episodes);
    forall d | d in t.drivers
      ensures t.drivers[d].totalEarnings == Earned(t.rides, d) && t.drivers[d].totalRides == Driven(t.rides, d)
    {
      assert TotalsAgree(t, d);
    }
  }
}
