/** What each ride service call writes, column by column and for every state of the tables.  The
    statements name no statement, plan or guard of the model: each says under which condition
    on the tables the call acts, and what every table is afterwards. */
module RideEffects {
  import opened Options
  import opened Rides
  import opened RidePlans
  import R = RideRecovery
  import C = RideRuns

  lemma OneStep(w: World, s: Stmt)
    ensures ExecAll(w, [[s]]) == Exec(w, s)
  {
    assert [[s]] == [[s]] + [];
    ExecAllHead(w, [s], []);
    ExecTxOne(w, s);
  }

  lemma TwoStatements(w: World, a: Stmt, b: Stmt)
    ensures ExecAll(w, [[a], [b]]) == Exec(Exec(w, a), b)
  {
    C.TwoSteps(w, [a], [b]);
    ExecTxOne(w, a);
    ExecTxOne(Exec(w, a), b);
  }

  lemma ThreeStatements(w: World, a: Stmt, b: Stmt, c: Stmt)
    ensures ExecAll(w, [[a], [b], [c]]) == Exec(Exec(Exec(w, a), b), c)
  {
    assert [[a], [b], [c]] == [[a]] + [[b], [c]];
    ExecAllHead(w, [a], [[b], [c]]);
    ExecTxOne(w, a);
    TwoStatements(Exec(w, a), b, c);
  }

  lemma TxOfTwo(w: World, a: Stmt, b: Stmt)
    ensures ExecTx(w, [a, b]) == Exec(Exec(w, a), b)
  {
    assert [a, b] == [a] + [b];
    ExecTxHead(w, a, [b]);
    ExecTxOne(Exec(w, a), b);
  }

  lemma TxOfFour(w: World, a: Stmt, b: Stmt, c: Stmt, d: Stmt)
    ensures ExecTx(w, [a, b, c, d]) == Exec(Exec(Exec(Exec(w, a), b), c), d)
  {
    assert [a, b, c, d] == [a] + [b, c, d] && [b, c, d] == [b] + [c, d];
    ExecTxHead(w, a, [b, c, d]);
    ExecTxHead(Exec(w, a), b, [c, d]);
    TxOfTwo(Exec(Exec(w, a), b), c, d);
  }

  // What a single statement writes.

  lemma WriteOf(w: World, ride: nat, patch: Patch)
    requires ride < |w.rides|
    ensures Exec(w, UpdateStatus(ride, patch)) == w.(rides := w.rides[ride := Patched(w.rides[ride], patch)])
  {
  }

  lemma PresenceOf(w: World, d: nat, available: bool)
    ensures Exec(w, SetAvailable(d, available))
      == if d in w.drivers then w.(drivers := w.drivers[d := w.drivers[d].(available := available)]) else w
  {
  }

  lemma EarningsOf(w: World, d: nat, fare: nat)
    requires d in w.drivers
    ensures Exec(w, AddEarnings(d, fare))
      == w.(drivers := w.drivers[d := w.drivers[d].(totalRides := w.drivers[d].totalRides + 1,
                                                    totalEarnings := w.drivers[d].totalEarnings + fare)])
  {
  }

  lemma TripOf(w: World, p: nat)
    ensures Exec(w, CountTrip(p)) == if p in w.trips then w.(trips := w.trips[p := w.trips[p] + 1]) else w
  {
  }

  lemma LogOf(w: World, ride: nat, status: Status)
    ensures Exec(w, Record(ride, status)) == w.(trail := w.trail + [(ride, status)])
  {
  }

  lemma UnlistOf(w: World, ride: nat)
    ensures Exec(w, RemovePending(ride)) == w.(pending := w.pending - {ride})
  {
  }

  /** The clean-up that follows a cancellation. */
  lemma UnlistAndLog(w: World, ride: nat, status: Status)
    ensures Exec(Exec(w, RemovePending(ride)), Record(ride, status))
      == w.(pending := w.pending - {ride}, trail := w.trail + [(ride, status)])
  {
    UnlistOf(w, ride);
    LogOf(w.(pending := w.pending - {ride}), ride, status);
  }

  lemma WriteAndLog(w: World, ride: nat, patch: Patch, status: Status)
    requires ride < |w.rides|
    ensures ExecAll(w, [[UpdateStatus(ride, patch)], [Record(ride, status)]])
      == w.(rides := w.rides[ride := Patched(w.rides[ride], patch)], trail := w.trail + [(ride, status)])
  {
    TwoStatements(w, UpdateStatus(ride, patch), Record(ride, status));
    WriteOf(w, ride, patch);
    LogOf(Exec(w, UpdateStatus(ride, patch)), ride, status);
  }

  // ------------------------------------------------------------- passengers

  /** A user with a passenger profile and no unfinished ride gets one new row, with the request's
      columns and nothing else filled in; it is logged and listed. */
  lemma RequestTables(w: World, user: nat, vehicleType: nat, pickup: Place, otp: nat, fare: nat, now: int)
    ensures var t := Whole(w, RequestRide(user, vehicleType, pickup, otp, fare), now);
      if user in w.trips
         && forall i :: 0 <= i < |w.rides| && w.rides[i].passenger == user ==>
              w.rides[i].status == COMPLETED || w.rides[i].status == CANCELLED
      then
        && |t.rides| == |w.rides| + 1 && t.rides[..|w.rides|] == w.rides
        && (var row := t.rides[|w.rides|];
            && row.passenger == user && row.vehicleType == vehicleType && row.pickup == pickup
            && row.otp == otp && row.estimatedFare == fare && row.status == REQUESTED && row.requestedAt == now
            && row.driver == None && row.vehicle == None && row.actualFare == None && row.acceptedAt == None
            && row.arrivedAt == None && row.startedAt == None && row.completedAt == None
            && row.cancelledAt == None && row.cancelledBy == None)
        && t.trail == w.trail + [(|w.rides|, REQUESTED)]
        && t.pending == w.pending[|w.rides| := pickup]
        && t.drivers == w.drivers && t.trips == w.trips && t.rejected == w.rejected && t.attempts == w.attempts
      else t == w
  {
    if user in w.trips && !RidingNow(w.rides, user) {
      ThreeStatements(w, CreateRide(NewRide(user, vehicleType, pickup, otp, fare, now)),
                      Record(|w.rides|, REQUESTED), AddPending(|w.rides|, pickup));
    }
  }

  lemma CancelRow(w: World, ride: nat, actor: Canceller, now: int)
    requires ride < |w.rides|
    ensures var row := w.rides[ride];
      ExecTx(w, CancelTx(ride, row, actor, now))
      == w.(rides := w.rides[ride := row.(status := CANCELLED, cancelledAt := Some(now), cancelledBy := Some(actor))],
            drivers := if row.driver.Some? && row.driver.value in w.drivers
                       then w.drivers[row.driver.value := w.drivers[row.driver.value].(available := true)]
                       else w.drivers)
  {
    var row, s := w.rides[ride], UpdateStatus(ride, Cancel(now, actor));
    WriteOf(w, ride, Cancel(now, actor));
    if row.driver.Some? {
      assert CancelTx(ride, row, actor, now) == [s, SetAvailable(row.driver.value, true)];
      TxOfTwo(w, s, SetAvailable(row.driver.value, true));
      PresenceOf(Exec(w, s), row.driver.value, true);
    } else {
      assert CancelTx(ride, row, actor, now) == [s];
      ExecTxOne(w, s);
    }
  }

  lemma CancelSteps(w: World, ride: nat, actor: Canceller, now: int)
    requires ride < |w.rides|
    ensures var row := w.rides[ride];
      ExecAll(w, [CancelTx(ride, row, actor, now), [RemovePending(ride)], [Record(ride, CANCELLED)]])
      == w.(rides := w.rides[ride := row.(status := CANCELLED, cancelledAt := Some(now), cancelledBy := Some(actor))],
            drivers := if row.driver.Some? && row.driver.value in w.drivers
                       then w.drivers[row.driver.value := w.drivers[row.driver.value].(available := true)]
                       else w.drivers,
            pending := w.pending - {ride},
            trail := w.trail + [(ride, CANCELLED)])
  {
    var tx := CancelTx(ride, w.rides[ride], actor, now);
    C.ThreeSteps(w, tx, [RemovePending(ride)], [Record(ride, CANCELLED)]);
    CancelRow(w, ride, actor, now);
    var w1 := ExecTx(w, tx);
    ExecTxOne(w1, RemovePending(ride));
    ExecTxOne(Exec(w1, RemovePending(ride)), Record(ride, CANCELLED));
    UnlistAndLog(w1, ride, CANCELLED);
  }

  /** The passenger or the driver of a ride that is not yet under way cancels it, which frees the
      driver, if any. */
  lemma CancelTables(w: World, user: nat, ride: nat, now: int)
    ensures var t := Whole(w, CancelRide(user, ride), now);
      if ride < |w.rides| && (w.rides[ride].passenger == user || w.rides[ride].driver == Some(user))
         && w.rides[ride].status in {REQUESTED, ACCEPTED, ARRIVED}
      then
        var row := w.rides[ride];
        t == w.(rides := w.rides[ride := row.(
                  status := CANCELLED, cancelledAt := Some(now),
                  cancelledBy := Some(if row.passenger == user then PASSENGER else DRIVER))],
                drivers := if row.driver.Some? && row.driver.value in w.drivers
                           then w.drivers[row.driver.value := w.drivers[row.driver.value].(available := true)]
                           else w.drivers,
                pending := w.pending - {ride},
                trail := w.trail + [(ride, CANCELLED)])
      else t == w
  {
    if MayCancel(w, user, ride) {
      CancelSteps(w, ride, if w.rides[ride].passenger == user then PASSENGER else DRIVER, now);
    }
  }

  // ---------------------------------------------------------------- drivers

  lemma AcceptSteps(w: World, user: nat, ride: nat, vehicle: nat, now: int)
    requires CanAssign(w.rides, ride) && user in w.drivers
    ensures ExecAll(w, [[TryAssign(ride, user, vehicle, now)], [SetAvailable(user, false)], [RemovePending(ride)],
                        [Record(ride, ACCEPTED)]])
      == w.(rides := w.rides[ride := w.rides[ride].(status := ACCEPTED, driver := Some(user),
                                                    acceptedAt := Some(now), vehicle := Some(vehicle))],
            drivers := w.drivers[user := w.drivers[user].(available := false)],
            pending := w.pending - {ride},
            trail := w.trail + [(ride, ACCEPTED)])
  {
    var s1, s2, s3, s4 :=
      TryAssign(ride, user, vehicle, now), SetAvailable(user, false), RemovePending(ride), Record(ride, ACCEPTED);
    assert [[s1], [s2], [s3], [s4]] == [[s1]] + [[s2], [s3], [s4]];
    ExecAllHead(w, [s1], [[s2], [s3], [s4]]);
    ExecTxOne(w, s1);
    var w1 := Exec(w, s1);
    assert w1 == w.(rides := w.rides[ride := Assigned(w.rides[ride], user, vehicle, now)]);
    ThreeStatements(w1, s2, s3, s4);
    PresenceOf(w1, user, false);
    UnlistAndLog(Exec(w1, s2), ride, ACCEPTED);
  }

  /** An approved, online and available driver with no unfinished ride takes a free ride with
      the vehicle they registered for its type. */
  lemma AcceptTables(w: World, user: nat, ride: nat, now: int)
    ensures var t := Whole(w, AcceptRide(user, ride), now);
      if user in w.drivers && w.drivers[user].approved && w.drivers[user].online && w.drivers[user].available
         && (forall i :: 0 <= i < |w.rides| && w.rides[i].driver == Some(user) ==>
               w.rides[i].status == COMPLETED || w.rides[i].status == CANCELLED)
         && ride < |w.rides| && w.rides[ride].status == REQUESTED && w.rides[ride].driver == None
         && w.rides[ride].vehicleType in w.drivers[user].vehicles
      then
        t == w.(rides := w.rides[ride := w.rides[ride].(
                  status := ACCEPTED, driver := Some(user), acceptedAt := Some(now),
                  vehicle := Some(w.drivers[user].vehicles[w.rides[ride].vehicleType]))],
                drivers := w.drivers[user := w.drivers[user].(available := false)],
                pending := w.pending - {ride},
                trail := w.trail + [(ride, ACCEPTED)])
      else t == w
  {
    if MayAccept(w, user, ride) {
      var vehicle := w.drivers[user].vehicles[w.rides[ride].vehicleType];
      if CanAssign(w.rides, ride) {
        AcceptSteps(w, user, ride, vehicle, now);
      } else {
        OneStep(w, TryAssign(ride, user, vehicle, now));
      }
    }
  }

  lemma RejectTables(w: World, user: nat, ride: nat, now: int)
    ensures Whole(w, RejectRide(user, ride), now)
      == if user in w.drivers then w.(rejected := w.rejected + {(ride, user)}) else w
  {
    if user in w.drivers { OneStep(w, Reject(ride, user)); }
  }

  lemma ArriveTables(w: World, user: nat, ride: nat, now: int)
    ensures Whole(w, MarkArrived(user, ride), now)
      == if user in w.drivers && ride < |w.rides| && w.rides[ride].driver == Some(user)
            && w.rides[ride].status == ACCEPTED
         then w.(rides := w.rides[ride := w.rides[ride].(status := ARRIVED, arrivedAt := Some(now))],
                 trail := w.trail + [(ride, ARRIVED)])
         else w
  {
    if AssignedIn(w, user, ride, ACCEPTED) {
      WriteAndLog(w, ride, Arrive(now), ARRIVED);
    }
  }

  /** The number of the attempt that a call makes: a missing or expired counter starts over. */
  lemma NextAttemptIs(attempts: map<nat, Counter>, ride: nat, now: int)
    ensures NextAttempt(attempts, ride, now)
      == if ride in attempts && (attempts[ride].expiresAt.Some? ==> now < attempts[ride].expiresAt.value)
         then attempts[ride].count + 1 else 1
  {
  }

  /** The attempt counter after one more attempt; the first attempt starts its 15 minutes. */
  lemma AttemptTables(w: World, ride: nat, now: int)
    ensures var live := ride in w.attempts
        && (w.attempts[ride].expiresAt.Some? ==> now < w.attempts[ride].expiresAt.value);
      var n := if live then w.attempts[ride].count + 1 else 1;
      ExecAll(w, AttemptPlan(w, ride, now))
      == w.(attempts := w.attempts[ride :=
              Counter(n, if n == 1 then Some(now + 900_000) else w.attempts[ride].expiresAt)])
  {
    var s1, s2 := IncrAttempts(ride, now), ExpireAttempts(ride, now + OTP_ATTEMPT_WINDOW);
    var n := NextAttempt(w.attempts, ride, now);
    NextAttemptIs(w.attempts, ride, now);
    OneStep(w, s1);
    if n == 1 {
      assert AttemptPlan(w, ride, now) == [[s1], [s2]];
      TwoStatements(w, s1, s2);
      assert Exec(w, s1) == w.(attempts := w.attempts[ride := Counter(1, None)]);
      assert Exec(Exec(w, s1), s2).attempts == w.attempts[ride := Counter(1, Some(now + 900_000))];
    } else {
      assert AttemptPlan(w, ride, now) == [[s1]];
      assert Exec(w, s1) == w.(attempts := w.attempts[ride := Counter(n, w.attempts[ride].expiresAt)]);
    }
  }

  lemma StartSteps(w: World, ride: nat, now: int)
    requires ride < |w.rides|
    ensures ExecAll(w, [[DelAttempts(ride)], [UpdateStatus(ride, Start(now))], [Record(ride, IN_PROGRESS)]])
      == w.(rides := w.rides[ride := w.rides[ride].(status := IN_PROGRESS, startedAt := Some(now))],
            trail := w.trail + [(ride, IN_PROGRESS)], attempts := w.attempts - {ride})
  {
    var w1 := w.(attempts := w.attempts - {ride});
    assert [[DelAttempts(ride)], [UpdateStatus(ride, Start(now))], [Record(ride, IN_PROGRESS)]]
        == [[DelAttempts(ride)]] + [[UpdateStatus(ride, Start(now))], [Record(ride, IN_PROGRESS)]];
    ExecAllHead(w, [DelAttempts(ride)], [[UpdateStatus(ride, Start(now))], [Record(ride, IN_PROGRESS)]]);
    ExecTxOne(w, DelAttempts(ride));
    assert Exec(w, DelAttempts(ride)) == w1;
    WriteAndLog(w1, ride, Start(now), IN_PROGRESS);
  }

  lemma AttemptOnly(w: World, ride: nat, now: int)
    ensures var t := ExecAll(w, AttemptPlan(w, ride, now));
      t == w.(attempts := t.attempts) && t.attempts - {ride} == w.attempts - {ride}
  {
    AttemptTables(w, ride, now);
  }

  lemma StartedTables(w: World, ride: nat, now: int)
    requires ride < |w.rides|
    ensures ExecAll(w, AttemptPlan(w, ride, now)
                + [[DelAttempts(ride)], [UpdateStatus(ride, Start(now))], [Record(ride, IN_PROGRESS)]])
      == w.(rides := w.rides[ride := w.rides[ride].(status := IN_PROGRESS, startedAt := Some(now))],
            trail := w.trail + [(ride, IN_PROGRESS)], attempts := w.attempts - {ride})
  {
    var plan, tail :=
      AttemptPlan(w, ride, now), [[DelAttempts(ride)], [UpdateStatus(ride, Start(now))], [Record(ride, IN_PROGRESS)]];
    ExecAllAppend(w, plan, tail);
    AttemptOnly(w, ride, now);
    StartSteps(ExecAll(w, plan), ride, now);
  }

  /** The code counts only within ten minutes of the arrival and at most five times; the right
      code starts the ride, and any other attempt is counted and does nothing else. */
  lemma StartTables(w: World, user: nat, ride: nat, guess: nat, now: int)
    ensures var t := Whole(w, StartRide(user, ride, guess), now);
      if user in w.drivers && ride < |w.rides| && w.rides[ride].driver == Some(user)
         && w.rides[ride].status == ARRIVED
         && w.rides[ride].arrivedAt.Some? && now <= w.rides[ride].arrivedAt.value + 600_000
      then
        var live := ride in w.attempts
          && (w.attempts[ride].expiresAt.Some? ==> now < w.attempts[ride].expiresAt.value);
        var n := if live then w.attempts[ride].count + 1 else 1;
        t == if n <= 5 && guess == w.rides[ride].otp
             then w.(rides := w.rides[ride := w.rides[ride].(status := IN_PROGRESS, startedAt := Some(now))],
                     trail := w.trail + [(ride, IN_PROGRESS)],
                     attempts := w.attempts - {ride})
             else w.(attempts := w.attempts[ride :=
                       Counter(n, if n == 1 then Some(now + 900_000) else w.attempts[ride].expiresAt)])
      else t == w
  {
    if CountsAttempt(w, user, ride, now) {
      NextAttemptIs(w.attempts, ride, now);
      AttemptTables(w, ride, now);
      if ComparesOtp(w, user, ride, now) && guess == w.rides[ride].otp {
        StartedTables(w, ride, now);
      }
    }
  }

  lemma CompleteWrites(w: World, user: nat, ride: nat, now: int)
    requires user in w.drivers && ride < |w.rides|
    ensures var row, d := w.rides[ride], w.drivers[user];
      ExecTx(w, CompleteTx(user, ride, row, now))
      == w.(rides := w.rides[ride := Patched(row, Complete(now, row.estimatedFare))],
            drivers := w.drivers[user := d.(available := true, totalRides := d.totalRides + 1,
                                            totalEarnings := d.totalEarnings + row.estimatedFare)],
            trips := if row.passenger in w.trips
                     then w.trips[row.passenger := w.trips[row.passenger] + 1] else w.trips)
  {
    var row := w.rides[ride];
    var patch := Complete(now, row.estimatedFare);
    var s1, s2 := UpdateStatus(ride, patch), SetAvailable(user, true);
    var s3, s4 := AddEarnings(user, row.estimatedFare), CountTrip(row.passenger);
    var w1 := w.(rides := w.rides[ride := Patched(row, patch)]);
    assert Exec(w, s1) == w1 by { WriteOf(w, ride, patch); }
    var w2 := w1.(drivers := w.drivers[user := w.drivers[user].(available := true)]);
    assert Exec(w1, s2) == w2 by { PresenceOf(w1, user, true); }
    EarningsOf(w2, user, row.estimatedFare);
    TripOf(Exec(w2, s3), row.passenger);
    TxOfFour(w, s1, s2, s3, s4);
  }

  /** Completing a ride charges the estimate, frees the driver and counts the ride for both. */
  lemma CompleteTables(w: World, user: nat, ride: nat, now: int)
    ensures var t := Whole(w, CompleteRide(user, ride), now);
      if user in w.drivers && ride < |w.rides| && w.rides[ride].driver == Some(user)
         && w.rides[ride].status == IN_PROGRESS
      then
        var row, d := w.rides[ride], w.drivers[user];
        t == w.(rides := w.rides[ride := row.(status := COMPLETED, completedAt := Some(now),
                                              actualFare := Some(row.estimatedFare))],
                drivers := w.drivers[user := d.(available := true, totalRides := d.totalRides + 1,
                                                totalEarnings := d.totalEarnings + row.estimatedFare)],
                trips := if row.passenger in w.trips
                         then w.trips[row.passenger := w.trips[row.passenger] + 1] else w.trips,
                trail := w.trail + [(ride, COMPLETED)])
      else t == w
  {
    if AssignedIn(w, user, ride, IN_PROGRESS) {
      var row := w.rides[ride];
      var tx := CompleteTx(user, ride, row, now);
      C.TwoSteps(w, tx, [Record(ride, COMPLETED)]);
      CompleteWrites(w, user, ride, now);
      ExecTxOne(ExecTx(w, tx), Record(ride, COMPLETED));
      LogOf(ExecTx(w, tx), ride, COMPLETED);
    }
  }

  /** An approved driver with a verified vehicle goes online and is available. */
  lemma OnlineTables(w: World, user: nat, now: int)
    ensures Whole(w, GoOnline(user), now)
      == if user in w.drivers && w.drivers[user].approved && |w.drivers[user].vehicles| > 0
         then w.(drivers := w.drivers[user := w.drivers[user].(online := true, available := true)])
         else w
    ensures Whole(w, GoOffline(user), now)
      == if user in w.drivers
         then w.(drivers := w.drivers[user := w.drivers[user].(online := false, available := false)])
         else w
  {
    OneStep(w, SetOnline(user, true, true));
    OneStep(w, SetOnline(user, false, false));
    if user in w.drivers && w.drivers[user].vehicles != map[] {
      var k :| k in w.drivers[user].vehicles;
      assert |w.drivers[user].vehicles| > 0;
    }
  }

  lemma {:induction false} HeartbeatSteps(w: World, listed: seq<nat>, alive: set<nat>)
    ensures var t := ExecAll(w, HeartbeatPlan(listed, alive));
      && t == w.(drivers := t.drivers) && t.drivers.Keys == w.drivers.Keys
      && forall d :: d in w.drivers ==>
           t.drivers[d] == if d in listed && d !in alive
                           then w.drivers[d].(online := false, available := false) else w.drivers[d]
    decreases |listed|
  {
    if listed != [] {
      var head, rest := listed[0], listed[1..];
      assert listed == [head] + rest;
      var s := SetOnline(head, false, false);
      if head in alive {
        assert HeartbeatPlan(listed, alive) == HeartbeatPlan(rest, alive);
        HeartbeatSteps(w, rest, alive);
      } else {
        ExecAllHead(w, [s], HeartbeatPlan(rest, alive));
        ExecTxOne(w, s);
        HeartbeatSteps(Exec(w, s), rest, alive);
      }
    }
  }

  /** Exactly the listed drivers without a heartbeat go offline. */
  lemma HeartbeatTables(w: World, listed: seq<nat>, alive: set<nat>, now: int)
    ensures var t := Whole(w, ExpireStaleHeartbeats(listed, alive), now);
      && t == w.(drivers := t.drivers) && t.drivers.Keys == w.drivers.Keys
      && forall d :: d in w.drivers ==>
           t.drivers[d] == if d in listed && d !in alive
                           then w.drivers[d].(online := false, available := false) else w.drivers[d]
  {
    HeartbeatSteps(w, listed, alive);
  }

  // -------------------------------------------------------------- the sweep

  /** The rows a sweep was handed, as they stand: each ride once, and one of the three statuses. */
  predicate AsIs(w: World, found: seq<Stale>) {
    && (forall k :: 0 <= k < |found| ==>
          && found[k].ride < |w.rides| && found[k].row == w.rides[found[k].ride]
          && Cancellable(found[k].row.status))
    && forall k, l :: 0 <= k < l < |found| ==> found[k].ride != found[l].ride
  }

  predicate Frees(found: seq<Stale>, d: nat) {
    exists k :: 0 <= k < |found| && found[k].row.status != REQUESTED && found[k].row.driver == Some(d)
  }

  predicate Unlists(found: seq<Stale>, r: nat) {
    exists k :: 0 <= k < |found| && found[k].row.status == REQUESTED && found[k].ride == r
  }

  function Expired(row: Ride, now: int): Ride {
    row.(status := CANCELLED, cancelledAt := Some(now), cancelledBy := Some(SYSTEM))
  }

  // The tables after the loops over `found`.

  predicate ExpiresRides(a: seq<Ride>, b: seq<Ride>, found: seq<Stale>, now: int) {
    |b| == |a| && forall i :: 0 <= i < |a| ==> b[i] == if C.Listed(found, i) then Expired(a[i], now) else a[i]
  }

  predicate FreesDrivers(a: map<nat, Driver>, b: map<nat, Driver>, found: seq<Stale>) {
    b.Keys == a.Keys
    && forall d :: d in a ==> b[d] == a[d].(available := a[d].available || Frees(found, d))
  }

  predicate UnlistsRides(a: map<nat, Place>, b: map<nat, Place>, found: seq<Stale>) {
    b.Keys == (set r | r in a && !Unlists(found, r)) && forall r :: r in b ==> b[r] == a[r]
  }

  function Logged(found: seq<Stale>): seq<(nat, Status)> {
    if found == [] then [] else [(found[0].ride, CANCELLED)] + Logged(found[1..])
  }

  predicate Elsewhere(w: World, t: World) {
    t.trips == w.trips && t.rejected == w.rejected && t.attempts == w.attempts
  }

  predicate Expires(w: World, t: World, found: seq<Stale>, now: int) {
    && ExpiresRides(w.rides, t.rides, found, now)
    && FreesDrivers(w.drivers, t.drivers, found)
    && UnlistsRides(w.pending, t.pending, found)
    && t.trail == w.trail + Logged(found)
    && Elsewhere(w, t)
  }

  /** The tables after one iteration. */
  function AfterOne(w: World, x: Stale, now: int): World {
    w.(rides := if x.ride < |w.rides| then w.rides[x.ride := Expired(x.row, now)] else w.rides,
       drivers := if x.row.status != REQUESTED && x.row.driver.Some? && x.row.driver.value in w.drivers
                  then w.drivers[x.row.driver.value := w.drivers[x.row.driver.value].(available := true)]
                  else w.drivers,
       pending := if x.row.status == REQUESTED then w.pending - {x.ride} else w.pending,
       trail := w.trail + [(x.ride, CANCELLED)])
  }

  lemma ExpireWrites(w: World, x: Stale, now: int)
    requires x.ride < |w.rides| && x.row == w.rides[x.ride] && Cancellable(x.row.status)
    ensures ExecTx(w, SweepTx(x, now))
      == w.(rides := w.rides[x.ride := Expired(x.row, now)],
            drivers := if x.row.status != REQUESTED && x.row.driver.Some? && x.row.driver.value in w.drivers
                       then w.drivers[x.row.driver.value := w.drivers[x.row.driver.value].(available := true)]
                       else w.drivers)
  {
    var write := TryUpdateStatus(x.ride, x.row.status, Cancel(now, SYSTEM));
    assert Exec(w, write) == w.(rides := w.rides[x.ride := Expired(x.row, now)]);
    if x.row.status != REQUESTED && x.row.driver.Some? {
      assert SweepTx(x, now) == [write, SetAvailable(x.row.driver.value, true)];
      TxOfTwo(w, write, SetAvailable(x.row.driver.value, true));
      PresenceOf(Exec(w, write), x.row.driver.value, true);
    } else {
      assert SweepTx(x, now) == [write];
      ExecTxOne(w, write);
    }
  }

  lemma ExpireOne(w: World, x: Stale, now: int)
    requires x.ride < |w.rides| && x.row == w.rides[x.ride] && Cancellable(x.row.status)
    ensures ExecAll(w, SweepOne(w.rides, x, now)) == AfterOne(w, x, now)
  {
    var tx, log := SweepTx(x, now), Record(x.ride, CANCELLED);
    ExpireWrites(w, x, now);
    var w1 := ExecTx(w, tx);
    ExecTxOne(w1, log);
    if x.row.status == REQUESTED {
      C.ThreeSteps(w, tx, [RemovePending(x.ride)], [log]);
      ExecTxOne(w1, RemovePending(x.ride));
      ExecTxOne(Exec(w1, RemovePending(x.ride)), log);
      UnlistAndLog(w1, x.ride, CANCELLED);
    } else {
      C.TwoSteps(w, tx, [log]);
      LogOf(w1, x.ride, CANCELLED);
    }
  }

  lemma RestAsIs(w: World, found: seq<Stale>, now: int)
    requires AsIs(w, found) && found != []
    ensures AsIs(AfterOne(w, found[0], now), found[1..])
  {
  }

  lemma RidesCons(a: seq<Ride>, u: seq<Ride>, b: seq<Ride>, found: seq<Stale>, now: int)
    requires found != [] && found[0].ride < |a| && u == a[found[0].ride := Expired(a[found[0].ride], now)]
    requires ExpiresRides(u, b, found[1..], now)
    ensures ExpiresRides(a, b, found, now)
  {
    forall i | 0 <= i < |a| ensures b[i] == if C.Listed(found, i) then Expired(a[i], now) else a[i] {
      Heads(found, i);
    }
  }

  lemma DriversCons(a: map<nat, Driver>, u: map<nat, Driver>, b: map<nat, Driver>, found: seq<Stale>)
    requires found != [] && FreesDrivers(u, b, found[1..])
    requires var row := found[0].row;
      u == if row.status != REQUESTED && row.driver.Some? && row.driver.value in a
           then a[row.driver.value := a[row.driver.value].(available := true)] else a
    ensures FreesDrivers(a, b, found)
  {
    forall d | d in a ensures b[d] == a[d].(available := a[d].available || Frees(found, d)) {
      Heads(found, d);
    }
  }

  lemma PendingCons(a: map<nat, Place>, u: map<nat, Place>, b: map<nat, Place>, found: seq<Stale>)
    requires found != [] && UnlistsRides(u, b, found[1..])
    requires u == if found[0].row.status == REQUESTED then a - {found[0].ride} else a
    ensures UnlistsRides(a, b, found)
  {
    forall r | r in a ensures r in b <==> !Unlists(found, r) {
      Heads(found, r);
    }
  }

  lemma ExpiresCons(w: World, t: World, found: seq<Stale>, now: int)
    requires found != [] && found[0].ride < |w.rides| && found[0].row == w.rides[found[0].ride]
    requires Expires(AfterOne(w, found[0], now), t, found[1..], now)
    ensures Expires(w, t, found, now)
  {
    var u := AfterOne(w, found[0], now);
    assert ExpiresRides(w.rides, t.rides, found, now) by { RidesCons(w.rides, u.rides, t.rides, found, now); }
    assert FreesDrivers(w.drivers, t.drivers, found) by { DriversCons(w.drivers, u.drivers, t.drivers, found); }
    assert UnlistsRides(w.pending, t.pending, found) by { PendingCons(w.pending, u.pending, t.pending, found); }
    assert t.trail == w.trail + Logged(found) by {
      assert u.trail + Logged(found[1..]) == w.trail + ([(found[0].ride, CANCELLED)] + Logged(found[1..]));
    }
  }

  /** What a list says of a ride or driver is what its head or its rest says. */
  lemma Heads(found: seq<Stale>, n: nat)
    requires found != []
    ensures C.Listed(found, n) <==> n == found[0].ride || C.Listed(found[1..], n)
    ensures Unlists(found, n)
      <==> (found[0].row.status == REQUESTED && n == found[0].ride) || Unlists(found[1..], n)
    ensures Frees(found, n)
      <==> (found[0].row.status != REQUESTED && found[0].row.driver == Some(n)) || Frees(found[1..], n)
  {
    var rest := found[1..];
    forall k | 0 <= k < |rest| ensures rest[k] == found[k + 1] {}
    if C.Listed(rest, n) {
      var k :| 0 <= k < |rest| && rest[k].ride == n;
      assert found[k + 1].ride == n;
    }
    if Unlists(rest, n) {
      var k :| 0 <= k < |rest| && rest[k].row.status == REQUESTED && rest[k].ride == n;
      assert found[k + 1].ride == n;
    }
    if Frees(rest, n) {
      var k :| 0 <= k < |rest| && rest[k].row.status != REQUESTED && rest[k].row.driver == Some(n);
      assert found[k + 1].row.driver == Some(n);
    }
  }

  lemma {:induction false} LoopsExpire(w: World, found: seq<Stale>, now: int)
    requires AsIs(w, found)
    ensures Expires(w, ExecAll(w, SweepEach(w, found, now)), found, now)
    decreases |found|
  {
    if found != [] {
      var one, u := SweepOne(w.rides, found[0], now), AfterOne(w, found[0], now);
      ExpireOne(w, found[0], now);
      RestAsIs(w, found, now);
      LoopsExpire(u, found[1..], now);
      ExecAllAppend(w, one, SweepEach(u, found[1..], now));
      ExpiresCons(w, ExecAll(w, SweepEach(w, found, now)), found, now);
    }
  }

  predicate Overdue(row: Ride, now: int) {
    || (row.status == REQUESTED && now - row.requestedAt > 300_000)
    || (row.status == ACCEPTED && row.acceptedAt.Some? && now - row.acceptedAt.value > 900_000)
    || (row.status == ARRIVED && row.arrivedAt.Some? && now - row.arrivedAt.value > 900_000)
  }

  lemma OverdueIsFound(rides: seq<Ride>, i: nat, now: int)
    requires i < |rides|
    ensures Overdue(rides[i], now) <==> C.Listed(AllStale(rides, now), i)
  {
    C.StaleIsListed(rides, i, now);
  }

  lemma {:induction false} LoggedIs(found: seq<Stale>)
    ensures |Logged(found)| == |found|
    ensures forall k :: 0 <= k < |found| ==> Logged(found)[k] == (found[k].ride, CANCELLED)
  {
    if found != [] { LoggedIs(found[1..]); }
  }

  lemma InLogged(found: seq<Stale>, e: (nat, Status))
    ensures e in Logged(found) <==> C.Listed(found, e.0) && e.1 == CANCELLED
  {
    LoggedIs(found);
    if e in Logged(found) {
      var k :| 0 <= k < |Logged(found)| && Logged(found)[k] == e;
      assert found[k].ride == e.0;
    }
    if C.Listed(found, e.0) && e.1 == CANCELLED {
      var k :| 0 <= k < |found| && found[k].ride == e.0;
      assert Logged(found)[k] == e;
    }
  }

  /** A driver whose ACCEPTED or ARRIVED ride is overdue. */
  predicate LosesRide(w: World, d: nat, now: int) {
    exists i :: 0 <= i < |w.rides| && w.rides[i].status != REQUESTED && Overdue(w.rides[i], now)
                && w.rides[i].driver == Some(d)
  }

  /** The log grows by one CANCELLED entry for each overdue ride. */
  ghost predicate LogsOverdue(w: World, trail: seq<(nat, Status)>, now: int) {
    && |trail| >= |w.trail| && trail[..|w.trail|] == w.trail
    && (forall e: (nat, Status) :: e in trail[|w.trail|..] <==>
          e.0 < |w.rides| && Overdue(w.rides[e.0], now) && e.1 == CANCELLED)
    && (forall k, l :: |w.trail| <= k < l < |trail| ==> trail[k] != trail[l])
  }

  lemma LoggedOnce(w: World, trail: seq<(nat, Status)>, now: int)
    requires trail == w.trail + Logged(AllStale(w.rides, now))
    ensures LogsOverdue(w, trail, now)
  {
    var found := AllStale(w.rides, now);
    R.AllStaleOnce(w.rides, now);
    LoggedIs(found);
    assert trail[|w.trail|..] == Logged(found);
    forall k, l | |w.trail| <= k < l < |trail| ensures trail[k] != trail[l] {
      assert trail[k] == Logged(found)[k - |w.trail|] && trail[l] == Logged(found)[l - |w.trail|];
    }
    forall e: (nat, Status)
      ensures e in Logged(found) <==> e.0 < |w.rides| && Overdue(w.rides[e.0], now) && e.1 == CANCELLED
    {
      InLogged(found, e);
      if e.0 < |w.rides| { OverdueIsFound(w.rides, e.0, now); }
      if C.Listed(found, e.0) {
        var k :| 0 <= k < |found| && found[k].ride == e.0;
        assert found[k] in found;
      }
    }
  }

  lemma FreesIff(w: World, d: nat, now: int)
    ensures Frees(AllStale(w.rides, now), d) <==> LosesRide(w, d, now)
  {
    var found := AllStale(w.rides, now);
    R.AllStaleOnce(w.rides, now);
    if Frees(found, d) {
      var k :| 0 <= k < |found| && found[k].row.status != REQUESTED && found[k].row.driver == Some(d);
      assert found[k] in found && C.Listed(found, found[k].ride);
      OverdueIsFound(w.rides, found[k].ride, now);
    }
    if i :| 0 <= i < |w.rides| && Overdue(w.rides[i], now) && w.rides[i].status != REQUESTED
            && w.rides[i].driver == Some(d)
    {
      OverdueIsFound(w.rides, i, now);
      var k :| 0 <= k < |found| && found[k].ride == i;
      assert found[k] in found;
    }
  }

  lemma UnlistsIff(w: World, r: nat, now: int)
    ensures Unlists(AllStale(w.rides, now), r)
      <==> r < |w.rides| && w.rides[r].status == REQUESTED && Overdue(w.rides[r], now)
  {
    var found := AllStale(w.rides, now);
    R.AllStaleOnce(w.rides, now);
    if Unlists(found, r) {
      var k :| 0 <= k < |found| && found[k].row.status == REQUESTED && found[k].ride == r;
      assert found[k] in found && C.Listed(found, r);
      OverdueIsFound(w.rides, r, now);
    }
    if r < |w.rides| && w.rides[r].status == REQUESTED && Overdue(w.rides[r], now) {
      OverdueIsFound(w.rides, r, now);
      var k :| 0 <= k < |found| && found[k].ride == r;
      assert found[k] in found;
    }
  }

  /** A sweep cancels exactly the rides that have been REQUESTED for more than 5 minutes, or
      ACCEPTED or ARRIVED for more than 15; it frees the drivers of the latter two, takes the
      former off the list and logs each ride once. */
  lemma SweepTables(w: World, now: int)
    ensures var t := Whole(w, ExpireStaleRides, now);
      && |t.rides| == |w.rides|
      && (forall i :: 0 <= i < |w.rides| ==>
            t.rides[i] == if Overdue(w.rides[i], now)
                          then w.rides[i].(status := CANCELLED, cancelledAt := Some(now), cancelledBy := Some(SYSTEM))
                          else w.rides[i])
      && t.drivers.Keys == w.drivers.Keys
      && (forall d :: d in w.drivers ==>
            t.drivers[d] == w.drivers[d].(available := w.drivers[d].available || LosesRide(w, d, now)))
      && (forall r: nat :: r in t.pending <==>
            r in w.pending && !(r < |w.rides| && w.rides[r].status == REQUESTED && Overdue(w.rides[r], now)))
      && (forall r :: r in t.pending ==> t.pending[r] == w.pending[r])
      && LogsOverdue(w, t.trail, now)
      && t == w.(rides := t.rides, drivers := t.drivers, pending := t.pending, trail := t.trail)
  {
    var t, found := Whole(w, ExpireStaleRides, now), AllStale(w.rides, now);
    assert AsIs(w, found) by { R.AllStaleOnce(w.rides, now); }
    LoopsExpire(w, found, now);
    C.SweepIsPlan(w, now);
    forall i | 0 <= i < |w.rides| ensures Overdue(w.rides[i], now) <==> C.Listed(found, i) {
      OverdueIsFound(w.rides, i, now);
    }
    forall d: nat ensures Frees(found, d) <==> LosesRide(w, d, now) { FreesIff(w, d, now); }
    forall r: nat
      ensures Unlists(found, r) <==> r < |w.rides| && w.rides[r].status == REQUESTED && Overdue(w.rides[r], now)
    {
      UnlistsIff(w, r, now);
    }
    LoggedOnce(w, t.trail, now);
  }
}
