/** The ride and driver services as they run: an object holding the tables and Redis keys,
    whose methods check their guards, issue their statements one by one and return early
    where the services throw.

    `journal` lists the durable steps taken so far, and Valid() says the fields are exactly
    what those steps produce; so a method that extends the journal by its plan passes through
    every state that a crash in the plan can leave behind, and no other. */
module RideServer {
  import opened Options
  import opened Rides
  import opened RidePlans
  import R = RideRecovery
  import C = RideRuns
  import E = RideEffects

  class Server {
    var rides: seq<Ride>
    var drivers: map<nat, Driver>
    var trips: map<nat, nat>
    var trail: seq<(nat, Status)>
    var pending: map<nat, Place>
    var rejected: set<(nat, nat)>
    var attempts: map<nat, Counter>

    ghost const base: World
    ghost var journal: seq<Tx>

    ghost function Snapshot(): World
      reads this
    {
      World(rides, drivers, trips, trail, pending, rejected, attempts)
    }

    ghost predicate Valid()
      reads this
    {
      Snapshot() == ExecAll(base, journal)
    }

    constructor (drivers: map<nat, Driver>, trips: map<nat, nat>)
      ensures Valid() && journal == []
      ensures Snapshot() == EMPTY_WORLD.(drivers := drivers, trips := trips)
    {
      this.rides, this.drivers, this.trips, this.trail := [], drivers, trips, [];
      this.pending, this.rejected, this.attempts := map[], {}, map[];
      this.base, this.journal := EMPTY_WORLD.(drivers := drivers, trips := trips), [];
    }

    // -------------------------------------------------- repository statements

    method CreateRow(row: Ride) returns (id: nat)
      modifies `rides
      ensures id == |old(rides)| && Snapshot() == Exec(old(Snapshot()), CreateRide(row))
    {
      id := |rides|;
      rides := rides + [row];
    }

    method TryAssignDriver(ride: nat, driver: nat, vehicle: nat, now: int) returns (count: nat)
      modifies `rides
      ensures Snapshot() == Exec(old(Snapshot()), TryAssign(ride, driver, vehicle, now))
      ensures count == if CanAssign(old(rides), ride) then 1 else 0
      ensures if ride < |old(rides)| && old(rides)[ride].status == REQUESTED && old(rides)[ride].driver == None
              then count == 1 && |rides| == |old(rides)|
                   && rides[ride] == old(rides)[ride].(status := ACCEPTED, driver := Some(driver),
                                                       vehicle := Some(vehicle), acceptedAt := Some(now))
                   && forall i :: 0 <= i < |rides| && i != ride ==> rides[i] == old(rides)[i]
              else count == 0 && rides == old(rides)
    {
      count := 0;
      if ride < |rides| && rides[ride].status == REQUESTED && rides[ride].driver == None {
        rides := rides[ride := rides[ride].(status := ACCEPTED, driver := Some(driver),
                                            vehicle := Some(vehicle), acceptedAt := Some(now))];
        count := 1;
      }
    }

    method UpdateRow(ride: nat, patch: Patch)
      requires ride < |rides|
      modifies `rides
      ensures Snapshot() == Exec(old(Snapshot()), UpdateStatus(ride, patch))
    {
      var row := rides[ride];
      match patch {
        case Arrive(at) => row := row.(status := ARRIVED, arrivedAt := Some(at));
        case Start(at) => row := row.(status := IN_PROGRESS, startedAt := Some(at));
        case Complete(at, fare) =>
          row := row.(status := COMPLETED, completedAt := Some(at), actualFare := Some(fare));
        case Cancel(at, actor) =>
          row := row.(status := CANCELLED, cancelledAt := Some(at), cancelledBy := Some(actor));
      }
      rides := rides[ride := row];
    }

    method TryUpdateRow(ride: nat, expected: Status, patch: Patch) returns (count: nat)
      modifies `rides
      ensures Snapshot() == Exec(old(Snapshot()), TryUpdateStatus(ride, expected, patch))
      ensures count == if CurrentlyIn(old(rides), ride, expected) then 1 else 0
    {
      count := 0;
      if ride < |rides| && rides[ride].status == expected {
        UpdateRow(ride, patch);
        count := 1;
      }
    }

    method SetDriverAvailable(driver: nat, available: bool)
      modifies `drivers
      ensures Snapshot() == Exec(old(Snapshot()), SetAvailable(driver, available))
    {
      if driver in drivers {
        drivers := drivers[driver := drivers[driver].(available := available)];
      }
    }

    method SetOnlineStatus(driver: nat, online: bool, available: bool)
      modifies `drivers
      ensures Snapshot() == Exec(old(Snapshot()), SetOnline(driver, online, available))
    {
      if driver in drivers {
        drivers := drivers[driver := drivers[driver].(online := online, available := available)];
      }
    }

    method IncrementDriverStats(driver: nat, fare: nat)
      modifies `drivers
      ensures Snapshot() == Exec(old(Snapshot()), AddEarnings(driver, fare))
    {
      if driver in drivers {
        var row := drivers[driver];
        drivers := drivers[driver := row.(totalRides := row.totalRides + 1, totalEarnings := row.totalEarnings + fare)];
      }
    }

    method IncrementPassengerStats(passenger: nat)
      modifies `trips
      ensures Snapshot() == Exec(old(Snapshot()), CountTrip(passenger))
    {
      if passenger in trips { trips := trips[passenger := trips[passenger] + 1]; }
    }

    /** Marks the statements since the last step as one durable step. */
    ghost method Land(tx: Tx)
      requires Snapshot() == ExecTx(ExecAll(base, journal), tx)
      modifies `journal
      ensures Valid() && journal == old(journal) + [tx]
    {
      journal := journal + [tx];
      ExecAllAppend(base, old(journal), [tx]);
      ExecAllHead(ExecAll(base, old(journal)), tx, []);
      assert [tx] + [] == [tx];
    }

    ghost method LandOne(s: Stmt)
      requires Snapshot() == Exec(ExecAll(base, journal), s)
      modifies `journal
      ensures Valid() && journal == old(journal) + [[s]]
    {
      ExecTxOne(ExecAll(base, journal), s);
      Land([s]);
    }

    method RecordStatus(ride: nat, status: Status)
      requires Valid()
      modifies `trail, `journal
      ensures Valid() && journal == old(journal) + [[Record(ride, status)]]
    {
      trail := trail + [(ride, status)];
      LandOne(Record(ride, status));
    }

    /** updateStatus outside a transaction */
    method SetRideStatus(ride: nat, patch: Patch)
      requires Valid() && ride < |rides|
      modifies `rides, `journal
      ensures Valid() && journal == old(journal) + [[UpdateStatus(ride, patch)]]
    {
      UpdateRow(ride, patch);
      LandOne(UpdateStatus(ride, patch));
    }

    method AddPendingRide(ride: nat, pickup: Place)
      requires Valid()
      modifies `pending, `journal
      ensures Valid() && journal == old(journal) + [[AddPending(ride, pickup)]]
    {
      pending := pending[ride := pickup];
      LandOne(AddPending(ride, pickup));
    }

    method RemovePendingRide(ride: nat)
      requires Valid()
      modifies `pending, `journal
      ensures Valid() && journal == old(journal) + [[RemovePending(ride)]]
    {
      pending := pending - {ride};
      LandOne(RemovePending(ride));
    }

    // ------------------------------------------------------- passenger calls

    method RequestRide(user: nat, vehicleType: nat, pickup: Place, otp: nat, fare: nat, now: int)
      returns (created: Option<nat>)
      requires Valid()
      modifies this
      ensures Valid()
      ensures journal == old(journal) + RequestPlan(old(Snapshot()), user, vehicleType, pickup, otp, fare, now)
      ensures created == if user in old(trips) && !RidingNow(old(rides), user) then Some(|old(rides)|) else None
    {
      created := None;
      if user !in trips { return; }
      if RidingNow(rides, user) { return; }
      var row := NewRide(user, vehicleType, pickup, otp, fare, now);
      var id := CreateRow(row);
      LandOne(CreateRide(row));
      RecordStatus(id, REQUESTED);
      AddPendingRide(id, pickup);
      created := Some(id);
    }

    /** The transaction of a cancellation. */
    method CancelAndFree(ride: nat, actor: Canceller, now: int)
      requires Valid() && ride < |rides|
      modifies `rides, `drivers, `journal
      ensures Valid() && journal == old(journal) + [CancelTx(ride, old(rides)[ride], actor, now)]
    {
      var row := rides[ride];
      ghost var before := Snapshot();
      UpdateRow(ride, Cancel(now, actor));
      if row.driver.Some? {
        SetDriverAvailable(row.driver.value, true);
      }
      R.FreeingEffect(before, UpdateStatus(ride, Cancel(now, actor)), row.driver);
      Land(CancelTx(ride, row, actor, now));
    }

    /** The writes of a cancellation, once it is allowed. */
    method CarryOutCancel(ride: nat, actor: Canceller, now: int)
      requires Valid() && ride < |rides|
      modifies this
      ensures Valid()
      ensures journal == old(journal) + [CancelTx(ride, old(rides)[ride], actor, now), [RemovePending(ride)],
                                         [Record(ride, CANCELLED)]]
    {
      CancelAndFree(ride, actor, now);
      RemovePendingRide(ride);
      RecordStatus(ride, CANCELLED);
    }

    method CancelRide(user: nat, ride: nat, now: int) returns (ok: bool)
      requires Valid()
      modifies this
      ensures Valid() && journal == old(journal) + CancelPlan(old(Snapshot()), user, ride, now)
      ensures ok <==> MayCancel(old(Snapshot()), user, ride)
    {
      ok := false;
      if ride >= |rides| { return; }
      var row := rides[ride];
      var actor: Canceller;
      if row.passenger == user {
        actor := PASSENGER;
      } else if row.driver == Some(user) {
        actor := DRIVER;
      } else {
        return;
      }
      if !Cancellable(row.status) { return; }

      CarryOutCancel(ride, actor, now);
      ok := true;
    }

    // ---------------------------------------------------------- driver calls

    /** The conditional assignment and, if it hits, the writes that follow. */
    method CarryOutAccept(user: nat, ride: nat, vehicle: nat, now: int) returns (ok: bool)
      requires Valid()
      modifies this
      ensures Valid() && (ok <==> CanAssign(old(rides), ride))
      ensures var assign := [TryAssign(ride, user, vehicle, now)];
        journal == old(journal)
          + if ok then [assign, [SetAvailable(user, false)], [RemovePending(ride)], [Record(ride, ACCEPTED)]]
              else [assign]
    {
      ok := false;
      var count := TryAssignDriver(ride, user, vehicle, now);
      LandOne(TryAssign(ride, user, vehicle, now));
      if count == 0 { return; }
      SetDriverAvailable(user, false);
      LandOne(SetAvailable(user, false));
      RemovePendingRide(ride);
      RecordStatus(ride, ACCEPTED);
      ok := true;
    }

    method AcceptRide(user: nat, ride: nat, now: int) returns (ok: bool)
      requires Valid()
      modifies this
      ensures Valid() && journal == old(journal) + AcceptPlan(old(Snapshot()), user, ride, now)
      ensures ok <==> MayAccept(old(Snapshot()), user, ride) && CanAssign(old(rides), ride)
      ensures ok ==>
        && user in old(drivers) && ride < |old(rides)| && ride < |rides|
        && old(rides)[ride].vehicleType in old(drivers)[user].vehicles
        && rides[ride] == old(rides)[ride].(status := ACCEPTED, driver := Some(user), acceptedAt := Some(now),
             vehicle := Some(old(drivers)[user].vehicles[old(rides)[ride].vehicleType]))
        && user in drivers && !drivers[user].available && ride !in pending
      ensures !ok ==> Snapshot() == old(Snapshot())
    {
      ok := false;
      if user !in drivers { return; }
      var driver := drivers[user];
      if !driver.approved { return; }
      if !driver.online || !driver.available { return; }
      if HasActiveRide(rides, user) { return; }
      if ride >= |rides| || rides[ride].status != REQUESTED { return; }
      if rides[ride].vehicleType !in driver.vehicles { return; }
      var vehicle := driver.vehicles[rides[ride].vehicleType];

      ok := CarryOutAccept(user, ride, vehicle, now);
      CallIsWhole(this, old(journal), RidePlans.AcceptRide(user, ride), now);
      E.AcceptTables(old(Snapshot()), user, ride, now);
    }

    method RejectRide(user: nat, ride: nat)
      requires Valid()
      modifies this
      ensures Valid() && journal == old(journal) + RejectPlan(old(Snapshot()), user, ride)
    {
      if user !in drivers { return; }
      rejected := rejected + {(ride, user)};
      LandOne(Reject(ride, user));
    }

    method MarkArrived(user: nat, ride: nat, now: int) returns (ok: bool)
      requires Valid()
      modifies this
      ensures Valid() && journal == old(journal) + ArrivePlan(old(Snapshot()), user, ride, now)
      ensures ok <==> AssignedIn(old(Snapshot()), user, ride, ACCEPTED)
    {
      ok := false;
      if user !in drivers { return; }
      if ride >= |rides| || rides[ride].driver != Some(user) { return; }
      if rides[ride].status != ACCEPTED { return; }
      SetRideStatus(ride, Arrive(now));
      RecordStatus(ride, ARRIVED);
      ok := true;
    }

    /** redis.incr on ride:<id>:otpAttempts */
    method Incr(ride: nat, now: int) returns (n: nat)
      requires Valid()
      modifies `attempts, `journal
      ensures Valid() && journal == old(journal) + [[IncrAttempts(ride, now)]]
      ensures n == NextAttempt(old(attempts), ride, now)
      ensures ride in attempts
    {
      if ride in attempts && (attempts[ride].expiresAt == None || now < attempts[ride].expiresAt.value) {
        n := attempts[ride].count + 1;
        attempts := attempts[ride := if n == 1 then Counter(1, None) else attempts[ride].(count := n)];
      } else {
        n := 1;
        attempts := attempts[ride := Counter(1, None)];
      }
      LandOne(IncrAttempts(ride, now));
    }

    /** INCR, and EXPIRE if this was the first attempt. */
    method CountAttempt(ride: nat, now: int) returns (n: nat)
      requires Valid()
      modifies `attempts, `journal
      ensures Valid() && journal == old(journal) + AttemptPlan(old(Snapshot()), ride, now)
      ensures n == NextAttempt(old(attempts), ride, now)
    {
      n := Incr(ride, now);
      if n == 1 {
        attempts := attempts[ride := attempts[ride].(expiresAt := Some(now + OTP_ATTEMPT_WINDOW))];
        LandOne(ExpireAttempts(ride, now + OTP_ATTEMPT_WINDOW));
      }
    }

    /** redis.del on ride:<id>:otpAttempts */
    method ClearAttempts(ride: nat)
      requires Valid()
      modifies `attempts, `journal
      ensures Valid() && journal == old(journal) + [[DelAttempts(ride)]]
    {
      attempts := attempts - {ride};
      LandOne(DelAttempts(ride));
    }

    /** The writes of a start, once the code has matched. */
    method CarryOutStart(ride: nat, now: int)
      requires Valid() && ride < |rides|
      modifies this
      ensures Valid()
      ensures journal == old(journal) + [[DelAttempts(ride)], [UpdateStatus(ride, Start(now))],
                                         [Record(ride, IN_PROGRESS)]]
    {
      ClearAttempts(ride);
      SetRideStatus(ride, Start(now));
      RecordStatus(ride, IN_PROGRESS);
    }

    method StartRide(user: nat, ride: nat, guess: nat, now: int) returns (ok: bool)
      requires Valid()
      modifies this
      ensures Valid() && journal == old(journal) + StartPlan(old(Snapshot()), user, ride, guess, now)
      ensures ok <==> ComparesOtp(old(Snapshot()), user, ride, now) && guess == old(rides)[ride].otp
    {
      ok := false;
      if user !in drivers { return; }
      if ride >= |rides| || rides[ride].driver != Some(user) { return; }
      if rides[ride].status != ARRIVED { return; }
      if rides[ride].arrivedAt.None? || now - rides[ride].arrivedAt.value > OTP_VALIDITY { return; }

      var n := CountAttempt(ride, now);
      if n > MAX_OTP_ATTEMPTS || guess != rides[ride].otp {
        return;
      }

      CarryOutStart(ride, now);
      ok := true;
    }

    /** The transaction of a completion. */
    method CompleteAndPay(driver: nat, ride: nat, now: int)
      requires Valid() && ride < |rides|
      modifies `rides, `drivers, `trips, `journal
      ensures Valid() && journal == old(journal) + [CompleteTx(driver, ride, old(rides)[ride], now)]
    {
      var row := rides[ride];
      ghost var before := Snapshot();
      UpdateRow(ride, Complete(now, row.estimatedFare));
      SetDriverAvailable(driver, true);
      IncrementDriverStats(driver, row.estimatedFare);
      IncrementPassengerStats(row.passenger);
      R.FourSteps(before, UpdateStatus(ride, Complete(now, row.estimatedFare)), SetAvailable(driver, true),
                  AddEarnings(driver, row.estimatedFare), CountTrip(row.passenger));
      Land(CompleteTx(driver, ride, row, now));
    }

    method CompleteRide(user: nat, ride: nat, now: int) returns (ok: bool)
      requires Valid()
      modifies this
      ensures Valid() && journal == old(journal) + CompletePlan(old(Snapshot()), user, ride, now)
      ensures ok <==> AssignedIn(old(Snapshot()), user, ride, IN_PROGRESS)
    {
      ok := false;
      if user !in drivers { return; }
      if ride >= |rides| || rides[ride].driver != Some(user) { return; }
      if rides[ride].status != IN_PROGRESS { return; }
      CompleteAndPay(user, ride, now);
      RecordStatus(ride, COMPLETED);
      ok := true;
    }

    method GoOnline(user: nat) returns (ok: bool)
      requires Valid()
      modifies this
      ensures Valid() && journal == old(journal) + OnlinePlan(old(Snapshot()), user)
      ensures ok <==> user in old(drivers) && old(drivers)[user].approved && old(drivers)[user].vehicles != map[]
    {
      ok := false;
      if user !in drivers { return; }
      if !drivers[user].approved { return; }
      if drivers[user].vehicles == map[] { return; }
      SetOnlineStatus(user, true, true);
      LandOne(SetOnline(user, true, true));
      ok := true;
    }

    method GoOffline(user: nat) returns (ok: bool)
      requires Valid()
      modifies this
      ensures Valid() && journal == old(journal) + OfflinePlan(old(Snapshot()), user)
      ensures ok <==> user in old(drivers)
    {
      ok := user in drivers;
      if !ok { return; }
      SetOnlineStatus(user, false, false);
      LandOne(SetOnline(user, false, false));
    }

    // ------------------------------------------------------------ scheduled jobs

    /** The online drivers, each once, in no particular order. */
    method ListOnlineIds() returns (ids: seq<nat>)
      ensures forall d :: d in ids <==> d in drivers && drivers[d].online
      ensures forall i, j :: 0 <= i < j < |ids| ==> ids[i] != ids[j]
    {
      ids := [];
      var rest := drivers.Keys;
      while rest != {}
        invariant rest <= drivers.Keys
        invariant forall d :: d in ids <==> d in drivers && d !in rest && drivers[d].online
        invariant forall i, j :: 0 <= i < j < |ids| ==> ids[i] != ids[j]
        decreases |rest|
      {
        var d :| d in rest;
        rest := rest - {d};
        if drivers[d].online { ids := ids + [d]; }
      }
    }

    /** The loop over the listed drivers. */
    method ExpireListed(online: seq<nat>, alive: set<nat>) returns (expiredCount: nat)
      requires Valid()
      modifies `drivers, `journal
      ensures Valid() && journal == old(journal) + HeartbeatPlan(online, alive)
      ensures expiredCount == |HeartbeatPlan(online, alive)|
    {
      expiredCount := 0;
      var i := 0;
      while i < |online|
        invariant 0 <= i <= |online| && Valid()
        invariant journal + HeartbeatPlan(online[i..], alive) == old(journal) + HeartbeatPlan(online, alive)
        invariant |journal| == |old(journal)| + expiredCount
      {
        var driver := online[i];
        i := i + 1;
        if driver in alive { continue; }
        SetOnlineStatus(driver, false, false);
        LandOne(SetOnline(driver, false, false));
        expiredCount := expiredCount + 1;
      }
    }

    /** `alive` are the drivers whose heartbeat key exists. */
    method ExpireStaleHeartbeats(alive: set<nat>) returns (checked: nat, expiredCount: nat, ghost listed: seq<nat>)
      requires Valid()
      modifies this
      ensures forall d :: d in listed <==> d in old(drivers) && old(drivers)[d].online
      ensures forall i, j :: 0 <= i < j < |listed| ==> listed[i] != listed[j]
      ensures Valid() && journal == old(journal) + HeartbeatPlan(listed, alive)
      ensures checked == |listed| && expiredCount == |HeartbeatPlan(listed, alive)|
    {
      var online := ListOnlineIds();
      listed, checked := online, |online|;
      expiredCount := ExpireListed(online, alive);
    }

    /** One iteration of a sweep loop. */
    method SweepRow(x: Stale, now: int) returns (cancelled: bool)
      requires Valid()
      modifies this
      ensures Valid() && journal == old(journal) + SweepOne(old(rides), x, now)
      ensures Snapshot() == ExecAll(old(Snapshot()), SweepOne(old(rides), x, now))
      ensures cancelled <==> CurrentlyIn(old(rides), x.ride, x.row.status)
    {
      ghost var before := Snapshot();
      ghost var start := journal;
      var head := TryUpdateStatus(x.ride, x.row.status, Cancel(now, SYSTEM));
      var count := TryUpdateRow(x.ride, x.row.status, Cancel(now, SYSTEM));
      if x.row.status == REQUESTED {
        R.FreeingEffect(before, head, None);
      } else {
        if x.row.driver.Some? { SetDriverAvailable(x.row.driver.value, true); }
        R.FreeingEffect(before, head, x.row.driver);
      }
      Land(SweepTx(x, now));
      cancelled := count > 0;
      if cancelled {
        if x.row.status == REQUESTED { RemovePendingRide(x.ride); }
        RecordStatus(x.ride, CANCELLED);
      }
      assert journal == start + SweepOne(old(rides), x, now);
      ExecAllAppend(base, start, SweepOne(old(rides), x, now));
    }

    /** Each of the three loops of expireStaleRides. */
    method SweepLoop(found: seq<Stale>, now: int) returns (expired: nat)
      requires Valid()
      modifies this
      ensures Valid() && journal == old(journal) + SweepEach(old(Snapshot()), found, now)
      ensures Snapshot() == ExecAll(old(Snapshot()), SweepEach(old(Snapshot()), found, now))
      ensures expired == SweepHits(old(Snapshot()), found, now)
    {
      expired := 0;
      ghost var w, start := Snapshot(), journal;
      assert found[0..] == found;
      var i := 0;
      while i < |found|
        invariant 0 <= i <= |found| && Valid()
        invariant journal + SweepEach(Snapshot(), found[i..], now) == start + SweepEach(w, found, now)
        invariant expired + SweepHits(Snapshot(), found[i..], now) == SweepHits(w, found, now)
      {
        SweepEachStep(Snapshot(), found, i, now, journal);
        var cancelled := SweepRow(found[i], now);
        if cancelled { expired := expired + 1; }
        i := i + 1;
      }
      ExecAllAppend(base, start, SweepEach(w, found, now));
    }

    method ExpireStaleRides(now: int)
        returns (requestedCount: nat, acceptedCount: nat, arrivedCount: nat, expiredCount: nat)
      requires Valid()
      modifies this
      ensures Valid() && journal == old(journal) + SweepEach(old(Snapshot()), AllStale(old(rides), now), now)
      ensures requestedCount == |FindStale(old(rides), REQUESTED, now)|
      ensures acceptedCount == |FindStale(old(rides), ACCEPTED, now)|
      ensures arrivedCount == |FindStale(old(rides), ARRIVED, now)|
      ensures expiredCount == SweepHits(old(Snapshot()), AllStale(old(rides), now), now)
    {
      var requested := FindStale(rides, REQUESTED, now);
      var accepted := FindStale(rides, ACCEPTED, now);
      var arrived := FindStale(rides, ARRIVED, now);
      ghost var start, w := journal, Snapshot();
      expiredCount := SweepLoop(requested, now);
      ghost var w1 := Snapshot();
      var n := SweepLoop(accepted, now);
      expiredCount := expiredCount + n;
      ghost var w2 := Snapshot();
      n := SweepLoop(arrived, now);
      expiredCount := expiredCount + n;
      requestedCount, acceptedCount, arrivedCount := |requested|, |accepted|, |arrived|;

      SweepEachThree(w, requested, accepted, arrived, now);
      Regroup(start, SweepEach(w, requested, now), SweepEach(w1, accepted, now), SweepEach(w2, arrived, now));
    }
  }

  /** After any service call, that is when the journal has grown by the call's plan, the tables are
      those of the whole call; RideEffects says column by column what they hold. */
  lemma CallIsWhole(server: Server, before: seq<Tx>, call: Call, now: int)
    requires server.Valid() && server.journal == before + Plan(ExecAll(server.base, before), call, now)
    ensures server.Snapshot() == Whole(ExecAll(server.base, before), call, now)
  {
    ExecAllAppend(server.base, before, Plan(ExecAll(server.base, before), call, now));
  }

  /** After any service call the server still satisfies the ride invariants if it did before: no
      driver stranded, one active ride each, cached totals exact. */
  lemma CallKeepsConsistent(server: Server, before: seq<Tx>, call: Call, now: int)
    requires server.Valid() && server.journal == before + Plan(ExecAll(server.base, before), call, now)
    ensures R.Consistent(ExecAll(server.base, before)) ==> R.Consistent(server.Snapshot())
  {
    var w := ExecAll(server.base, before);
    ExecAllAppend(server.base, before, Plan(w, call, now));
    if R.Consistent(w) { C.WholeConsistent(w, call, now); }
  }

  lemma Associate<T>(a: seq<T>, b: seq<T>, c: seq<T>)
    ensures a + b + c == a + (b + c)
  {
  }

  lemma Regroup(s: seq<Tx>, a: seq<Tx>, b: seq<Tx>, c: seq<Tx>)
    ensures ((s + a) + b) + c == s + (a + b + c)
  {
  }

  /** How many iterations of a sweep find their ride still in the expected status. */
  function SweepHits(w: World, found: seq<Stale>, now: int): nat
    decreases |found|
  {
    if found == [] then 0
    else
      (if CurrentlyIn(w.rides, found[0].ride, found[0].row.status) then 1 else 0)
      + SweepHits(ExecAll(w, SweepOne(w.rides, found[0], now)), found[1..], now)
  }

  /** Run alone, the sweep cancels every ride its queries found: expiredCount is exact. */
  lemma {:induction false} SweepMissesNothing(w: World, found: seq<Stale>, now: int)
    requires R.FoundAsIs(w.rides, found)
    ensures SweepHits(w, found, now) == |found|
    decreases |found|
  {
    if found != [] {
      assert found[0] in found;
      R.SweepKeepsRest(w, found, now);
      SweepMissesNothing(ExecAll(w, SweepOne(w.rides, found[0], now)), found[1..], now);
    }
  }

  lemma SweepEachStep(w: World, found: seq<Stale>, i: nat, now: int, before: seq<Tx>)
    requires i < |found|
    ensures var one := SweepOne(w.rides, found[i], now);
      && before + SweepEach(w, found[i..], now) == (before + one) + SweepEach(ExecAll(w, one), found[i + 1..], now)
      && SweepHits(w, found[i..], now) == (if CurrentlyIn(w.rides, found[i].ride, found[i].row.status) then 1 else 0)
                                          + SweepHits(ExecAll(w, one), found[i + 1..], now)
  {
    assert found[i..][0] == found[i] && found[i..][1..] == found[i + 1..];
  }

  lemma SweepEachThree(w: World, a: seq<Stale>, b: seq<Stale>, c: seq<Stale>, now: int)
    ensures var w1 := ExecAll(w, SweepEach(w, a, now));
      var w2 := ExecAll(w1, SweepEach(w1, b, now));
      && SweepEach(w, a + b + c, now) == SweepEach(w, a, now) + SweepEach(w1, b, now) + SweepEach(w2, c, now)
      && SweepHits(w, a + b + c, now) == SweepHits(w, a, now) + SweepHits(w1, b, now) + SweepHits(w2, c, now)
  {
    var w1 := ExecAll(w, SweepEach(w, a, now));
    var w2 := ExecAll(w1, SweepEach(w1, b, now));
    Associate(a, b, c);
    SweepEachAppend(w, a, b + c, now);
    SweepEachAppend(w1, b, c, now);
    Associate(SweepEach(w, a, now), SweepEach(w1, b, now), SweepEach(w2, c, now));
  }

  lemma {:induction false} SweepEachAppend(w: World, a: seq<Stale>, b: seq<Stale>, now: int)
    ensures var w1 := ExecAll(w, SweepEach(w, a, now));
      && SweepEach(w, a + b, now) == SweepEach(w, a, now) + SweepEach(w1, b, now)
      && SweepHits(w, a + b, now) == SweepHits(w, a, now) + SweepHits(w1, b, now)
    decreases |a|
  {
    if a == [] {
      assert a + b == b;
    } else {
      var one := SweepOne(w.rides, a[0], now);
      var u := ExecAll(w, one);
      assert (a + b)[1..] == a[1..] + b;
      SweepEachAppend(u, a[1..], b, now);
      ExecAllAppend(w, one, SweepEach(u, a[1..], now));
      var v := ExecAll(u, SweepEach(u, a[1..], now));
      Associate(one, SweepEach(u, a[1..], now), SweepEach(v, b, now));
    }
  }
}
