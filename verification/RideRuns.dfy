/** Granularity C: whole calls, one after the other, each at one clock instant.

    Three results about whole runs: the Redis index and the audit trail agree with the
    ride table, no ride waits longer than the sweep allows, and the OTP is compared at
    most five times over a ride's life. */
module RideRuns {
  import opened Options
  import opened Rides
  import opened RidePlans
  import R = RideRecovery

  // ------------------------------------------------------ effect of a call

  /** The transitions of the ride state machine, at one instant. */
  predicate RowMoves(a: Ride, b: Ride, now: int) {
    || (a.status == REQUESTED && b.driver.Some? && b.vehicle.Some?
      && b == Assigned(a, b.driver.value, b.vehicle.value, now))
    || (a.status == ACCEPTED && b == Patched(a, Arrive(now)))
    || (a.status == ARRIVED && OtpFresh(a, now) && b == Patched(a, Start(now)))
    || (a.status == IN_PROGRESS && b == Patched(a, Complete(now, a.estimatedFare)))
    || (Cancellable(a.status) && b.cancelledBy.Some? && b == Patched(a, Cancel(now, b.cancelledBy.value)))
  }

  predicate Untouched(w: World, t: World) {
    t.rides == w.rides && t.pending == w.pending && t.trail == w.trail
  }

  /** One ride moves; the move is logged, and a ride that leaves REQUESTED leaves the index. */
  predicate Moved(w: World, t: World, i: nat, now: int) {
    && i < |w.rides| == |t.rides|
    && t.rides == w.rides[i := t.rides[i]]
    && RowMoves(w.rides[i], t.rides[i], now)
    && t.trail == w.trail + [(i, t.rides[i].status)]
    && (t.pending == w.pending - {i} || (w.rides[i].status != REQUESTED && t.pending == w.pending))
  }

  predicate Inserted(w: World, t: World, now: int) {
    && |t.rides| == |w.rides| + 1
    && t.rides == w.rides + [t.rides[|w.rides|]]
    && var row := t.rides[|w.rides|];
       row == NewRide(row.passenger, row.vehicleType, row.pickup, row.otp, row.estimatedFare, now)
       && t.trail == w.trail + [(|w.rides|, REQUESTED)]
       && t.pending == w.pending[|w.rides| := row.pickup]
  }

  lemma TwoSteps(w: World, a: Tx, b: Tx)
    ensures ExecAll(w, [a, b]) == ExecTx(ExecTx(w, a), b)
  {
    assert [a, b] == [a] + [b] && [b] == [b] + [];
    ExecAllHead(w, a, [b]);
    ExecAllHead(ExecTx(w, a), b, []);
  }

  lemma ThreeSteps(w: World, a: Tx, b: Tx, c: Tx)
    ensures ExecAll(w, [a, b, c]) == ExecTx(ExecTx(ExecTx(w, a), b), c)
  {
    assert [a, b, c] == [a] + [b, c];
    ExecAllHead(w, a, [b, c]);
    TwoSteps(ExecTx(w, a), b, c);
  }

  predicate PostgresOnly(s: Stmt) {
    TouchesRides(s) || s.SetAvailable? || s.SetOnline? || s.AddEarnings? || s.CountTrip?
  }

  lemma {:induction false} QuietTx(w: World, tx: Tx)
    requires forall s :: s in tx ==> PostgresOnly(s)
    ensures var t := ExecTx(w, tx); t.pending == w.pending && t.trail == w.trail && t.attempts == w.attempts
    decreases |tx|
  {
    if tx != [] {
      assert tx[0] in tx && PostgresOnly(tx[0]);
      QuietTx(Exec(w, tx[0]), tx[1..]);
    }
  }

  /** A ride write, then the log entry. */
  lemma WriteThenRecord(w: World, tx: Tx, i: nat, now: int, b: Ride)
    requires tx != [] && (forall s :: s in tx ==> PostgresOnly(s)) && (forall s :: s in tx[1..] ==> !TouchesRides(s))
    requires i < |w.rides| && RideTable(w.rides, tx[0]) == w.rides[i := b]
    requires RowMoves(w.rides[i], b, now) && w.rides[i].status != REQUESTED
    ensures var t := ExecAll(w, [tx, [Record(i, b.status)]]);
      Moved(w, t, i, now) && t.rides[i] == b && t.attempts == w.attempts
  {
    TwoSteps(w, tx, [Record(i, b.status)]);
    ExecTxOne(ExecTx(w, tx), Record(i, b.status));
    QuietTx(w, tx);
    ExecTxRides(w, tx[0], tx[1..]);
    assert tx == [tx[0]] + tx[1..];
  }

  /** A ride write, then the index clean-up, then the log entry. */
  lemma WriteThenUnlist(w: World, tx: Tx, i: nat, now: int, b: Ride)
    requires tx != [] && (forall s :: s in tx ==> PostgresOnly(s)) && (forall s :: s in tx[1..] ==> !TouchesRides(s))
    requires i < |w.rides| && RideTable(w.rides, tx[0]) == w.rides[i := b]
    requires RowMoves(w.rides[i], b, now)
    ensures var t := ExecAll(w, [tx, [RemovePending(i)], [Record(i, b.status)]]);
      Moved(w, t, i, now) && t.rides[i] == b && t.attempts == w.attempts
  {
    ThreeSteps(w, tx, [RemovePending(i)], [Record(i, b.status)]);
    var w1 := ExecTx(w, tx);
    ExecTxOne(w1, RemovePending(i));
    ExecTxOne(Exec(w1, RemovePending(i)), Record(i, b.status));
    QuietTx(w, tx);
    ExecTxRides(w, tx[0], tx[1..]);
    assert tx == [tx[0]] + tx[1..];
  }

  lemma RequestEffect(w: World, user: nat, ty: nat, pickup: Place, otp: nat, fare: nat, now: int)
    ensures var t := ExecAll(w, RequestPlan(w, user, ty, pickup, otp, fare, now));
      (Untouched(w, t) || Inserted(w, t, now)) && t.attempts == w.attempts
  {
    var plan := RequestPlan(w, user, ty, pickup, otp, fare, now);
    if plan != [] {
      ThreeSteps(w, plan[0], plan[1], plan[2]);
      var w1 := ExecTx(w, plan[0]);
      ExecTxOne(w, plan[0][0]);
      ExecTxOne(w1, plan[1][0]);
      ExecTxOne(Exec(w1, plan[1][0]), plan[2][0]);
      var t := ExecAll(w, plan);
      assert t.rides == w.rides + [NewRide(user, ty, pickup, otp, fare, now)];
    }
  }

  lemma AcceptEffect(w: World, user: nat, ride: nat, now: int)
    requires ride < |w.rides| ==> (w.rides[ride].status == REQUESTED ==> w.rides[ride].driver == None)
    ensures var t := ExecAll(w, AcceptPlan(w, user, ride, now));
      (Untouched(w, t) || Moved(w, t, ride, now)) && t.attempts == w.attempts
  {
    if MayAccept(w, user, ride) {
      var plan := AcceptPlan(w, user, ride, now);
      var head := plan[0][0];
      var w1 := ExecTx(w, plan[0]);
      ExecTxOne(w, head);
      assert plan == [plan[0]] + [plan[1], plan[2], plan[3]];
      ExecAllHead(w, plan[0], [plan[1], plan[2], plan[3]]);
      ThreeSteps(w1, plan[1], plan[2], plan[3]);
      ExecTxOne(w1, plan[1][0]);
      var w2 := Exec(w1, plan[1][0]);
      ExecTxOne(w2, plan[2][0]);
      ExecTxOne(Exec(w2, plan[2][0]), plan[3][0]);
      assert w2.rides == RideTable(w.rides, head) && w2.pending == w.pending && w2.trail == w.trail;
    }
  }

  /** What counting one attempt does to the ride's key, and that it does nothing else. */
  lemma AttemptEffect(w: World, ride: nat, now: int)
    ensures var t := ExecAll(w, AttemptPlan(w, ride, now));
      && Untouched(w, t)
      && t.attempts.Keys == w.attempts.Keys + {ride}
      && (forall r :: r in w.attempts && r != ride ==> t.attempts[r] == w.attempts[r])
      && t.attempts[ride].count == NextAttempt(w.attempts, ride, now)
      && t.attempts[ride].expiresAt == if NextAttempt(w.attempts, ride, now) == 1
                                       then Some(now + OTP_ATTEMPT_WINDOW) else w.attempts[ride].expiresAt
  {
    var s1, s2 := IncrAttempts(ride, now), ExpireAttempts(ride, now + OTP_ATTEMPT_WINDOW);
    ExecTxOne(w, s1);
    if NextAttempt(w.attempts, ride, now) == 1 {
      assert AttemptPlan(w, ride, now) == [[s1], [s2]];
      TwoSteps(w, [s1], [s2]);
      ExecTxOne(Exec(w, s1), s2);
      assert ride in Exec(w, s1).attempts;
    } else {
      assert AttemptPlan(w, ride, now) == [[s1]] + [];
      ExecAllHead(w, [s1], []);
    }
  }

  /** A start that passes: the key is deleted and the ride is under way. */
  lemma StartedEffect(w: World, user: nat, ride: nat, now: int)
    requires CountsAttempt(w, user, ride, now)
    ensures var t := ExecAll(w, AttemptPlan(w, ride, now)
        + [[DelAttempts(ride)], [UpdateStatus(ride, Start(now))], [Record(ride, IN_PROGRESS)]]);
      && Moved(w, t, ride, now) && t.rides[ride].status == IN_PROGRESS
      && ride !in t.attempts && t.attempts.Keys <= w.attempts.Keys
      && (forall r :: r in t.attempts ==> t.attempts[r] == w.attempts[r])
      && w.attempts.Keys - {ride} <= t.attempts.Keys
  {
    var a := AttemptPlan(w, ride, now);
    var s1, s2, s3 := DelAttempts(ride), UpdateStatus(ride, Start(now)), Record(ride, IN_PROGRESS);
    AttemptEffect(w, ride, now);
    var w1 := ExecAll(w, a);
    ExecAllAppend(w, a, [[s1], [s2], [s3]]);
    assert [[s1], [s2], [s3]] == [[s1]] + [[s2], [s3]];
    ExecAllHead(w1, [s1], [[s2], [s3]]);
    ExecTxOne(w1, s1);
    WriteThenRecord(Exec(w1, s1), [s2], ride, now, Patched(w.rides[ride], Start(now)));
  }

  predicate MovesOrNot(w: World, t: World, i: nat, now: int) {
    (Untouched(w, t) || Moved(w, t, i, now)) && t.attempts == w.attempts
  }

  lemma ArriveEffect(w: World, user: nat, ride: nat, now: int)
    ensures MovesOrNot(w, ExecAll(w, ArrivePlan(w, user, ride, now)), ride, now)
  {
    if AssignedIn(w, user, ride, ACCEPTED) {
      WriteThenRecord(w, [UpdateStatus(ride, Arrive(now))], ride, now, Patched(w.rides[ride], Arrive(now)));
    }
  }

  lemma CompleteEffect(w: World, user: nat, ride: nat, now: int)
    ensures MovesOrNot(w, ExecAll(w, CompletePlan(w, user, ride, now)), ride, now)
  {
    if AssignedIn(w, user, ride, IN_PROGRESS) {
      WriteThenRecord(w, CompleteTx(user, ride, w.rides[ride], now), ride, now,
                      Patched(w.rides[ride], Complete(now, w.rides[ride].estimatedFare)));
    }
  }

  lemma CancelEffect(w: World, user: nat, ride: nat, now: int)
    ensures MovesOrNot(w, ExecAll(w, CancelPlan(w, user, ride, now)), ride, now)
  {
    if MayCancel(w, user, ride) {
      var actor := if w.rides[ride].passenger == user then PASSENGER else DRIVER;
      WriteThenUnlist(w, CancelTx(ride, w.rides[ride], actor, now), ride, now,
                      Patched(w.rides[ride], Cancel(now, actor)));
    }
  }

  lemma RejectEffect(w: World, user: nat, ride: nat)
    ensures var t := ExecAll(w, RejectPlan(w, user, ride)); Untouched(w, t) && t.attempts == w.attempts
  {
    if user in w.drivers {
      assert [[Reject(ride, user)]] == [[Reject(ride, user)]] + [];
      ExecAllHead(w, [Reject(ride, user)], []);
      ExecTxOne(w, Reject(ride, user));
    }
  }

  lemma StartEffect(w: World, user: nat, ride: nat, guess: nat, now: int)
    ensures var t := ExecAll(w, StartPlan(w, user, ride, guess, now));
      Untouched(w, t) || Moved(w, t, ride, now)
  {
    if CountsAttempt(w, user, ride, now) {
      AttemptEffect(w, ride, now);
      StartedEffect(w, user, ride, now);
    }
  }

  predicate NamesRide(c: Call) {
    c.AcceptRide? || c.RejectRide? || c.MarkArrived? || c.StartRide? || c.CompleteRide? || c.CancelRide?
  }

  /** Going online or offline leaves rides, index, log and counters alone. */
  lemma PresenceEffect(w: World, c: Call, now: int)
    requires c.GoOnline? || c.GoOffline? || c.ExpireStaleHeartbeats?
    ensures Untouched(w, Whole(w, c, now)) && Whole(w, c, now).attempts == w.attempts
  {
    if c.ExpireStaleHeartbeats? { HeartbeatSteps(c.listed, c.alive); }
    OnlineEffect(w, Plan(w, c, now));
  }

  /** All calls but the sweep move at most the ride they name. */
  lemma CallEffect(w: World, c: Call, now: int)
    requires R.Consistent(w) && !c.ExpireStaleRides?
    ensures var t := Whole(w, c, now);
      Untouched(w, t) || (c.RequestRide? && Inserted(w, t, now)) || (NamesRide(c) && Moved(w, t, c.ride, now))
    ensures !c.StartRide? ==> Whole(w, c, now).attempts == w.attempts
  {
    match c
    case RequestRide(u, ty, p, otp, fare) => RequestEffect(w, u, ty, p, otp, fare, now);
    case AcceptRide(u, r) =>
      assert r < |w.rides| ==> R.RowConsistent(w, w.rides[r]);
      AcceptEffect(w, u, r, now);
    case StartRide(u, r, guess) => StartEffect(w, u, r, guess, now);
    case MarkArrived(u, r) => ArriveEffect(w, u, r, now);
    case CompleteRide(u, r) => CompleteEffect(w, u, r, now);
    case CancelRide(u, r) => CancelEffect(w, u, r, now);
    case RejectRide(u, r) => RejectEffect(w, u, r);
    case _ => PresenceEffect(w, c, now);
  }

  lemma {:induction false} HeartbeatSteps(listed: seq<nat>, alive: set<nat>)
    ensures forall tx: Tx :: tx in HeartbeatPlan(listed, alive) ==> |tx| == 1 && tx[0].SetOnline?
  {
    if listed != [] { HeartbeatSteps(listed[1..], alive); }
  }

  lemma {:induction false} OnlineEffect(w: World, txs: seq<Tx>)
    requires forall tx: Tx :: tx in txs ==> |tx| == 1 && tx[0].SetOnline?
    ensures var t := ExecAll(w, txs); Untouched(w, t) && t.attempts == w.attempts
    decreases |txs|
  {
    if txs != [] {
      assert txs[0] in txs && txs[0] == [txs[0][0]];
      ExecTxOne(w, txs[0][0]);
      OnlineEffect(ExecTx(w, txs[0]), txs[1..]);
    }
  }

  lemma SweepOneEffect(w: World, x: Stale, now: int)
    requires x.ride < |w.rides| && x.row == w.rides[x.ride] && Cancellable(x.row.status)
    ensures var t := ExecAll(w, SweepOne(w.rides, x, now));
      Moved(w, t, x.ride, now) && t.rides[x.ride].status == CANCELLED && t.attempts == w.attempts
  {
    var b := Patched(x.row, Cancel(now, SYSTEM));
    if x.row.status == REQUESTED {
      WriteThenUnlist(w, SweepTx(x, now), x.ride, now, b);
    } else {
      WriteThenRecord(w, SweepTx(x, now), x.ride, now, b);
    }
  }

  // ------------------------------------- the index and the trail agree

  /** The pending geo set holds exactly the REQUESTED rides, at their pickup points. */
  ghost predicate Indexed(w: World) {
    && (forall r :: r in w.pending <==> r in OpenRides(w.rides))
    && (forall r :: r in w.pending && r < |w.rides| ==> w.pending[r] == w.rides[r].pickup)
  }

  function OpenRides(rides: seq<Ride>): set<nat> {
    set r: nat | r < |rides| && rides[r].status == REQUESTED
  }

  /** The most recent status logged for a ride. */
  function LastLogged(trail: seq<(nat, Status)>, ride: nat): Option<Status> {
    if trail == [] then None
    else if trail[|trail| - 1].0 == ride then Some(trail[|trail| - 1].1)
    else LastLogged(trail[..|trail| - 1], ride)
  }

  ghost predicate Audited(w: World) {
    && (forall r :: 0 <= r < |w.rides| ==> LastLogged(w.trail, r) == Some(w.rides[r].status))
    && forall r :: r >= |w.rides| ==> LastLogged(w.trail, r) == None
  }

  lemma LoggedAppend(trail: seq<(nat, Status)>, e: (nat, Status), ride: nat)
    ensures LastLogged(trail + [e], ride) == if e.0 == ride then Some(e.1) else LastLogged(trail, ride)
  {
  }

  lemma MovedAgrees(w: World, t: World, i: nat, now: int)
    requires Indexed(w) && Audited(w) && Moved(w, t, i, now)
    ensures Indexed(t) && Audited(t)
  {
    forall r: nat ensures LastLogged(t.trail, r) == if r == i then Some(t.rides[i].status) else LastLogged(w.trail, r) {
      LoggedAppend(w.trail, (i, t.rides[i].status), r);
    }
    forall r ensures r in t.pending <==> r in OpenRides(t.rides) {
      assert r in w.pending <==> r in OpenRides(w.rides);
    }
  }

  lemma InsertedAgrees(w: World, t: World, now: int)
    requires Indexed(w) && Audited(w) && Inserted(w, t, now)
    ensures Indexed(t) && Audited(t)
  {
  }

  predicate Listed(found: seq<Stale>, i: nat) {
    exists k :: 0 <= k < |found| && found[k].ride == i
  }

  /** Each found ride is cancelled, every other ride is as it was. */
  predicate Swept(a: seq<Ride>, b: seq<Ride>, found: seq<Stale>, now: int) {
    && |b| == |a|
    && forall i :: 0 <= i < |a| ==>
         if Listed(found, i) then RowMoves(a[i], b[i], now) && b[i].status == CANCELLED else b[i] == a[i]
  }

  lemma SweptCons(w: World, u: World, c: seq<Ride>, found: seq<Stale>, now: int)
    requires found != [] && R.FoundAsIs(w.rides, found)
    requires Moved(w, u, found[0].ride, now) && u.rides[found[0].ride].status == CANCELLED
    requires Swept(u.rides, c, found[1..], now)
    ensures Swept(w.rides, c, found, now)
  {
  }

  ghost predicate SweepDone(w: World, t: World, found: seq<Stale>, now: int) {
    Indexed(t) && Audited(t) && t.attempts == w.attempts && Swept(w.rides, t.rides, found, now)
  }

  lemma {:induction false} SweepEffect(w: World, found: seq<Stale>, now: int)
    requires R.FoundAsIs(w.rides, found) && Indexed(w) && Audited(w)
    ensures SweepDone(w, ExecAll(w, SweepEach(w, found, now)), found, now)
    decreases |found|
  {
    if found != [] {
      assert found[0] in found;
      var one := SweepOne(w.rides, found[0], now);
      var u := ExecAll(w, one);
      SweepOneEffect(w, found[0], now);
      MovedAgrees(w, u, found[0].ride, now);
      R.SweepKeepsRest(w, found, now);
      SweepEffect(u, found[1..], now);
      ExecAllAppend(w, one, SweepEach(u, found[1..], now));
      SweptCons(w, u, ExecAll(w, SweepEach(w, found, now)).rides, found, now);
    }
  }

  lemma SweepIsPlan(w: World, now: int)
    ensures Plan(w, ExpireStaleRides, now) == SweepEach(w, AllStale(w.rides, now), now)
  {
  }

  lemma {:induction false} SweepWhole(w: World, now: int)
    requires R.Consistent(w) && Indexed(w) && Audited(w)
    ensures SweepDone(w, Whole(w, ExpireStaleRides, now), AllStale(w.rides, now), now)
  {
    var found := AllStale(w.rides, now);
    assert R.FoundAsIs(w.rides, found) by { R.AllStaleAsIs(w, now); }
    SweepEffect(w, found, now);
    SweepIsPlan(w, now);
  }

  // --------------------------------------------------------- whole C runs

  datatype Timed = Timed(call: Call, now: int)

  function WholeRun(w: World, steps: seq<Timed>): World {
    if steps == [] then w
    else Whole(WholeRun(w, steps[..|steps| - 1]), steps[|steps| - 1].call, steps[|steps| - 1].now)
  }

  /** The clock after a run that started at `start`. */
  function ClockOf(start: int, steps: seq<Timed>): int {
    if steps == [] then start else steps[|steps| - 1].now
  }

  /** The clock never runs backwards. */
  predicate Ordered(start: int, steps: seq<Timed>) {
    forall i :: 0 <= i < |steps| ==> ClockOf(start, steps[..i]) <= steps[i].now
  }

  predicate Fresh(w: World) {
    R.Opening(w) && w.trail == [] && w.pending == map[] && w.attempts == map[]
  }

  /** One whole call keeps the B-invariant too: it is the case where nothing crashes. */
  lemma WholeConsistent(w: World, c: Call, now: int)
    requires R.Consistent(w)
    ensures R.Consistent(Whole(w, c, now))
  {
    var plan := Plan(w, c, now);
    R.PlanLegal(w, c, now);
    R.LegalAllKeeps(w, plan, |plan|);
    assert plan[..|plan|] == plan;
  }

  lemma OpeningConsistent(w: World)
    requires R.Opening(w)
    ensures R.Consistent(w)
  {
  }

  /** One whole call: it moves at most one ride, or inserts one, or sweeps. */
  lemma WholeAgrees(w: World, c: Call, now: int)
    requires R.Consistent(w) && Indexed(w) && Audited(w)
    ensures Indexed(Whole(w, c, now)) && Audited(Whole(w, c, now))
  {
    var t := Whole(w, c, now);
    if c.ExpireStaleRides? {
      SweepWhole(w, now);
    } else {
      CallEffect(w, c, now);
      if Inserted(w, t, now) { InsertedAgrees(w, t, now); }
      if NamesRide(c) && Moved(w, t, c.ride, now) { MovedAgrees(w, t, c.ride, now); }
    }
  }

  lemma {:induction false} RunAgrees(w: World, steps: seq<Timed>)
    requires Fresh(w)
    ensures R.Consistent(WholeRun(w, steps)) && Indexed(WholeRun(w, steps)) && Audited(WholeRun(w, steps))
  {
    if steps == [] {
      OpeningConsistent(w);
    } else {
      var front, last := steps[..|steps| - 1], steps[|steps| - 1];
      RunAgrees(w, front);
      WholeConsistent(WholeRun(w, front), last.call, last.now);
      WholeAgrees(WholeRun(w, front), last.call, last.now);
    }
  }

  /** Without Redis failures the pending set is exactly the REQUESTED rides at their pickup
      points, and the audit trail ends, for every ride, in its current status. */
  lemma {:induction false} IndexAndTrailAgree(w: World, steps: seq<Timed>, ride: nat)
    requires Fresh(w)
    ensures var t := WholeRun(w, steps);
      && (ride in t.pending <==> ride < |t.rides| && t.rides[ride].status == REQUESTED)
      && (ride in t.pending ==> t.pending[ride] == t.rides[ride].pickup)
      && (ride < |t.rides| ==> LastLogged(t.trail, ride) == Some(t.rides[ride].status))
  {
    RunAgrees(w, steps);
    var t := WholeRun(w, steps);
    assert ride in t.pending <==> ride in OpenRides(t.rides);
  }

  // ------------------------------------------------------ bounded waiting

  const SWEEP_INTERVAL := 2 * MINUTE

  function LastSweep(start: int, steps: seq<Timed>): int {
    if steps == [] then start
    else if steps[|steps| - 1].call.ExpireStaleRides? then steps[|steps| - 1].now
    else LastSweep(start, steps[..|steps| - 1])
  }

  /** A sweep is never more than two minutes away. */
  predicate SweptInTime(start: int, steps: seq<Timed>) {
    forall i :: 0 <= i < |steps| ==> steps[i].now <= LastSweep(start, steps[..i]) + SWEEP_INTERVAL
  }

  const REQUESTED_WAIT := REQUESTED_TIMEOUT + SWEEP_INTERVAL
  const ACCEPTED_WAIT := ACCEPTED_TIMEOUT + SWEEP_INTERVAL
  const ARRIVED_WAIT := ARRIVED_TIMEOUT + SWEEP_INTERVAL
  const LONGEST_WAIT := REQUESTED_WAIT + ACCEPTED_WAIT + ARRIVED_WAIT

  /** When a ride's current waiting status began. */
  function Since(row: Ride): int {
    if row.status == ACCEPTED && row.acceptedAt.Some? then row.acceptedAt.value
    else if row.status == ARRIVED && row.arrivedAt.Some? then row.arrivedAt.value
    else row.requestedAt
  }

  function Timeout(s: Status): int {
    if s == REQUESTED then REQUESTED_TIMEOUT else if s == ACCEPTED then ACCEPTED_TIMEOUT else ARRIVED_TIMEOUT
  }

  predicate RowTimely(row: Ride, swept: int, clock: int) {
    && row.requestedAt <= clock
    && (row.acceptedAt.Some? ==>
          row.requestedAt <= row.acceptedAt.value <= clock && row.acceptedAt.value <= row.requestedAt + REQUESTED_WAIT)
    && (row.arrivedAt.Some? ==>
          row.acceptedAt.Some? && row.acceptedAt.value <= row.arrivedAt.value <= clock
          && row.arrivedAt.value <= row.acceptedAt.value + ACCEPTED_WAIT)
    && (row.startedAt.Some? ==>
          row.arrivedAt.Some? && row.startedAt.value <= row.arrivedAt.value + OTP_VALIDITY)
    && (row.cancelledAt.Some? ==> row.cancelledAt.value <= row.requestedAt + LONGEST_WAIT)
    && (row.status == ACCEPTED || row.status == ARRIVED ==> row.acceptedAt.Some?)
    && (row.status == ARRIVED ==> row.arrivedAt.Some?)
    && (row.status == IN_PROGRESS || row.status == COMPLETED ==> row.startedAt.Some?)
    && (row.status == CANCELLED ==> row.cancelledAt.Some?)
    && (row.status == REQUESTED || row.status == ACCEPTED ==> row.arrivedAt == None)
    && (Cancellable(row.status) ==> swept <= Since(row) + Timeout(row.status))
  }

  predicate Timely(w: World, swept: int, clock: int) {
    forall i :: 0 <= i < |w.rides| ==> RowTimely(w.rides[i], swept, clock)
  }

  lemma MoveTimely(a: Ride, b: Ride, swept: int, clock: int, now: int)
    requires RowTimely(a, swept, clock) && RowMoves(a, b, now)
    requires swept <= clock <= now <= swept + SWEEP_INTERVAL
    ensures RowTimely(b, swept, now)
    ensures b.status == CANCELLED ==> RowTimely(b, now, now)
  {
  }

  lemma StayTimely(a: Ride, swept: int, clock: int, now: int)
    requires RowTimely(a, swept, clock) && clock <= now
    ensures RowTimely(a, swept, now)
    ensures !IsStale(a, a.status, now) ==> RowTimely(a, now, now)
  {
  }

  lemma {:induction false} StaleIsListed(rides: seq<Ride>, i: nat, now: int)
    requires i < |rides|
    ensures IsStale(rides[i], rides[i].status, now) <==> Listed(AllStale(rides, now), i)
  {
    var found, x := AllStale(rides, now), Stale(i, rides[i]);
    if IsStale(rides[i], rides[i].status, now) {
      assert x in FindStale(rides, rides[i].status, now);
      assert x in found;
      var k :| 0 <= k < |found| && found[k] == x;
      assert found[k].ride == i;
    }
    if Listed(found, i) {
      var k :| 0 <= k < |found| && found[k].ride == i;
      assert found[k] in found;
    }
  }

  lemma SweepTimely(w: World, swept: int, clock: int, now: int)
    requires R.Consistent(w) && Indexed(w) && Audited(w) && Timely(w, swept, clock)
    requires swept <= clock <= now <= swept + SWEEP_INTERVAL
    ensures Timely(Whole(w, ExpireStaleRides, now), now, now)
  {
    var t := Whole(w, ExpireStaleRides, now);
    SweepWhole(w, now);
    forall i | 0 <= i < |t.rides| ensures RowTimely(t.rides[i], now, now) {
      StayTimely(w.rides[i], swept, clock, now);
      StaleIsListed(w.rides, i, now);
      if Listed(AllStale(w.rides, now), i) {
        MoveTimely(w.rides[i], t.rides[i], swept, clock, now);
      }
    }
  }

  lemma WholeTimely(w: World, c: Call, swept: int, clock: int, now: int)
    requires R.Consistent(w) && Indexed(w) && Audited(w) && Timely(w, swept, clock)
    requires swept <= clock <= now <= swept + SWEEP_INTERVAL
    ensures Timely(Whole(w, c, now), if c.ExpireStaleRides? then now else swept, now)
  {
    if c.ExpireStaleRides? {
      SweepTimely(w, swept, clock, now);
    } else {
      var t := Whole(w, c, now);
      forall i | 0 <= i < |w.rides| ensures RowTimely(w.rides[i], swept, now) {
        StayTimely(w.rides[i], swept, clock, now);
      }
      CallEffect(w, c, now);
      if NamesRide(c) && Moved(w, t, c.ride, now) {
        MoveTimely(w.rides[c.ride], t.rides[c.ride], swept, clock, now);
      }
    }
  }

  lemma {:induction false} RunTimely(w: World, start: int, steps: seq<Timed>)
    requires Fresh(w) && Ordered(start, steps) && SweptInTime(start, steps)
    ensures LastSweep(start, steps) <= ClockOf(start, steps)
    ensures Timely(WholeRun(w, steps), LastSweep(start, steps), ClockOf(start, steps))
  {
    if steps != [] {
      var n := |steps| - 1;
      var front := steps[..n];
      forall i | 0 <= i < n ensures front[..i] == steps[..i] && front[i] == steps[i] {}
      RunTimely(w, start, front);
      RunAgrees(w, front);
      WholeTimely(WholeRun(w, front), steps[n].call, LastSweep(start, front), ClockOf(start, front), steps[n].now);
    }
  }

  /** With sweeps at most two minutes apart a ride waits at most 7, 17 and 17 minutes in
      REQUESTED, ACCEPTED and ARRIVED; so 41 minutes after its request it is under way,
      finished or cancelled, and it was started or cancelled within those 41 minutes. */
  lemma {:induction false} BoundedWaiting(w: World, start: int, steps: seq<Timed>, now: int, ride: nat)
    requires Fresh(w) && Ordered(start, steps) && SweptInTime(start, steps)
    requires ClockOf(start, steps) <= now <= LastSweep(start, steps) + SWEEP_INTERVAL
    requires ride < |WholeRun(w, steps).rides|
    ensures var row := WholeRun(w, steps).rides[ride];
      && (row.status == REQUESTED ==> now - row.requestedAt <= 7 * MINUTE)
      && (row.status == ACCEPTED ==> row.acceptedAt.Some? && now - row.acceptedAt.value <= 17 * MINUTE)
      && (row.status == ARRIVED ==> row.arrivedAt.Some? && now - row.arrivedAt.value <= 17 * MINUTE)
      && (now - row.requestedAt > 41 * MINUTE ==>
            row.status == IN_PROGRESS || row.status == COMPLETED || row.status == CANCELLED)
      && (row.startedAt.Some? ==> row.startedAt.value - row.requestedAt <= 41 * MINUTE)
      && (row.cancelledAt.Some? ==> row.cancelledAt.value - row.requestedAt <= 41 * MINUTE)
  {
    RunTimely(w, start, steps);
    assert RowTimely(WholeRun(w, steps).rides[ride], LastSweep(start, steps), ClockOf(start, steps));
  }

  // ------------------------------------------------------ OTP comparisons

  predicate ComparesRide(w: World, s: Timed, ride: nat) {
    s.call.StartRide? && s.call.ride == ride && ComparesOtp(w, s.call.user, ride, s.now)
  }

  /** How often a run compares a code against this ride's OTP. */
  function Comparisons(w: World, steps: seq<Timed>, ride: nat): nat {
    if steps == [] then 0
    else
      var front := steps[..|steps| - 1];
      Comparisons(w, front, ride) + if ComparesRide(WholeRun(w, front), steps[|steps| - 1], ride) then 1 else 0
  }

  function Least(a: nat, b: nat): nat { if a < b then a else b }

  /** Before arrival nothing is counted; while ARRIVED the key holds the count, and cannot
      expire before the OTP does; afterwards the total stands. */
  predicate OtpCounted(w: World, ride: nat, n: nat, clock: int) {
    if ride >= |w.rides| || w.rides[ride].status == REQUESTED || w.rides[ride].status == ACCEPTED
    then n == 0 && ride !in w.attempts
    else if w.rides[ride].status == ARRIVED
    then
      var at := w.rides[ride].arrivedAt;
      && at.Some? && at.value <= clock
      && if ride !in w.attempts then n == 0
         else
           && w.attempts[ride].expiresAt.Some?
           && w.attempts[ride].expiresAt.value >= at.value + OTP_ATTEMPT_WINDOW
           && w.attempts[ride].count > 0
           && n == Least(w.attempts[ride].count, MAX_OTP_ATTEMPTS)
    else n <= MAX_OTP_ATTEMPTS
  }

  lemma StartElsewhere(w: World, s: Timed, ride: nat)
    requires s.call.StartRide? && s.call.ride != ride
    ensures var t := Whole(w, s.call, s.now);
      && |t.rides| == |w.rides| && (ride < |w.rides| ==> t.rides[ride] == w.rides[ride])
      && (ride in t.attempts <==> ride in w.attempts)
      && (ride in w.attempts ==> t.attempts[ride] == w.attempts[ride])
  {
    var u, r, now := s.call.user, s.call.ride, s.now;
    if CountsAttempt(w, u, r, now) {
      AttemptEffect(w, r, now);
      if ComparesOtp(w, u, r, now) && s.call.guess == w.rides[r].otp { StartedEffect(w, u, r, now); }
    }
  }

  lemma StartCounted(w: World, s: Timed, ride: nat, n: nat, clock: int)
    requires s.call.StartRide? && OtpCounted(w, ride, n, clock) && clock <= s.now
    ensures OtpCounted(Whole(w, s.call, s.now), ride, n + if ComparesRide(w, s, ride) then 1 else 0, s.now)
  {
    var u, now := s.call.user, s.now;
    if s.call.ride != ride {
      StartElsewhere(w, s, ride);
    } else if CountsAttempt(w, u, ride, now) {
      AttemptEffect(w, ride, now);
      if ComparesOtp(w, u, ride, now) && s.call.guess == w.rides[ride].otp {
        StartedEffect(w, u, ride, now);
      }
    }
  }

  lemma MovedCounted(w: World, t: World, i: nat, now: int, ride: nat, n: nat, clock: int)
    requires Moved(w, t, i, now) && t.attempts == w.attempts
    requires OtpCounted(w, ride, n, clock) && clock <= now
    ensures OtpCounted(t, ride, n, now)
  {
  }

  lemma SweptCounted(w: World, now: int, ride: nat, n: nat, clock: int)
    requires R.Consistent(w) && Indexed(w) && Audited(w)
    requires OtpCounted(w, ride, n, clock) && clock <= now
    ensures OtpCounted(Whole(w, ExpireStaleRides, now), ride, n, now)
  {
    SweepWhole(w, now);
  }

  lemma OtherCounted(w: World, c: Call, now: int, ride: nat, n: nat, clock: int)
    requires R.Consistent(w) && Indexed(w) && Audited(w)
    requires !c.StartRide? && OtpCounted(w, ride, n, clock) && clock <= now
    ensures OtpCounted(Whole(w, c, now), ride, n, now)
  {
    if c.ExpireStaleRides? {
      SweptCounted(w, now, ride, n, clock);
    } else {
      var t := Whole(w, c, now);
      CallEffect(w, c, now);
      if NamesRide(c) && Moved(w, t, c.ride, now) { MovedCounted(w, t, c.ride, now, ride, n, clock); }
    }
  }

  lemma {:induction false} RunCounted(w: World, start: int, steps: seq<Timed>, ride: nat)
    requires Fresh(w) && Ordered(start, steps)
    ensures OtpCounted(WholeRun(w, steps), ride, Comparisons(w, steps, ride), ClockOf(start, steps))
  {
    if steps != [] {
      var n := |steps| - 1;
      var front, s := steps[..n], steps[n];
      forall i | 0 <= i < n ensures front[..i] == steps[..i] && front[i] == steps[i] {}
      RunCounted(w, start, front, ride);
      RunAgrees(w, front);
      var k := Comparisons(w, front, ride);
      if s.call.StartRide? {
        StartCounted(WholeRun(w, front), s, ride, k, ClockOf(start, front));
      } else {
        OtherCounted(WholeRun(w, front), s.call, s.now, ride, k, ClockOf(start, front));
      }
    }
  }

  /** Over a ride's whole life its OTP is compared at most five times, whatever is guessed and
      whenever: the window for comparing closes before the counter can expire. */
  lemma {:induction false} AtMostFiveComparisons(w: World, start: int, steps: seq<Timed>, ride: nat)
    requires Fresh(w) && Ordered(start, steps)
    ensures Comparisons(w, steps, ride) <= 5
  {
    RunCounted(w, start, steps, ride);
  }

  /** A ride that a correct code could still start is never old enough for the sweep. */
  lemma {:induction false} StartableIsNotSwept(w: World, start: int, steps: seq<Timed>, ride: nat, now: int)
    requires Fresh(w) && Ordered(start, steps) && ride < |WholeRun(w, steps).rides|
    requires var row := WholeRun(w, steps).rides[ride];
      row.status == ARRIVED && row.arrivedAt.Some? && now - row.arrivedAt.value <= 600_000
    ensures var t := WholeRun(w, steps);
      ride < |Whole(t, ExpireStaleRides, now).rides| && Whole(t, ExpireStaleRides, now).rides[ride] == t.rides[ride]
  {
    var t := WholeRun(w, steps);
    RunAgrees(w, steps);
    RunCounted(w, start, steps, ride);
    SweepWhole(t, now);
    StaleIsListed(t.rides, ride, now);
  }
}
