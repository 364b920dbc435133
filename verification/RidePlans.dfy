/** What each service call does when it runs alone: the guards it checks against the
    state it reads, and then the durable steps it issues, in order.  An inner sequence is
    one statement or one `$transaction`; a call that is refused has no steps (startRide is
    refused only after counting the attempt). */
module RidePlans {
  import opened Options
  import opened Rides

  datatype Call =
    | RequestRide(user: nat, vehicleType: nat, pickup: Place, otp: nat, fare: nat)
    | AcceptRide(user: nat, ride: nat)
    | RejectRide(user: nat, ride: nat)
    | MarkArrived(user: nat, ride: nat)
    | StartRide(user: nat, ride: nat, guess: nat)
    | CompleteRide(user: nat, ride: nat)
    | CancelRide(user: nat, ride: nat)
    | ExpireStaleRides
    | GoOnline(user: nat)
    | GoOffline(user: nat)
    | ExpireStaleHeartbeats(listed: seq<nat>, alive: set<nat>)

  /** getAssignedRideInStatus */
  predicate AssignedIn(w: World, user: nat, ride: nat, expected: Status) {
    user in w.drivers && ride < |w.rides| && w.rides[ride].driver == Some(user) && w.rides[ride].status == expected
  }

  function RequestPlan(w: World, user: nat, vehicleType: nat, pickup: Place, otp: nat, fare: nat, now: int): seq<Tx> {
    if user !in w.trips || RidingNow(w.rides, user) then []
    else
      [[CreateRide(NewRide(user, vehicleType, pickup, otp, fare, now))],
       [Record(|w.rides|, REQUESTED)],
       [AddPending(|w.rides|, pickup)]]
  }

  predicate MayAccept(w: World, user: nat, ride: nat) {
    && user in w.drivers && w.drivers[user].approved && w.drivers[user].online && w.drivers[user].available
    && !HasActiveRide(w.rides, user)
    && ride < |w.rides| && w.rides[ride].status == REQUESTED
    && w.rides[ride].vehicleType in w.drivers[user].vehicles
  }

  function AcceptPlan(w: World, user: nat, ride: nat, now: int): seq<Tx> {
    if !MayAccept(w, user, ride) then []
    else
      var assign := [TryAssign(ride, user, w.drivers[user].vehicles[w.rides[ride].vehicleType], now)];
      if CanAssign(w.rides, ride)
      then [assign, [SetAvailable(user, false)], [RemovePending(ride)], [Record(ride, ACCEPTED)]]
      else [assign]
  }

  function RejectPlan(w: World, user: nat, ride: nat): seq<Tx> {
    if user in w.drivers then [[Reject(ride, user)]] else []
  }

  function ArrivePlan(w: World, user: nat, ride: nat, now: int): seq<Tx> {
    if AssignedIn(w, user, ride, ACCEPTED) then [[UpdateStatus(ride, Arrive(now))], [Record(ride, ARRIVED)]] else []
  }

  /** The 10-minute window is measured from arrivedAt; a null date reads as the epoch, long ago. */
  predicate OtpFresh(row: Ride, now: int) {
    row.arrivedAt.Some? && now - row.arrivedAt.value <= OTP_VALIDITY
  }

  /** The call gets as far as counting an attempt. */
  predicate CountsAttempt(w: World, user: nat, ride: nat, now: int) {
    AssignedIn(w, user, ride, ARRIVED) && OtpFresh(w.rides[ride], now)
  }

  /** The call gets as far as comparing the code. */
  predicate ComparesOtp(w: World, user: nat, ride: nat, now: int) {
    CountsAttempt(w, user, ride, now) && NextAttempt(w.attempts, ride, now) <= MAX_OTP_ATTEMPTS
  }

  function AttemptPlan(w: World, ride: nat, now: int): seq<Tx> {
    [[IncrAttempts(ride, now)]]
    + (if NextAttempt(w.attempts, ride, now) == 1 then [[ExpireAttempts(ride, now + OTP_ATTEMPT_WINDOW)]] else [])
  }

  function StartPlan(w: World, user: nat, ride: nat, guess: nat, now: int): seq<Tx> {
    if !CountsAttempt(w, user, ride, now) then []
    else if ComparesOtp(w, user, ride, now) && guess == w.rides[ride].otp
    then AttemptPlan(w, ride, now)
         + [[DelAttempts(ride)], [UpdateStatus(ride, Start(now))], [Record(ride, IN_PROGRESS)]]
    else AttemptPlan(w, ride, now)
  }

  function CompleteTx(user: nat, ride: nat, row: Ride, now: int): Tx {
    [UpdateStatus(ride, Complete(now, row.estimatedFare)), SetAvailable(user, true),
     AddEarnings(user, row.estimatedFare), CountTrip(row.passenger)]
  }

  function CompletePlan(w: World, user: nat, ride: nat, now: int): seq<Tx> {
    if AssignedIn(w, user, ride, IN_PROGRESS)
    then [CompleteTx(user, ride, w.rides[ride], now), [Record(ride, COMPLETED)]]
    else []
  }

  predicate MayCancel(w: World, user: nat, ride: nat) {
    ride < |w.rides| && Cancellable(w.rides[ride].status)
    && (w.rides[ride].passenger == user || w.rides[ride].driver == Some(user))
  }

  function CancelPlan(w: World, user: nat, ride: nat, now: int): seq<Tx> {
    if !MayCancel(w, user, ride) then []
    else
      [CancelTx(ride, w.rides[ride], if w.rides[ride].passenger == user then PASSENGER else DRIVER, now),
       [RemovePending(ride)], [Record(ride, CANCELLED)]]
  }

  /** One iteration of a sweep loop: the conditional cancel, then the clean-up that a
      count of 0 skips. */
  function SweepOne(rides: seq<Ride>, x: Stale, now: int): seq<Tx> {
    if !CurrentlyIn(rides, x.ride, x.row.status) then [SweepTx(x, now)]
    else if x.row.status == REQUESTED
    then [SweepTx(x, now), [RemovePending(x.ride)], [Record(x.ride, CANCELLED)]]
    else [SweepTx(x, now), [Record(x.ride, CANCELLED)]]
  }

  function SweepEach(w: World, found: seq<Stale>, now: int): seq<Tx>
    decreases |found|
  {
    if found == [] then []
    else
      var one := SweepOne(w.rides, found[0], now);
      one + SweepEach(ExecAll(w, one), found[1..], now)
  }

  function AllStale(rides: seq<Ride>, now: int): seq<Stale> {
    FindStale(rides, REQUESTED, now) + FindStale(rides, ACCEPTED, now) + FindStale(rides, ARRIVED, now)
  }

  function OnlinePlan(w: World, user: nat): seq<Tx> {
    if user in w.drivers && w.drivers[user].approved && w.drivers[user].vehicles != map[]
    then [[SetOnline(user, true, true)]]
    else []
  }

  function OfflinePlan(w: World, user: nat): seq<Tx> {
    if user in w.drivers then [[SetOnline(user, false, false)]] else []
  }

  function HeartbeatPlan(listed: seq<nat>, alive: set<nat>): seq<Tx> {
    if listed == [] then []
    else
      (if listed[0] in alive then [] else [[SetOnline(listed[0], false, false)]])
      + HeartbeatPlan(listed[1..], alive)
  }

  function Plan(w: World, c: Call, now: int): seq<Tx> {
    match c
    case RequestRide(u, t, p, otp, fare) => RequestPlan(w, u, t, p, otp, fare, now)
    case AcceptRide(u, r) => AcceptPlan(w, u, r, now)
    case RejectRide(u, r) => RejectPlan(w, u, r)
    case MarkArrived(u, r) => ArrivePlan(w, u, r, now)
    case StartRide(u, r, guess) => StartPlan(w, u, r, guess, now)
    case CompleteRide(u, r) => CompletePlan(w, u, r, now)
    case CancelRide(u, r) => CancelPlan(w, u, r, now)
    case ExpireStaleRides => SweepEach(w, AllStale(w.rides, now), now)
    case GoOnline(u) => OnlinePlan(w, u)
    case GoOffline(u) => OfflinePlan(w, u)
    case ExpireStaleHeartbeats(listed, alive) => HeartbeatPlan(listed, alive)
  }

  function Whole(w: World, c: Call, now: int): World {
    ExecAll(w, Plan(w, c, now))
  }
}
