/** The ride, driver and passenger tables, the Redis keys the ride service uses,
    and the atomic statements that src/repositories issues against them.

    Rides are numbered in creation order and never deleted, so the table is a
    sequence and a ride's id is its position.  A driver or passenger profile is a
    1:1 extension of a user, so all three share one id.  Money is in cents and
    time in milliseconds. */
module Rides {
  import opened Options

  datatype Status = REQUESTED | ACCEPTED | ARRIVED | IN_PROGRESS | COMPLETED | CANCELLED

  datatype Canceller = PASSENGER | DRIVER | SYSTEM

  type Place = (int, int)

  datatype Ride = Ride(
    passenger: nat, vehicleType: nat, pickup: Place, otp: nat, estimatedFare: nat,
    status: Status, driver: Option<nat>, vehicle: Option<nat>, actualFare: Option<nat>,
    requestedAt: int, acceptedAt: Option<int>, arrivedAt: Option<int>, startedAt: Option<int>,
    completedAt: Option<int>, cancelledAt: Option<int>, cancelledBy: Option<Canceller>)

  /** `vehicles` maps a vehicle type to one of the driver's active, verified vehicles. */
  datatype Driver = Driver(
    approved: bool, online: bool, available: bool, vehicles: map<nat, nat>,
    totalRides: nat, totalEarnings: nat)

  /** The Redis OTP attempt counter of one ride; no expiry until EXPIRE is called. */
  datatype Counter = Counter(count: nat, expiresAt: Option<int>)

  datatype World = World(
    rides: seq<Ride>,
    drivers: map<nat, Driver>,
    trips: map<nat, nat>,             // passenger id -> totalRides
    trail: seq<(nat, Status)>,        // ride_status_logs, oldest first
    pending: map<nat, Place>,         // geo:rides:pending
    rejected: set<(nat, nat)>,        // (ride, driver) in ride:<id>:rejectedBy
    attempts: map<nat, Counter>)      // ride:<id>:otpAttempts

  const EMPTY_WORLD := World([], map[], map[], [], map[], {}, map[])

  const MINUTE := 60_000
  const REQUESTED_TIMEOUT := 5 * MINUTE
  const ACCEPTED_TIMEOUT := 15 * MINUTE
  const ARRIVED_TIMEOUT := 15 * MINUTE
  const OTP_VALIDITY := 10 * MINUTE
  const OTP_ATTEMPT_WINDOW := 15 * MINUTE
  const MAX_OTP_ATTEMPTS := 5

  predicate Active(s: Status) {
    s == REQUESTED || s == ACCEPTED || s == ARRIVED || s == IN_PROGRESS
  }

  predicate Cancellable(s: Status) {
    s == REQUESTED || s == ACCEPTED || s == ARRIVED
  }

  /** The statuses that only a ride with a driver may have. */
  predicate NeedsDriver(s: Status) {
    s == ACCEPTED || s == ARRIVED || s == IN_PROGRESS || s == COMPLETED
  }

  function NewRide(passenger: nat, vehicleType: nat, pickup: Place, otp: nat, fare: nat, at: int): Ride {
    Ride(passenger, vehicleType, pickup, otp, fare, REQUESTED, None, None, None,
         at, None, None, None, None, None, None)
  }

  /** The column sets that the service passes to updateStatus and tryUpdateStatusIfCurrently. */
  datatype Patch =
    | Arrive(at: int)
    | Start(at: int)
    | Complete(at: int, fare: nat)
    | Cancel(at: int, actor: Canceller)

  function Patched(row: Ride, p: Patch): Ride {
    match p
    case Arrive(at) => row.(status := ARRIVED, arrivedAt := Some(at))
    case Start(at) => row.(status := IN_PROGRESS, startedAt := Some(at))
    case Complete(at, fare) => row.(status := COMPLETED, completedAt := Some(at), actualFare := Some(fare))
    case Cancel(at, actor) => row.(status := CANCELLED, cancelledAt := Some(at), cancelledBy := Some(actor))
  }

  function Assigned(row: Ride, driver: nat, vehicle: nat, at: int): Ride {
    row.(status := ACCEPTED, driver := Some(driver), vehicle := Some(vehicle), acceptedAt := Some(at))
  }

  /** One Prisma or Redis statement. */
  datatype Stmt =
    | CreateRide(row: Ride)
    | TryAssign(ride: nat, driver: nat, vehicle: nat, at: int)
    | UpdateStatus(ride: nat, patch: Patch)
    | TryUpdateStatus(ride: nat, expected: Status, patch: Patch)
    | SetAvailable(driver: nat, available: bool)
    | SetOnline(driver: nat, online: bool, available: bool)
    | AddEarnings(driver: nat, fare: nat)
    | CountTrip(passenger: nat)
    | Record(ride: nat, status: Status)
    | AddPending(ride: nat, pickup: Place)
    | RemovePending(ride: nat)
    | Reject(ride: nat, driver: nat)
    | IncrAttempts(ride: nat, now: int)
    | ExpireAttempts(ride: nat, expiresAt: int)
    | DelAttempts(ride: nat)

  /** Whether the WHERE clause of a conditional update still matches its row. */
  predicate CanAssign(rides: seq<Ride>, ride: nat) {
    ride < |rides| && rides[ride].status == REQUESTED && rides[ride].driver == None
  }

  predicate CurrentlyIn(rides: seq<Ride>, ride: nat, expected: Status) {
    ride < |rides| && rides[ride].status == expected
  }

  /** The value the next INCR returns: a missing or expired key counts from zero. */
  function NextAttempt(attempts: map<nat, Counter>, ride: nat, now: int): nat {
    if ride in attempts && (attempts[ride].expiresAt == None || now < attempts[ride].expiresAt.value)
    then attempts[ride].count + 1
    else 1
  }

  function RideTable(rides: seq<Ride>, s: Stmt): seq<Ride> {
    match s
    case CreateRide(row) => rides + [row]
    case TryAssign(ride, driver, vehicle, at) =>
      if CanAssign(rides, ride) then rides[ride := Assigned(rides[ride], driver, vehicle, at)] else rides
    case UpdateStatus(ride, patch) =>
      if ride < |rides| then rides[ride := Patched(rides[ride], patch)] else rides
    case TryUpdateStatus(ride, expected, patch) =>
      if CurrentlyIn(rides, ride, expected) then rides[ride := Patched(rides[ride], patch)] else rides
    case _ => rides
  }

  function DriverTable(drivers: map<nat, Driver>, s: Stmt): map<nat, Driver> {
    match s
    case SetAvailable(d, available) =>
      if d in drivers then drivers[d := drivers[d].(available := available)] else drivers
    case SetOnline(d, online, available) =>
      if d in drivers then drivers[d := drivers[d].(online := online, available := available)] else drivers
    case AddEarnings(d, fare) =>
      if d in drivers
      then drivers[d := drivers[d].(totalRides := drivers[d].totalRides + 1,
                                    totalEarnings := drivers[d].totalEarnings + fare)]
      else drivers
    case _ => drivers
  }

  function TripTable(trips: map<nat, nat>, s: Stmt): map<nat, nat> {
    match s
    case CountTrip(p) => if p in trips then trips[p := trips[p] + 1] else trips
    case _ => trips
  }

  function PendingSet(pending: map<nat, Place>, s: Stmt): map<nat, Place> {
    match s
    case AddPending(ride, pickup) => pending[ride := pickup]
    case RemovePending(ride) => pending - {ride}
    case _ => pending
  }

  function AttemptKeys(attempts: map<nat, Counter>, s: Stmt): map<nat, Counter> {
    match s
    case IncrAttempts(ride, now) =>
      var n := NextAttempt(attempts, ride, now);
      attempts[ride := if n == 1 then Counter(1, None) else attempts[ride].(count := n)]
    case ExpireAttempts(ride, at) =>
      if ride in attempts then attempts[ride := attempts[ride].(expiresAt := Some(at))] else attempts
    case DelAttempts(ride) => attempts - {ride}
    case _ => attempts
  }

  /** Every statement acts on one table, looking only at that table. */
  function Exec(w: World, s: Stmt): World {
    World(RideTable(w.rides, s), DriverTable(w.drivers, s), TripTable(w.trips, s),
          if s.Record? then w.trail + [(s.ride, s.status)] else w.trail,
          PendingSet(w.pending, s),
          if s.Reject? then w.rejected + {(s.ride, s.driver)} else w.rejected,
          AttemptKeys(w.attempts, s))
  }

  /** A `$transaction`: its statements land together. */
  type Tx = seq<Stmt>

  function ExecTx(w: World, tx: Tx): World
    decreases |tx|
  {
    if tx == [] then w else ExecTx(Exec(w, tx[0]), tx[1..])
  }

  /** findActiveByDriver and findActiveByPassenger, as tests for a row. */
  predicate HasActiveRide(rides: seq<Ride>, driver: nat) {
    exists i | 0 <= i < |rides| :: rides[i].driver == Some(driver) && Active(rides[i].status)
  }

  predicate RidingNow(rides: seq<Ride>, passenger: nat) {
    exists i | 0 <= i < |rides| :: rides[i].passenger == passenger && Active(rides[i].status)
  }

  /** A row found by one of the three stale-ride queries. */
  datatype Stale = Stale(ride: nat, row: Ride)

  /** The three stale-ride queries, as WHERE clauses over one row. */
  predicate IsStale(row: Ride, status: Status, now: int) {
    && row.status == status
    && match status
       case REQUESTED => row.requestedAt < now - REQUESTED_TIMEOUT
       case ACCEPTED => row.acceptedAt.Some? && row.acceptedAt.value < now - ACCEPTED_TIMEOUT
       case ARRIVED => row.arrivedAt.Some? && row.arrivedAt.value < now - ARRIVED_TIMEOUT
       case _ => false
  }

  function FindStale(rides: seq<Ride>, status: Status, now: int): (found: seq<Stale>)
    ensures forall x :: x in found <==> x.ride < |rides| && x.row == rides[x.ride] && IsStale(x.row, status, now)
  {
    if rides == [] then []
    else
      var last := |rides| - 1;
      FindStale(rides[..last], status, now)
      + (if IsStale(rides[last], status, now) then [Stale(last, rides[last])] else [])
  }

  function CancelTx(ride: nat, row: Ride, actor: Canceller, at: int): Tx {
    [UpdateStatus(ride, Cancel(at, actor))]
    + (if row.driver.Some? then [SetAvailable(row.driver.value, true)] else [])
  }

  function SweepTx(x: Stale, at: int): Tx {
    [TryUpdateStatus(x.ride, x.row.status, Cancel(at, SYSTEM))]
    + (if x.row.status != REQUESTED && x.row.driver.Some? then [SetAvailable(x.row.driver.value, true)] else [])
  }

  /** A run of durable steps; stopping after a prefix is what a crash leaves behind. */
  function ExecAll(w: World, txs: seq<Tx>): World
    decreases |txs|
  {
    if txs == [] then w else ExecAll(ExecTx(w, txs[0]), txs[1..])
  }

  lemma {:induction false} ExecAllAppend(w: World, a: seq<Tx>, b: seq<Tx>)
    ensures ExecAll(w, a + b) == ExecAll(ExecAll(w, a), b)
    decreases |a|
  {
    if a == [] {
      assert a + b == b;
    } else {
      assert (a + b)[1..] == a[1..] + b;
      ExecAllAppend(ExecTx(w, a[0]), a[1..], b);
    }
  }

  lemma ExecAllHead(w: World, tx: Tx, rest: seq<Tx>)
    ensures ExecAll(w, [tx] + rest) == ExecAll(ExecTx(w, tx), rest)
  {
  }

  lemma ExecTxOne(w: World, s: Stmt)
    ensures ExecTx(w, [s]) == Exec(w, s)
  {
  }

  lemma ExecTxHead(w: World, head: Stmt, rest: Tx)
    ensures ExecTx(w, [head] + rest) == ExecTx(Exec(w, head), rest)
  {
  }

  predicate TouchesRides(s: Stmt) {
    s.CreateRide? || s.TryAssign? || s.UpdateStatus? || s.TryUpdateStatus?
  }

  /** The statements that accompany a status write in its transaction leave the ride table alone. */
  lemma {:induction false} ExecTxRides(w: World, head: Stmt, rest: Tx)
    requires forall s :: s in rest ==> !TouchesRides(s)
    ensures ExecTx(w, [head] + rest).rides == Exec(w, head).rides
    decreases |rest|
  {
    ExecTxHead(w, head, rest);
    if rest != [] {
      assert rest == [rest[0]] + rest[1..] && rest[0] in rest && !TouchesRides(rest[0]);
      ExecTxRides(Exec(w, head), rest[0], rest[1..]);
    }
  }

  /** What becomes of a ride row over time, whoever writes it and in whatever order:
      the request is fixed, the driver is written at most once and only
      on the way out of REQUESTED, and neither REQUESTED nor ACCEPTED is ever re-entered. */
  predicate RowLater(a: Ride, b: Ride) {
    && b.passenger == a.passenger && b.vehicleType == a.vehicleType && b.pickup == a.pickup
    && b.otp == a.otp && b.estimatedFare == a.estimatedFare && b.requestedAt == a.requestedAt
    && (a.driver.Some? ==> b.driver == a.driver && b.vehicle == a.vehicle && b.acceptedAt == a.acceptedAt)
    && (a.status != REQUESTED ==>
          b.status != REQUESTED && b.driver == a.driver && b.vehicle == a.vehicle && b.acceptedAt == a.acceptedAt)
    && (a.status != REQUESTED && a.status != ACCEPTED ==> b.status != ACCEPTED)
  }
}
