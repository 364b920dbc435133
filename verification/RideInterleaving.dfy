/** Granularity A: any number of accept, arrive, start, complete, cancel and sweep
    calls, interleaved statement by statement.  Each call keeps the rows it has read
    and may act on them long after they have changed.

    A run is a sequence of actions; `Do` is total, an action that is not enabled
    changes nothing, so every theorem about `Run` speaks of every schedule. */
module RideInterleaving {
  import opened Options
  import opened Rides

  datatype Move = ArriveMove | StartMove | CompleteMove

  datatype AcceptPc =
    | ReadDriver | ReadActive | ReadRide | ReadVehicle(row: Ride) | TryAssignStep(vehicle: nat) | MarkBusy
    | AcceptDone

  datatype MovePc = MoveRead | MoveWrite(row: Ride) | MoveDone

  datatype CancelPc = CancelRead | CancelWrite(row: Ride, actor: Canceller) | CancelDone

  /** The three queries run under Promise.all, so in any order; the three loops come after. */
  datatype SweepPc =
    | Querying(requested: Option<seq<Stale>>, accepted: Option<seq<Stale>>, arrived: Option<seq<Stale>>)
    | Working(todo: seq<Stale>)

  datatype Call =
    | AcceptCall(driver: nat, ride: nat, apc: AcceptPc)
    | MoveCall(driver: nat, ride: nat, move: Move, mpc: MovePc)
    | CancelCall(user: nat, ride: nat, cpc: CancelPc)
    | SweepCall(now: int, spc: SweepPc)

  /** History: an assignment that wrote its row, and a sweep cancellation that wrote its row,
      with the row as it stood at that instant. */
  datatype Event =
    | Won(ride: nat, driver: nat, vehicle: nat, at: int)
    | Swept(ride: nat, expected: Status, at: int, row: Ride)

  datatype System = System(w: World, calls: map<nat, Call>, clock: int, log: seq<Event>)

  datatype Action =
    | Tick(ms: nat)
    | Insert(passenger: nat, vehicleType: nat, pickup: Place, otp: nat, fare: nat)
    | WriteDriver(driver: nat, row: Driver)     // any other write to a driver profile
    | LaunchAccept(id: nat, driver: nat, ride: nat)
    | LaunchMove(id: nat, driver: nat, ride: nat, move: Move)
    | LaunchCancel(id: nat, user: nat, ride: nat)
    | LaunchSweep(id: nat)
    | Advance(id: nat, hint: nat, otpOk: bool)  // hint: which query a sweep runs next

  // ------------------------------------------------------------------ steps

  function StepAccept(s: System, id: nat, c: Call): System
    requires c.AcceptCall?
  {
    var rides := s.w.rides;
    var done := s.(calls := s.calls[id := c.(apc := AcceptDone)]);
    match c.apc
    case ReadDriver =>
      if c.driver in s.w.drivers && s.w.drivers[c.driver].approved && s.w.drivers[c.driver].online
         && s.w.drivers[c.driver].available
      then s.(calls := s.calls[id := c.(apc := ReadActive)])
      else done
    case ReadActive =>
      if HasActiveRide(rides, c.driver) then done else s.(calls := s.calls[id := c.(apc := ReadRide)])
    case ReadRide =>
      if c.ride < |rides| && rides[c.ride].status == REQUESTED
      then s.(calls := s.calls[id := c.(apc := ReadVehicle(rides[c.ride]))])
      else done
    case ReadVehicle(row) =>
      if c.driver in s.w.drivers && row.vehicleType in s.w.drivers[c.driver].vehicles
      then s.(calls := s.calls[id := c.(apc := TryAssignStep(s.w.drivers[c.driver].vehicles[row.vehicleType]))])
      else done
    case TryAssignStep(vehicle) =>
      if CanAssign(rides, c.ride)
      then System(Exec(s.w, TryAssign(c.ride, c.driver, vehicle, s.clock)),
                  s.calls[id := c.(apc := MarkBusy)], s.clock,
                  s.log + [Won(c.ride, c.driver, vehicle, s.clock)])
      else done
    case MarkBusy => done.(w := Exec(s.w, SetAvailable(c.driver, false)))
    case AcceptDone => s
  }

  function ExpectedStatus(m: Move): Status {
    match m case ArriveMove => ACCEPTED case StartMove => ARRIVED case CompleteMove => IN_PROGRESS
  }

  function MovePatch(m: Move, row: Ride, at: int): Patch {
    match m
    case ArriveMove => Arrive(at)
    case StartMove => Start(at)
    case CompleteMove => Complete(at, row.estimatedFare)
  }

  function MoveTx(c: Call, row: Ride, at: int): Tx
    requires c.MoveCall?
  {
    [UpdateStatus(c.ride, MovePatch(c.move, row, at))]
    + (if c.move == CompleteMove
       then [SetAvailable(c.driver, true), AddEarnings(c.driver, row.estimatedFare), CountTrip(row.passenger)]
       else [])
  }

  /** getAssignedRideInStatus is the only guard; the write that follows is unconditional. */
  function StepMove(s: System, id: nat, c: Call, otpOk: bool): System
    requires c.MoveCall?
  {
    var rides := s.w.rides;
    var done := s.(calls := s.calls[id := c.(mpc := MoveDone)]);
    match c.mpc
    case MoveRead =>
      if c.ride < |rides| && rides[c.ride].driver == Some(c.driver)
         && rides[c.ride].status == ExpectedStatus(c.move)
         && (c.move == StartMove ==> otpOk)
      then s.(calls := s.calls[id := c.(mpc := MoveWrite(rides[c.ride]))])
      else done
    case MoveWrite(row) => done.(w := ExecTx(s.w, MoveTx(c, row, s.clock)))
    case MoveDone => s
  }

  function StepCancel(s: System, id: nat, c: Call): System
    requires c.CancelCall?
  {
    var rides := s.w.rides;
    var done := s.(calls := s.calls[id := c.(cpc := CancelDone)]);
    match c.cpc
    case CancelRead =>
      if c.ride < |rides| && Cancellable(rides[c.ride].status)
         && (rides[c.ride].passenger == c.user || rides[c.ride].driver == Some(c.user))
      then s.(calls := s.calls[id := c.(cpc :=
        CancelWrite(rides[c.ride], if rides[c.ride].passenger == c.user then PASSENGER else DRIVER))])
      else done
    case CancelWrite(row, actor) => done.(w := ExecTx(s.w, CancelTx(c.ride, row, actor, s.clock)))
    case CancelDone => s
  }

  function StepSweep(s: System, id: nat, c: Call, hint: nat): System
    requires c.SweepCall?
  {
    var rides := s.w.rides;
    match c.spc
    case Querying(r, a, x) =>
      if r.Some? && a.Some? && x.Some?
      then s.(calls := s.calls[id := c.(spc := Working(r.value + a.value + x.value))])
      else if hint == 0 && r == None
      then s.(calls := s.calls[id := c.(spc := Querying(Some(FindStale(rides, REQUESTED, c.now)), a, x))])
      else if hint == 1 && a == None
      then s.(calls := s.calls[id := c.(spc := Querying(r, Some(FindStale(rides, ACCEPTED, c.now)), x))])
      else if hint == 2 && x == None
      then s.(calls := s.calls[id := c.(spc := Querying(r, a, Some(FindStale(rides, ARRIVED, c.now))))])
      else s
    case Working(todo) =>
      if todo == [] then s
      else
        var x := todo[0];
        System(ExecTx(s.w, SweepTx(x, s.clock)), s.calls[id := c.(spc := Working(todo[1..]))], s.clock,
               if CurrentlyIn(rides, x.ride, x.row.status)
               then s.log + [Swept(x.ride, x.row.status, s.clock, rides[x.ride])]
               else s.log)
  }

  function Do(s: System, a: Action): System {
    match a
    case Tick(ms) => s.(clock := s.clock + ms)
    case Insert(p, t, place, otp, fare) =>
      s.(w := Exec(s.w, CreateRide(NewRide(p, t, place, otp, fare, s.clock))))
    case WriteDriver(d, row) => s.(w := s.w.(drivers := s.w.drivers[d := row]))
    case LaunchAccept(id, d, r) =>
      if id in s.calls then s else s.(calls := s.calls[id := AcceptCall(d, r, ReadDriver)])
    case LaunchMove(id, d, r, m) =>
      if id in s.calls then s else s.(calls := s.calls[id := MoveCall(d, r, m, MoveRead)])
    case LaunchCancel(id, u, r) =>
      if id in s.calls then s else s.(calls := s.calls[id := CancelCall(u, r, CancelRead)])
    case LaunchSweep(id) =>
      if id in s.calls then s
      else s.(calls := s.calls[id := SweepCall(s.clock, Querying(None, None, None))])
    case Advance(id, hint, otpOk) =>
      if id !in s.calls then s
      else match s.calls[id]
        case AcceptCall(_, _, _) => StepAccept(s, id, s.calls[id])
        case MoveCall(_, _, _, _) => StepMove(s, id, s.calls[id], otpOk)
        case CancelCall(_, _, _) => StepCancel(s, id, s.calls[id])
        case SweepCall(_, _) => StepSweep(s, id, s.calls[id], hint)
  }

  function Run(s: System, actions: seq<Action>): System {
    if actions == [] then s else Do(Run(s, actions[..|actions| - 1]), actions[|actions| - 1])
  }

  /** No rides yet, no calls in flight; any drivers. */
  predicate Initially(s: System) {
    s.w.rides == [] && s.calls == map[] && s.log == []
  }

  // ------------------------------------------------------------- invariants

  /** A snapshot can be out of date, but only in the directions RowLater allows. */
  predicate Snapshot(s: System, ride: nat, row: Ride) {
    ride < |s.w.rides| && RowLater(row, s.w.rides[ride])
  }

  predicate StaleAgainst(s: System, x: Stale, now: int) {
    Snapshot(s, x.ride, x.row) && IsStale(x.row, x.row.status, now)
  }

  predicate CallOk(s: System, c: Call) {
    match c
    case AcceptCall(_, _, _) => true
    case MoveCall(_, r, _, MoveWrite(row)) => Snapshot(s, r, row) && row.driver.Some? && row.status != REQUESTED
    case MoveCall(_, _, _, _) => true
    case CancelCall(_, r, CancelWrite(row, _)) => Snapshot(s, r, row)
    case CancelCall(_, _, _) => true
    case SweepCall(now, Querying(r, a, x)) =>
      && now <= s.clock
      && (r.Some? ==> forall y :: y in r.value ==> StaleAgainst(s, y, now))
      && (a.Some? ==> forall y :: y in a.value ==> StaleAgainst(s, y, now))
      && (x.Some? ==> forall y :: y in x.value ==> StaleAgainst(s, y, now))
    case SweepCall(now, Working(todo)) =>
      now <= s.clock && forall y :: y in todo ==> StaleAgainst(s, y, now)
  }

  predicate RowOk(row: Ride) {
    && (row.driver.Some? <==> row.acceptedAt.Some?)
    && (row.driver.Some? <==> row.vehicle.Some?)
    && (row.status == REQUESTED ==> row.driver == None)
    && (NeedsDriver(row.status) ==> row.driver.Some?)
    && (row.status == ARRIVED ==> row.arrivedAt.Some?)
  }

  /** The log and the table agree: a ride has a driver exactly when one Won event says so. */
  predicate EventOk(s: System, e: Event) {
    match e
    case Won(r, d, v, at) =>
      && at <= s.clock && r < |s.w.rides|
      && s.w.rides[r].driver == Some(d) && s.w.rides[r].vehicle == Some(v) && s.w.rides[r].acceptedAt == Some(at)
    case Swept(r, expected, at, row) =>
      && at <= s.clock && Snapshot(s, r, row) && row.status == expected && RowOk(row)
      && s.w.rides[r].status != REQUESTED
      && (expected == REQUESTED ==>
            row.requestedAt < at - REQUESTED_TIMEOUT && s.w.rides[r].driver == None)
      && (expected == ACCEPTED ==> row.acceptedAt.value < at - ACCEPTED_TIMEOUT)
  }

  predicate WonOnce(s: System) {
    forall i, j :: 0 <= i < j < |s.log| && s.log[i].Won? && s.log[j].Won? ==> s.log[i].ride != s.log[j].ride
  }

  predicate HasWinner(row: Ride) { row.driver.Some? && row.vehicle.Some? && row.acceptedAt.Some? }

  function WonBy(ride: nat, row: Ride): Event
    requires HasWinner(row)
  {
    Won(ride, row.driver.value, row.vehicle.value, row.acceptedAt.value)
  }

  predicate DriverIsLogged(s: System) {
    forall r :: 0 <= r < |s.w.rides| && HasWinner(s.w.rides[r]) ==> WonBy(r, s.w.rides[r]) in s.log
  }

  ghost predicate Inv(s: System) {
    && (forall r :: 0 <= r < |s.w.rides| ==> RowOk(s.w.rides[r]))
    && (forall id :: id in s.calls ==> CallOk(s, s.calls[id]))
    && (forall e :: e in s.log ==> EventOk(s, e))
    && WonOnce(s)
    && DriverIsLogged(s)
  }

  /** What a step, and so a run, keeps of the past. */
  predicate Later(s: System, t: System) {
    && s.clock <= t.clock
    && s.log <= t.log
    && |s.w.rides| <= |t.w.rides|
    && forall r :: 0 <= r < |s.w.rides| ==> RowLater(s.w.rides[r], t.w.rides[r])
  }

  lemma LaterTransitive(s: System, t: System, u: System)
    requires Later(s, t) && Later(t, u)
    ensures Later(s, u)
  {
  }

  lemma StaleKept(s: System, t: System, xs: seq<Stale>, now: int)
    requires Later(s, t) && forall y :: y in xs ==> StaleAgainst(s, y, now)
    ensures forall y :: y in xs ==> StaleAgainst(t, y, now)
  {
  }

  lemma CallKept(s: System, t: System, c: Call)
    requires Later(s, t) && CallOk(s, c)
    ensures CallOk(t, c)
  {
  }

  lemma EventKept(s: System, t: System, e: Event)
    requires Later(s, t) && EventOk(s, e)
    ensures EventOk(t, e)
  {
  }

  /** One step touches at most one ride row, one call and one log entry; this collects
      what has to be shown about them. */
  lemma KeepsInv(s: System, t: System, id: nat, logged: seq<Event>)
    requires Inv(s) && Later(s, t)
    requires forall r :: 0 <= r < |t.w.rides| ==> RowOk(t.w.rides[r])
    requires forall k :: k in t.calls && k != id ==> k in s.calls && t.calls[k] == s.calls[k]
    requires id in t.calls ==> CallOk(t, t.calls[id])
    requires t.log == s.log + logged && |logged| <= 1
    requires logged != [] ==> EventOk(t, logged[0])
    requires logged != [] && logged[0].Won? ==> CanAssign(s.w.rides, logged[0].ride)
    requires DriverIsLogged(t)
    ensures Inv(t)
  {
    forall k | k in t.calls ensures CallOk(t, t.calls[k]) {
      if k != id { CallKept(s, t, s.calls[k]); }
    }
    forall e | e in t.log ensures EventOk(t, e) {
      if e in s.log { EventKept(s, t, e); }
    }
    forall i, j | 0 <= i < j < |t.log| && t.log[i].Won? && t.log[j].Won?
      ensures t.log[i].ride != t.log[j].ride
    {
      if j == |s.log| { assert EventOk(s, s.log[i]); }
    }
  }

  // ---------------------------------------------------- effects on the rows

  lemma MoveTxRides(w: World, c: Call, row: Ride, at: int)
    requires c.MoveCall? && c.ride < |w.rides|
    ensures ExecTx(w, MoveTx(c, row, at)).rides
            == w.rides[c.ride := Patched(w.rides[c.ride], MovePatch(c.move, row, at))]
  {
    ExecTxRides(w, MoveTx(c, row, at)[0], MoveTx(c, row, at)[1..]);
    assert MoveTx(c, row, at) == [MoveTx(c, row, at)[0]] + MoveTx(c, row, at)[1..];
  }

  lemma CancelTxRides(w: World, ride: nat, row: Ride, actor: Canceller, at: int)
    requires ride < |w.rides|
    ensures ExecTx(w, CancelTx(ride, row, actor, at)).rides
            == w.rides[ride := Patched(w.rides[ride], Cancel(at, actor))]
  {
    ExecTxRides(w, UpdateStatus(ride, Cancel(at, actor)),
                if row.driver.Some? then [SetAvailable(row.driver.value, true)] else []);
  }

  lemma SweepTxRides(w: World, x: Stale, at: int)
    ensures ExecTx(w, SweepTx(x, at)).rides
            == if CurrentlyIn(w.rides, x.ride, x.row.status)
               then w.rides[x.ride := Patched(w.rides[x.ride], Cancel(at, SYSTEM))]
               else w.rides
  {
    ExecTxRides(w, TryUpdateStatus(x.ride, x.row.status, Cancel(at, SYSTEM)),
                if x.row.status != REQUESTED && x.row.driver.Some?
                then [SetAvailable(x.row.driver.value, true)] else []);
  }

  /** A step that rewrites one row with a status patch keeps every assignment logged. */
  lemma PatchKeepsLog(s: System, t: System, ride: nat, p: Patch)
    requires Inv(s) && ride < |s.w.rides|
    requires t.w.rides == s.w.rides[ride := Patched(s.w.rides[ride], p)] && s.log <= t.log
    ensures DriverIsLogged(t)
  {
  }

  // ---------------------------------------------------- each step keeps Inv

  /** A step that moves only its own call, and no ride row. */
  lemma CallStepKeeps(s: System, t: System, id: nat)
    requires Inv(s) && id in t.calls && CallOk(t, t.calls[id])
    requires t.w.rides == s.w.rides && t.calls == s.calls[id := t.calls[id]]
    requires t.log == s.log && t.clock == s.clock
    ensures Inv(t) && Later(s, t)
  {
    assert t.log == s.log + [];
    KeepsInv(s, t, id, []);
  }

  /** The conditional assignment hits: one row gets its driver, one Won event. */
  lemma AssignHitKeeps(s: System, t: System, id: nat, ride: nat, d: nat, vehicle: nat)
    requires Inv(s) && CanAssign(s.w.rides, ride) && id in t.calls && CallOk(t, t.calls[id])
    requires t.w.rides == s.w.rides[ride := Assigned(s.w.rides[ride], d, vehicle, s.clock)]
    requires t.calls == s.calls[id := t.calls[id]]
    requires t.log == s.log + [Won(ride, d, vehicle, s.clock)] && t.clock == s.clock
    ensures Inv(t) && Later(s, t)
  {
    forall r | 0 <= r < |t.w.rides| && HasWinner(t.w.rides[r]) ensures WonBy(r, t.w.rides[r]) in t.log
    {
      if r == ride {
        assert t.log[|s.log|] == Won(ride, d, vehicle, s.clock);
      } else {
        assert WonBy(r, s.w.rides[r]) in s.log;
      }
    }
    assert RowOk(s.w.rides[ride]);
    KeepsInv(s, t, id, [Won(ride, d, vehicle, s.clock)]);
  }

  lemma StepAcceptKeeps(s: System, id: nat)
    requires Inv(s) && id in s.calls && s.calls[id].AcceptCall?
    ensures Inv(StepAccept(s, id, s.calls[id])) && Later(s, StepAccept(s, id, s.calls[id]))
  {
    var c := s.calls[id];
    var t := StepAccept(s, id, c);
    if c.apc.TryAssignStep? && CanAssign(s.w.rides, c.ride) {
      AssignHitKeeps(s, t, id, c.ride, c.driver, c.apc.vehicle);
    } else if !c.apc.AcceptDone? {
      CallStepKeeps(s, t, id);
    }
  }

  /** A status patch that leaves a well-formed row keeps everything but the writer's own call. */
  lemma PatchKeeps(s: System, t: System, id: nat, ride: nat, p: Patch)
    requires Inv(s) && ride < |s.w.rides| && id in t.calls && CallOk(t, t.calls[id])
    requires t.w.rides == s.w.rides[ride := Patched(s.w.rides[ride], p)]
    requires RowOk(Patched(s.w.rides[ride], p)) && RowLater(s.w.rides[ride], Patched(s.w.rides[ride], p))
    requires t.calls == s.calls[id := t.calls[id]] && t.log == s.log && t.clock == s.clock
    ensures Inv(t) && Later(s, t)
  {
    assert t.log == s.log + [];
    PatchKeepsLog(s, t, ride, p);
    KeepsInv(s, t, id, []);
  }

  lemma StepMoveKeeps(s: System, id: nat, otpOk: bool)
    requires Inv(s) && id in s.calls && s.calls[id].MoveCall?
    ensures Inv(StepMove(s, id, s.calls[id], otpOk)) && Later(s, StepMove(s, id, s.calls[id], otpOk))
  {
    var c := s.calls[id];
    var t := StepMove(s, id, c, otpOk);
    if c.mpc.MoveWrite? {
      assert CallOk(s, c);
      MoveTxRides(s.w, c, c.mpc.row, s.clock);
      assert RowOk(s.w.rides[c.ride]);
      PatchKeeps(s, t, id, c.ride, MovePatch(c.move, c.mpc.row, s.clock));
    } else if !c.mpc.MoveDone? {
      CallStepKeeps(s, t, id);
    }
  }

  lemma StepCancelKeeps(s: System, id: nat)
    requires Inv(s) && id in s.calls && s.calls[id].CancelCall?
    ensures Inv(StepCancel(s, id, s.calls[id])) && Later(s, StepCancel(s, id, s.calls[id]))
  {
    var c := s.calls[id];
    var t := StepCancel(s, id, c);
    if c.cpc.CancelWrite? {
      assert CallOk(s, c);
      CancelTxRides(s.w, c.ride, c.cpc.row, c.cpc.actor, s.clock);
      assert RowOk(s.w.rides[c.ride]);
      PatchKeeps(s, t, id, c.ride, Cancel(s.clock, c.cpc.actor));
    } else if !c.cpc.CancelDone? {
      CallStepKeeps(s, t, id);
    }
  }

  lemma SweepQueryKeeps(s: System, id: nat, hint: nat)
    requires Inv(s) && id in s.calls && s.calls[id].SweepCall? && s.calls[id].spc.Querying?
    ensures Inv(StepSweep(s, id, s.calls[id], hint)) && Later(s, StepSweep(s, id, s.calls[id], hint))
  {
    var t := StepSweep(s, id, s.calls[id], hint);
    assert CallOk(s, s.calls[id]);
    if t != s { CallStepKeeps(s, t, id); }
  }

  /** The conditional cancel hits: one row patched, one Swept event. */
  lemma SweepHitKeeps(s: System, t: System, id: nat, x: Stale, now: int)
    requires Inv(s) && CurrentlyIn(s.w.rides, x.ride, x.row.status) && StaleAgainst(s, x, now) && now <= s.clock
    requires t.w.rides == s.w.rides[x.ride := Patched(s.w.rides[x.ride], Cancel(s.clock, SYSTEM))]
    requires id in t.calls && CallOk(t, t.calls[id]) && t.calls == s.calls[id := t.calls[id]]
    requires t.log == s.log + [Swept(x.ride, x.row.status, s.clock, s.w.rides[x.ride])] && t.clock == s.clock
    ensures Inv(t) && Later(s, t)
  {
    assert RowOk(s.w.rides[x.ride]);
    PatchKeepsLog(s, t, x.ride, Cancel(s.clock, SYSTEM));
    KeepsInv(s, t, id, [Swept(x.ride, x.row.status, s.clock, s.w.rides[x.ride])]);
  }

  lemma SweepWriteKeeps(s: System, id: nat, hint: nat)
    requires Inv(s) && id in s.calls && s.calls[id].SweepCall? && s.calls[id].spc.Working?
    ensures Inv(StepSweep(s, id, s.calls[id], hint)) && Later(s, StepSweep(s, id, s.calls[id], hint))
  {
    var c := s.calls[id];
    var t := StepSweep(s, id, c, hint);
    assert CallOk(s, c);
    if c.spc.todo != [] {
      var x := c.spc.todo[0];
      assert StaleAgainst(s, x, c.now);
      SweepTxRides(s.w, x, s.clock);
      StaleKept(s, t, c.spc.todo, c.now);
      if CurrentlyIn(s.w.rides, x.ride, x.row.status) {
        SweepHitKeeps(s, t, id, x, c.now);
      } else {
        CallStepKeeps(s, t, id);
      }
    }
  }

  lemma LaunchKeeps(s: System, id: nat, c: Call)
    requires Inv(s) && id !in s.calls && CallOk(s, c)
    ensures Inv(s.(calls := s.calls[id := c])) && Later(s, s.(calls := s.calls[id := c]))
  {
    var t := s.(calls := s.calls[id := c]);
    assert t.log == s.log + [];
    KeepsInv(s, t, id, []);
  }

  lemma InsertKeeps(s: System, row: Ride)
    requires Inv(s) && RowOk(row) && row.driver == None
    ensures Inv(s.(w := Exec(s.w, CreateRide(row)))) && Later(s, s.(w := Exec(s.w, CreateRide(row))))
  {
    var t := s.(w := Exec(s.w, CreateRide(row)));
    assert t.log == s.log + [];
    forall r | 0 <= r < |t.w.rides| && HasWinner(t.w.rides[r]) ensures WonBy(r, t.w.rides[r]) in t.log
    {
      assert t.w.rides[r] == s.w.rides[r];
    }
    forall k | k in t.calls ensures CallOk(t, t.calls[k]) { CallKept(s, t, s.calls[k]); }
    KeepsInv(s, t, 0, []);
  }

  lemma DoKeeps(s: System, a: Action)
    requires Inv(s)
    ensures Inv(Do(s, a)) && Later(s, Do(s, a))
  {
    match a
    case Advance(id, hint, otpOk) =>
      if id in s.calls {
        match s.calls[id]
        case AcceptCall(_, _, _) => StepAcceptKeeps(s, id);
        case MoveCall(_, _, _, _) => StepMoveKeeps(s, id, otpOk);
        case CancelCall(_, _, _) => StepCancelKeeps(s, id);
        case SweepCall(_, Querying(_, _, _)) => SweepQueryKeeps(s, id, hint);
        case SweepCall(_, Working(_)) => SweepWriteKeeps(s, id, hint);
      }
    case Insert(p, ty, place, otp, fare) => InsertKeeps(s, NewRide(p, ty, place, otp, fare, s.clock));
    case LaunchAccept(id, d, r) => if id !in s.calls { LaunchKeeps(s, id, AcceptCall(d, r, ReadDriver)); }
    case LaunchMove(id, d, r, m) => if id !in s.calls { LaunchKeeps(s, id, MoveCall(d, r, m, MoveRead)); }
    case LaunchCancel(id, u, r) => if id !in s.calls { LaunchKeeps(s, id, CancelCall(u, r, CancelRead)); }
    case LaunchSweep(id) =>
      if id !in s.calls { LaunchKeeps(s, id, SweepCall(s.clock, Querying(None, None, None))); }
    case WriteDriver(d, row) => QuietKeeps(s, Do(s, a));
    case Tick(ms) => QuietKeeps(s, Do(s, a));
  }

  lemma QuietKeeps(s: System, t: System)
    requires Inv(s) && t.w.rides == s.w.rides && t.calls == s.calls && t.log == s.log && s.clock <= t.clock
    ensures Inv(t) && Later(s, t)
  {
  }

  // ------------------------------------------------------------ whole runs

  lemma {:induction false} RunKeeps(s: System, actions: seq<Action>)
    requires Inv(s)
    ensures Inv(Run(s, actions)) && Later(s, Run(s, actions))
  {
    if actions != [] {
      var front := actions[..|actions| - 1];
      RunKeeps(s, front);
      DoKeeps(Run(s, front), actions[|actions| - 1]);
      LaterTransitive(s, Run(s, front), Run(s, actions));
    }
  }

  lemma {:induction false} RunAppend(s: System, a: seq<Action>, b: seq<Action>)
    ensures Run(s, a + b) == Run(Run(s, a), b)
  {
    if b == [] {
      assert a + b == a;
    } else {
      assert (a + b)[..|a + b| - 1] == a + b[..|b| - 1];
      RunAppend(s, a, b[..|b| - 1]);
    }
  }

  /** However calls interleave, each ride is won at most once; it has a driver exactly
      when it was won, and then the row still shows that winner, that vehicle and that instant. */
  lemma {:induction false} AtMostOneWinner(s: System, actions: seq<Action>, ride: nat)
    requires Initially(s)
    ensures var t := Run(s, actions);
      && (forall i, j :: 0 <= i < j < |t.log| && t.log[i].Won? && t.log[j].Won? ==>
            t.log[i].ride != t.log[j].ride)
      && (forall d: nat, v: nat, at :: Won(ride, d, v, at) in t.log <==>
            ride < |t.w.rides| && t.w.rides[ride].driver == Some(d) && t.w.rides[ride].vehicle == Some(v)
            && t.w.rides[ride].acceptedAt == Some(at))
  {
    RunKeeps(s, actions);
    var t := Run(s, actions);
    forall d: nat, v: nat, at | Won(ride, d, v, at) in t.log
      ensures ride < |t.w.rides| && t.w.rides[ride].driver == Some(d) && t.w.rides[ride].vehicle == Some(v)
              && t.w.rides[ride].acceptedAt == Some(at)
    {
      assert EventOk(t, Won(ride, d, v, at));
    }
    if ride < |t.w.rides| && HasWinner(t.w.rides[ride]) { assert WonBy(ride, t.w.rides[ride]) in t.log; }
  }

  /** Between any two moments of a run: the driver, vehicle and acceptance time are written
      at most once, REQUESTED is never re-entered, and no ride is lost. */
  lemma {:induction false} AssignmentIsFinal(s: System, before: seq<Action>, after: seq<Action>, ride: nat)
    requires Initially(s) && ride < |Run(s, before).w.rides|
    ensures ride < |Run(s, before + after).w.rides|
    ensures var a, b := Run(s, before).w.rides[ride], Run(s, before + after).w.rides[ride];
      && (a.driver.Some? ==> b.driver == a.driver && b.vehicle == a.vehicle && b.acceptedAt == a.acceptedAt)
      && (a.status != REQUESTED ==> b.status != REQUESTED && b.driver == a.driver)
      && (a.status != REQUESTED && a.status != ACCEPTED ==> b.status != ACCEPTED)
      && b.requestedAt == a.requestedAt && b.passenger == a.passenger
  {
    RunKeeps(s, before);
    RunKeeps(Run(s, before), after);
    RunAppend(s, before, after);
    assert RowLater(Run(s, before).w.rides[ride], Run(s, before + after).w.rides[ride]);
  }

  /** Despite the unconditional status writes, no ride is ever past REQUESTED and short of
      CANCELLED without a driver. */
  lemma {:induction false} AssignedRidesHaveDrivers(s: System, actions: seq<Action>, ride: nat)
    requires Initially(s) && ride < |Run(s, actions).w.rides|
    ensures var row := Run(s, actions).w.rides[ride];
      && (row.status in {ACCEPTED, ARRIVED, IN_PROGRESS, COMPLETED} ==> row.driver.Some? && row.vehicle.Some?)
      && (row.status == REQUESTED ==> row.driver == None && row.vehicle == None)
  {
    RunKeeps(s, actions);
    assert RowOk(Run(s, actions).w.rides[ride]);
  }

  /** Every SYSTEM cancellation of a REQUESTED or ACCEPTED ride hit a row that was still in
      that status when written and had been there for more than 5 or 15 minutes: an ACCEPTED
      row entered ACCEPTED once, at the instant its one Won event records. */
  lemma {:induction false} SweepIsSound(s: System, actions: seq<Action>, ride: nat,
      expected: Status, at: int, row: Ride)
    requires Initially(s) && Swept(ride, expected, at, row) in Run(s, actions).log
    ensures row.status == expected
    ensures expected == REQUESTED ==> at - row.requestedAt > 300_000
    ensures expected == ACCEPTED ==>
      HasWinner(row) && at - row.acceptedAt.value > 900_000 && WonBy(ride, row) in Run(s, actions).log
  {
    RunKeeps(s, actions);
    var t := Run(s, actions);
    assert EventOk(t, Swept(ride, expected, at, row));
    if expected == ACCEPTED {
      assert RowLater(row, t.w.rides[ride]);
      assert WonBy(ride, t.w.rides[ride]) in t.log;
    }
  }

  /** An accept and the REQUESTED sweep never both succeed on one ride. */
  lemma {:induction false} AcceptExcludesSweep(s: System, actions: seq<Action>, ride: nat, d: nat, v: nat,
                                               won: int, at: int, row: Ride)
    requires Initially(s) && Won(ride, d, v, won) in Run(s, actions).log
    ensures Swept(ride, REQUESTED, at, row) !in Run(s, actions).log
  {
    RunKeeps(s, actions);
    var t := Run(s, actions);
    assert EventOk(t, Won(ride, d, v, won));
    assert Swept(ride, REQUESTED, at, row) in t.log ==> EventOk(t, Swept(ride, REQUESTED, at, row));
  }
}
