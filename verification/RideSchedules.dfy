/** The interleaved machine and the serial plans are the same services: a call that is launched
    and stepped to its end with nobody else moving leaves the ride and driver tables exactly as
    its plan does. */
module RideSchedules {
  import opened Options
  import opened Rides
  import P = RidePlans
  import R = RideRecovery
  import E = RideEffects
  import opened RideInterleaving

  /** n steps of call `id` alone; the hints run a sweep's queries in order. */
  function Push(s: System, id: nat, n: nat, otpOk: bool): System {
    if n == 0 then s else Do(Push(s, id, n - 1, otpOk), Advance(id, n - 1, otpOk))
  }

  /** The tables that the interleaved machine keeps. */
  predicate SameTables(s: System, w: World) {
    s.w.rides == w.rides && s.w.drivers == w.drivers
  }

  predicate Finished(c: Call) {
    match c
    case AcceptCall(_, _, pc) => pc == AcceptDone
    case MoveCall(_, _, _, pc) => pc == MoveDone
    case CancelCall(_, _, pc) => pc == CancelDone
    case SweepCall(_, pc) => pc == Working([])
  }

  predicate AtRest(s: System, id: nat) { id in s.calls && Finished(s.calls[id]) }

  lemma FinishedRests(s: System, id: nat, hint: nat, otpOk: bool)
    requires AtRest(s, id)
    ensures Do(s, Advance(id, hint, otpOk)) == s
  {
  }

  predicate RestsAt(s: System, id: nat, n: nat, otpOk: bool, t: System) {
    Push(s, id, n, otpOk) == t && AtRest(t, id)
  }

  lemma PushRests(s: System, id: nat, n: nat, otpOk: bool, t: System)
    requires RestsAt(s, id, n, otpOk, t)
    ensures RestsAt(s, id, n + 1, otpOk, t)
  {
    FinishedRests(t, id, n, otpOk);
  }

  lemma {:induction false} FinishedStays(s: System, id: nat, n: nat, m: nat, otpOk: bool, t: System)
    requires n <= m && RestsAt(s, id, n, otpOk, t)
    ensures RestsAt(s, id, m, otpOk, t)
    decreases m - n
  {
    if n < m {
      PushRests(s, id, n, otpOk, t);
      FinishedStays(s, id, n + 1, m, otpOk, t);
    }
  }

  // ---------------------------------------------- plans, table by table

  predicate FreeTxs(txs: seq<Tx>) {
    forall x: Tx :: x in txs ==> |x| == 1 && R.FreeStmt(x[0])
  }

  lemma TxThenFree(w: World, tx: Tx, rest: seq<Tx>)
    requires FreeTxs(rest)
    ensures var t := ExecAll(w, [tx] + rest);
      t.rides == ExecTx(w, tx).rides && t.drivers == ExecTx(w, tx).drivers && t.trips == ExecTx(w, tx).trips
  {
    ExecAllHead(w, tx, rest);
    R.FreeLegal(ExecTx(w, tx), rest);
  }

  lemma FreeThenWrite(w: World, before: seq<Tx>, s: Stmt, rest: seq<Tx>)
    requires FreeTxs(before) && FreeTxs(rest)
    ensures var t := ExecAll(w, before + ([[s]] + rest));
      && t.rides == RideTable(w.rides, s) && t.drivers == DriverTable(w.drivers, s)
      && t.trips == TripTable(w.trips, s)
  {
    R.FreeLegal(w, before);
    var u := ExecAll(w, before);
    ExecAllAppend(w, before, [[s]] + rest);
    TxThenFree(u, [s], rest);
    ExecTxOne(u, s);
  }

  // ------------------------------------------------------------------ accept

  lemma AcceptPlanEffect(w: World, d: nat, r: nat, now: int)
    ensures var t := ExecAll(w, P.AcceptPlan(w, d, r, now));
      if P.MayAccept(w, d, r) && CanAssign(w.rides, r)
      then
        && t.rides == w.rides[r := Assigned(w.rides[r], d, w.drivers[d].vehicles[w.rides[r].vehicleType], now)]
        && t.drivers == w.drivers[d := w.drivers[d].(available := false)]
      else t.rides == w.rides && t.drivers == w.drivers
  {
    if P.MayAccept(w, d, r) {
      var assign := TryAssign(r, d, w.drivers[d].vehicles[w.rides[r].vehicleType], now);
      if CanAssign(w.rides, r) {
        E.AcceptSteps(w, d, r, w.drivers[d].vehicles[w.rides[r].vehicleType], now);
      } else {
        E.OneStep(w, assign);
      }
    }
  }

  /** Where an accept stands after its reads, with the tables still untouched. */
  predicate AcceptAt(s: System, t: System, id: nat, d: nat, r: nat, pc: AcceptPc) {
    t.w == s.w && t.clock == s.clock && id in t.calls && t.calls[id] == AcceptCall(d, r, pc)
  }

  predicate Discovers(w: World, d: nat) {
    d in w.drivers && w.drivers[d].approved && w.drivers[d].online && w.drivers[d].available
  }

  lemma AcceptReads(s: System, id: nat, d: nat, r: nat)
    requires id !in s.calls
    ensures var s0 := Do(s, LaunchAccept(id, d, r));
      && AcceptAt(s, Push(s0, id, 1, false), id, d, r, if Discovers(s.w, d) then ReadActive else AcceptDone)
      && (Discovers(s.w, d) ==>
            AcceptAt(s, Push(s0, id, 2, false), id, d, r, if HasActiveRide(s.w.rides, d) then AcceptDone else ReadRide))
  {
  }

  lemma AcceptChecks(s: System, s0: System, id: nat, d: nat, r: nat)
    requires AcceptAt(s, Push(s0, id, 2, false), id, d, r, ReadRide) && Discovers(s.w, d)
    requires !HasActiveRide(s.w.rides, d)
    ensures if P.MayAccept(s.w, d, r)
            then AcceptAt(s, Push(s0, id, 4, false), id, d, r,
                          TryAssignStep(s.w.drivers[d].vehicles[s.w.rides[r].vehicleType]))
            else AcceptAt(s, Push(s0, id, 4, false), id, d, r, AcceptDone)
  {
    var s2 := Push(s0, id, 2, false);
    var s3 := StepAccept(s2, id, s2.calls[id]);
    assert Push(s0, id, 3, false) == s3;
    assert Push(s0, id, 4, false) == StepAccept(s3, id, s3.calls[id]);
  }

  lemma AcceptWrites(s: System, s0: System, id: nat, d: nat, r: nat, vehicle: nat)
    requires AcceptAt(s, Push(s0, id, 4, false), id, d, r, TryAssignStep(vehicle)) && d in s.w.drivers
    ensures var t := Push(s0, id, 6, false);
      && id in t.calls && Finished(t.calls[id])
      && t.w.rides == (if CanAssign(s.w.rides, r) then s.w.rides[r := Assigned(s.w.rides[r], d, vehicle, s.clock)]
                       else s.w.rides)
      && t.w.drivers == (if CanAssign(s.w.rides, r) then s.w.drivers[d := s.w.drivers[d].(available := false)]
                         else s.w.drivers)
  {
    var s4 := Push(s0, id, 4, false);
    var s5 := StepAccept(s4, id, s4.calls[id]);
    assert Push(s0, id, 5, false) == s5;
    assert Push(s0, id, 6, false) == StepAccept(s5, id, s5.calls[id]);
  }

  /** An accept alone does what its plan does. */
  lemma AcceptAloneIsPlan(s: System, id: nat, d: nat, r: nat)
    requires id !in s.calls
    ensures var t := Push(Do(s, LaunchAccept(id, d, r)), id, 6, false);
      && id in t.calls && Finished(t.calls[id])
      && SameTables(t, ExecAll(s.w, P.AcceptPlan(s.w, d, r, s.clock)))
  {
    var s0 := Do(s, LaunchAccept(id, d, r));
    AcceptPlanEffect(s.w, d, r, s.clock);
    AcceptReads(s, id, d, r);
    if !Discovers(s.w, d) {
      FinishedStays(s0, id, 1, 6, false, Push(s0, id, 1, false));
    } else if HasActiveRide(s.w.rides, d) {
      FinishedStays(s0, id, 2, 6, false, Push(s0, id, 2, false));
    } else {
      AcceptChecks(s, s0, id, d, r);
      if P.MayAccept(s.w, d, r) {
        AcceptWrites(s, s0, id, d, r, s.w.drivers[d].vehicles[s.w.rides[r].vehicleType]);
      } else {
        FinishedStays(s0, id, 4, 6, false, Push(s0, id, 4, false));
      }
    }
  }

  // --------------------------------------------- arrive, start and complete

  function MovePlan(w: World, d: nat, r: nat, m: Move, guess: nat, now: int): seq<Tx> {
    match m
    case ArriveMove => P.ArrivePlan(w, d, r, now)
    case StartMove => P.StartPlan(w, d, r, guess, now)
    case CompleteMove => P.CompletePlan(w, d, r, now)
  }

  predicate CodePasses(w: World, d: nat, r: nat, guess: nat, now: int) {
    P.ComparesOtp(w, d, r, now) && guess == w.rides[r].otp
  }

  lemma MoveTwoSteps(s: System, id: nat, d: nat, r: nat, m: Move, otpOk: bool)
    requires id !in s.calls
    ensures var t := Push(Do(s, LaunchMove(id, d, r, m)), id, 2, otpOk);
      && id in t.calls && Finished(t.calls[id])
      && t.w == if r < |s.w.rides| && s.w.rides[r].driver == Some(d) && s.w.rides[r].status == ExpectedStatus(m)
                   && (m == StartMove ==> otpOk)
                then ExecTx(s.w, MoveTx(MoveCall(d, r, m, MoveWrite(s.w.rides[r])), s.w.rides[r], s.clock))
                else s.w
  {
    var s0 := Do(s, LaunchMove(id, d, r, m));
    assert Push(s0, id, 0, otpOk) == s0;
    var s1 := StepMove(s0, id, s0.calls[id], otpOk);
    assert Push(s0, id, 1, otpOk) == s1;
    assert Push(s0, id, 2, otpOk) == StepMove(s1, id, s1.calls[id], otpOk);
  }

  lemma AttemptIsFree(w: World, r: nat, now: int)
    ensures FreeTxs(P.AttemptPlan(w, r, now)) && FreeTxs(P.AttemptPlan(w, r, now) + [[DelAttempts(r)]])
  {
  }

  lemma StartedPlanEffect(w: World, d: nat, r: nat, guess: nat, now: int)
    requires CodePasses(w, d, r, guess, now)
    ensures var t := ExecAll(w, P.StartPlan(w, d, r, guess, now));
      t.drivers == w.drivers && t.trips == w.trips && t.rides == RideTable(w.rides, UpdateStatus(r, Start(now)))
  {
    var b, write := P.AttemptPlan(w, r, now) + [[DelAttempts(r)]], UpdateStatus(r, Start(now));
    AttemptIsFree(w, r, now);
    FreeThenWrite(w, b, write, [[Record(r, IN_PROGRESS)]]);
    assert P.StartPlan(w, d, r, guess, now) == b + ([[write]] + [[Record(r, IN_PROGRESS)]]);
  }

  lemma StartPlanEffect(w: World, d: nat, r: nat, guess: nat, now: int)
    ensures var t := ExecAll(w, P.StartPlan(w, d, r, guess, now));
      && t.drivers == w.drivers && t.trips == w.trips
      && t.rides == if CodePasses(w, d, r, guess, now) then w.rides[r := Patched(w.rides[r], Start(now))] else w.rides
  {
    if CodePasses(w, d, r, guess, now) {
      StartedPlanEffect(w, d, r, guess, now);
    } else {
      AttemptIsFree(w, r, now);
      R.FreeLegal(w, P.AttemptPlan(w, r, now));
    }
  }

  /** An arrive, a start or a complete alone does what its plan does. */
  lemma MoveAloneIsPlan(s: System, id: nat, d: nat, r: nat, m: Move, guess: nat)
    requires id !in s.calls && d in s.w.drivers
    ensures var t := Push(Do(s, LaunchMove(id, d, r, m)), id, 2, CodePasses(s.w, d, r, guess, s.clock));
      && id in t.calls && Finished(t.calls[id])
      && SameTables(t, ExecAll(s.w, MovePlan(s.w, d, r, m, guess, s.clock)))
      && t.w.trips == ExecAll(s.w, MovePlan(s.w, d, r, m, guess, s.clock)).trips
  {
    var w, now := s.w, s.clock;
    MoveTwoSteps(s, id, d, r, m, CodePasses(w, d, r, guess, now));
    if P.AssignedIn(w, d, r, ExpectedStatus(m)) {
      var tx := MoveTx(MoveCall(d, r, m, MoveWrite(w.rides[r])), w.rides[r], now);
      match m
      case ArriveMove =>
        assert tx == [UpdateStatus(r, Arrive(now))];
        assert P.ArrivePlan(w, d, r, now) == [tx] + [[Record(r, ARRIVED)]];
        TxThenFree(w, tx, [[Record(r, ARRIVED)]]);
      case CompleteMove =>
        assert tx == P.CompleteTx(d, r, w.rides[r], now);
        assert P.CompletePlan(w, d, r, now) == [tx] + [[Record(r, COMPLETED)]];
        TxThenFree(w, tx, [[Record(r, COMPLETED)]]);
      case StartMove =>
        StartPlanEffect(w, d, r, guess, now);
        assert tx == [UpdateStatus(r, Start(now))];
        ExecTxOne(w, tx[0]);
    }
  }

  // ------------------------------------------------------------------ cancel

  /** A cancel alone does what its plan does. */
  lemma CancelAloneIsPlan(s: System, id: nat, u: nat, r: nat)
    requires id !in s.calls
    ensures var t := Push(Do(s, LaunchCancel(id, u, r)), id, 2, false);
      && id in t.calls && Finished(t.calls[id])
      && SameTables(t, ExecAll(s.w, P.CancelPlan(s.w, u, r, s.clock)))
  {
    var s0 := Do(s, LaunchCancel(id, u, r));
    assert Push(s0, id, 0, false) == s0;
    var s1 := StepCancel(s0, id, s0.calls[id]);
    assert Push(s0, id, 1, false) == s1;
    assert Push(s0, id, 2, false) == StepCancel(s1, id, s1.calls[id]);
    if P.MayCancel(s.w, u, r) {
      var actor := if s.w.rides[r].passenger == u then PASSENGER else DRIVER;
      var tx := CancelTx(r, s.w.rides[r], actor, s.clock);
      assert P.CancelPlan(s.w, u, r, s.clock) == [tx] + [[RemovePending(r)], [Record(r, CANCELLED)]];
      TxThenFree(s.w, tx, [[RemovePending(r)], [Record(r, CANCELLED)]]);
    }
  }

  // ------------------------------------------------------------------- sweep

  lemma SweepOneEffect(w: World, x: Stale, now: int)
    ensures var t := ExecAll(w, P.SweepOne(w.rides, x, now));
      t.rides == ExecTx(w, SweepTx(x, now)).rides && t.drivers == ExecTx(w, SweepTx(x, now)).drivers
  {
    var one := P.SweepOne(w.rides, x, now);
    assert one == [SweepTx(x, now)] + one[1..];
    TxThenFree(w, SweepTx(x, now), one[1..]);
  }

  /** The tables after a sweep depend only on the tables before it. */
  lemma {:induction false} TxTables(w: World, v: World, tx: Tx)
    requires w.rides == v.rides && w.drivers == v.drivers
    ensures ExecTx(w, tx).rides == ExecTx(v, tx).rides && ExecTx(w, tx).drivers == ExecTx(v, tx).drivers
    decreases |tx|
  {
    if tx != [] { TxTables(Exec(w, tx[0]), Exec(v, tx[0]), tx[1..]); }
  }

  predicate Sweeping(t: System, id: nat, now: int, todo: seq<Stale>) {
    t.clock == now && id in t.calls && t.calls[id] == SweepCall(now, Working(todo))
  }

  lemma SweepIteration(t: System, id: nat, hint: nat, w: World, now: int, todo: seq<Stale>)
    requires Sweeping(t, id, now, todo) && SameTables(t, w) && todo != []
    ensures var u := Do(t, Advance(id, hint, false));
      Sweeping(u, id, now, todo[1..]) && SameTables(u, AfterOne(w, todo[0], now))
  {
    SweepOneEffect(w, todo[0], now);
    TxTables(t.w, w, SweepTx(todo[0], now));
  }

  function AfterOne(w: World, x: Stale, now: int): World {
    ExecAll(w, P.SweepOne(w.rides, x, now))
  }

  function AfterSweep(w: World, todo: seq<Stale>, now: int): World
    decreases |todo|
  {
    if todo == [] then w else AfterSweep(AfterOne(w, todo[0], now), todo[1..], now)
  }

  lemma {:induction false} SweepPlanEffect(w: World, todo: seq<Stale>, now: int)
    ensures AfterSweep(w, todo, now) == ExecAll(w, P.SweepEach(w, todo, now))
    decreases |todo|
  {
    if todo != [] {
      var u := AfterOne(w, todo[0], now);
      ExecAllAppend(w, P.SweepOne(w.rides, todo[0], now), P.SweepEach(u, todo[1..], now));
      SweepPlanEffect(u, todo[1..], now);
    }
  }

  predicate SweepsAs(t: System, id: nat, w: World, now: int, todo: seq<Stale>) {
    Sweeping(t, id, now, todo) && SameTables(t, w)
  }

  lemma PushSweeps(s0: System, id: nat, n: nat, w: World, now: int, todo: seq<Stale>)
    requires SweepsAs(Push(s0, id, n, false), id, w, now, todo) && todo != []
    ensures SweepsAs(Push(s0, id, n + 1, false), id, AfterOne(w, todo[0], now), now, todo[1..])
  {
    SweepIteration(Push(s0, id, n, false), id, n, w, now, todo);
  }

  lemma {:induction false} SweepLoop(s0: System, id: nat, n: nat, m: nat, w: World, now: int, todo: seq<Stale>)
    requires SweepsAs(Push(s0, id, n, false), id, w, now, todo) && m == n + |todo|
    ensures SweepsAs(Push(s0, id, m, false), id, AfterSweep(w, todo, now), now, [])
    decreases |todo|
  {
    if todo != [] {
      PushSweeps(s0, id, n, w, now, todo);
      SweepLoop(s0, id, n + 1, m, AfterOne(w, todo[0], now), now, todo[1..]);
    }
  }

  lemma SweepQueries(s: System, id: nat)
    requires id !in s.calls
    ensures var t := Push(Do(s, LaunchSweep(id)), id, 4, false);
      t.w == s.w && Sweeping(t, id, s.clock, P.AllStale(s.w.rides, s.clock))
  {
    var s0 := Do(s, LaunchSweep(id));
    assert Push(s0, id, 0, false) == s0;
    var s1 := StepSweep(s0, id, s0.calls[id], 0);
    assert Push(s0, id, 1, false) == s1;
    var s2 := StepSweep(s1, id, s1.calls[id], 1);
    assert Push(s0, id, 2, false) == s2;
    var s3 := StepSweep(s2, id, s2.calls[id], 2);
    assert Push(s0, id, 3, false) == s3;
    assert Push(s0, id, 4, false) == StepSweep(s3, id, s3.calls[id], 3);
  }

  /** A sweep alone does what its plan does: three queries, a step to concatenate the loops'
      work, and one step for each ride found. */
  lemma SweepAloneIsPlan(s: System, id: nat)
    requires id !in s.calls
    ensures var found := P.AllStale(s.w.rides, s.clock);
      var t := Push(Do(s, LaunchSweep(id)), id, 4 + |found|, false);
      && id in t.calls && Finished(t.calls[id])
      && SameTables(t, ExecAll(s.w, P.SweepEach(s.w, found, s.clock)))
  {
    SweepQueries(s, id);
    var found := P.AllStale(s.w.rides, s.clock);
    SweepLoop(Do(s, LaunchSweep(id)), id, 4, 4 + |found|, s.w, s.clock, found);
    SweepPlanEffect(s.w, P.AllStale(s.w.rides, s.clock), s.clock);
  }
}
