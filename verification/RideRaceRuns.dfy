/** Runs from an empty system that break the three guarantees RideRaces characterises.  Each is
    played in groups of actions, from one fully written-out state to the next. */
module RideRaceRuns {
  import opened Options
  import opened Rides
  import opened RideInterleaving
  import opened RideRaces

  const EMPTY := System(EMPTY_WORLD, map[], 0, [])
  const ANN := Driver(true, true, true, map[0 := 5], 0, 0)
  const ASKED := NewRide(2, 0, (0, 0), 0, 500, 0)
  const TAKEN := Assigned(ASKED, 1, 5, 0)

  function Go(id: nat): Action { Advance(id, 0, true) }

  function Four(s: System, a: Action, b: Action, c: Action, d: Action): System {
    Do(Do(Do(Do(s, a), b), c), d)
  }

  lemma PlayFour(run: seq<Action>, a: Action, b: Action, c: Action, d: Action, to: System)
    requires Four(Run(EMPTY, run), a, b, c, d) == to
    ensures Run(EMPTY, run + [a, b, c, d]) == to
  {
    var s := Run(EMPTY, run);
    assert [a, b, c, d] == [a, b] + [c, d];
    RunTwo(s, a, b);
    RunTwo(Do(Do(s, a), b), c, d);
    RunAppend(s, [a, b], [c, d]);
    RunAppend(EMPTY, run, [a, b, c, d]);
  }

  lemma PlayOne(run: seq<Action>, a: Action, to: System)
    requires Do(Run(EMPTY, run), a) == to
    ensures Run(EMPTY, run + [a]) == to
  {
    RunOne(Run(EMPTY, run), a);
    RunAppend(EMPTY, run, [a]);
  }

  // ----------------------- driver 1 exists, passenger 2 asks, driver 1 accepts

  const BOOKING := [] + [WriteDriver(1, ANN), Insert(2, 0, (0, 0), 0, 500), LaunchAccept(1, 1, 0), Go(1)]
                   + [Go(1), Go(1), Go(1), Go(1)]

  function Asking(): System {
    System(EMPTY_WORLD.(rides := [ASKED], drivers := map[1 := ANN]), map[1 := AcceptCall(1, 0, ReadActive)], 0, [])
  }

  function Booked(calls: map<nat, Call>): System {
    System(EMPTY_WORLD.(rides := [TAKEN], drivers := map[1 := ANN]), calls, 0, [Won(0, 1, 5, 0)])
  }

  const ACCEPT := AcceptCall(1, 0, MarkBusy)
  const ARRIVE := MoveCall(1, 0, ArriveMove, MoveWrite(TAKEN))

  lemma AskingSteps()
    ensures Four(EMPTY, WriteDriver(1, ANN), Insert(2, 0, (0, 0), 0, 500), LaunchAccept(1, 1, 0), Go(1)) == Asking()
  {
    assert EMPTY.w.rides + [ASKED] == [ASKED];
  }

  lemma BookingSteps()
    ensures Four(Asking(), Go(1), Go(1), Go(1), Go(1)) == Booked(map[1 := ACCEPT])
  {
    assert [ASKED][0 := TAKEN] == [TAKEN];
  }

  lemma BookingRun()
    ensures Run(EMPTY, BOOKING) == Booked(map[1 := ACCEPT])
  {
    AskingSteps();
    BookingSteps();
    PlayFour([], WriteDriver(1, ANN), Insert(2, 0, (0, 0), 0, 500), LaunchAccept(1, 1, 0), Go(1), Asking());
    PlayFour([] + [WriteDriver(1, ANN), Insert(2, 0, (0, 0), 0, 500), LaunchAccept(1, 1, 0), Go(1)],
             Go(1), Go(1), Go(1), Go(1), Booked(map[1 := ACCEPT]));
  }

  // --------------------------------------------------- a cancelled ride revives

  // An arrive call has read the ride as ACCEPTED; then the passenger's cancel goes through.
  const CANCELLING := BOOKING + [LaunchMove(2, 1, 0, ArriveMove), Go(2), LaunchCancel(3, 2, 0), Go(3)] + [Go(3)]

  function Cancelled(): System {
    var s := Booked(map[1 := ACCEPT, 2 := ARRIVE, 3 := CancelCall(2, 0, CancelDone)]);
    s.(w := ExecTx(s.w, CancelTx(0, TAKEN, PASSENGER, 0)))
  }

  lemma CancellingSteps()
    ensures Do(Four(Booked(map[1 := ACCEPT]), LaunchMove(2, 1, 0, ArriveMove), Go(2),
        LaunchCancel(3, 2, 0), Go(3)), Go(3))
            == Cancelled()
  {
    var s := Four(Booked(map[1 := ACCEPT]), LaunchMove(2, 1, 0, ArriveMove), Go(2), LaunchCancel(3, 2, 0), Go(3));
    assert s == Booked(map[1 := ACCEPT, 2 := ARRIVE, 3 := CancelCall(2, 0, CancelWrite(TAKEN, PASSENGER))]);
  }

  lemma CancellingRun()
    ensures Run(EMPTY, CANCELLING) == Cancelled()
  {
    BookingRun();
    CancellingSteps();
    var s := Four(Booked(map[1 := ACCEPT]), LaunchMove(2, 1, 0, ArriveMove), Go(2), LaunchCancel(3, 2, 0), Go(3));
    PlayFour(BOOKING, LaunchMove(2, 1, 0, ArriveMove), Go(2), LaunchCancel(3, 2, 0), Go(3), s);
    PlayOne(BOOKING + [LaunchMove(2, 1, 0, ArriveMove), Go(2), LaunchCancel(3, 2, 0), Go(3)], Go(3), Cancelled());
  }

  /** The cancelled ride comes back as ARRIVED when the arrive call takes its last step. */
  lemma CancelledRideRevives()
    ensures Initially(EMPTY)
    ensures var before, after := Run(EMPTY, CANCELLING), Run(EMPTY, CANCELLING + [Go(2)]);
      |before.w.rides| == |after.w.rides| == 1
      && before.w.rides[0].status == CANCELLED && after.w.rides[0].status == ARRIVED
  {
    CancellingRun();
    CancelTxRides(Booked(map[]).w, 0, TAKEN, PASSENGER, 0);
    PlayOne(CANCELLING, Go(2), Do(Cancelled(), Go(2)));
    MoveTxRides(Cancelled().w, ARRIVE, TAKEN, 0);
  }

  // ------------------------------------------------ a driver takes two rides

  const ASKED_TOO := NewRide(3, 0, (0, 0), 0, 500, 0)
  const TAKEN_TOO := Assigned(ASKED_TOO, 1, 5, 0)

  // Two accepts of driver 1; both have passed the check for an active ride, and one has won.
  const TWO_ACCEPTS := [] + [WriteDriver(1, ANN), Insert(2, 0, (0, 0), 0, 500), Insert(3, 0, (0, 0), 0, 500),
                             LaunchAccept(1, 1, 0)]
                       + [LaunchAccept(2, 1, 1), Go(1), Go(1), Go(2)]
  const ONE_WON := TWO_ACCEPTS + [Go(2), Go(1), Go(1), Go(1)]
  const ONE_READY := ONE_WON + [Go(2)] + [Go(2)]

  function Two(rides: seq<Ride>, first: AcceptPc, second: AcceptPc, log: seq<Event>): System {
    System(EMPTY_WORLD.(rides := rides, drivers := map[1 := ANN]),
           map[1 := AcceptCall(1, 0, first), 2 := AcceptCall(1, 1, second)], 0, log)
  }

  lemma TwoAskedSteps()
    ensures Four(EMPTY, WriteDriver(1, ANN), Insert(2, 0, (0, 0), 0, 500), Insert(3, 0, (0, 0), 0, 500),
        LaunchAccept(1, 1, 0))
            == System(EMPTY_WORLD.(rides := [ASKED, ASKED_TOO], drivers := map[1 := ANN]),
                      map[1 := AcceptCall(1, 0, ReadDriver)], 0, [])
  {
    assert EMPTY.w.rides + [ASKED] + [ASKED_TOO] == [ASKED, ASKED_TOO];
  }

  lemma TwoAcceptsSteps()
    ensures Four(System(EMPTY_WORLD.(rides := [ASKED, ASKED_TOO], drivers := map[1 := ANN]),
                        map[1 := AcceptCall(1, 0, ReadDriver)], 0, []), LaunchAccept(2, 1, 1), Go(1), Go(1), Go(2))
            == Two([ASKED, ASKED_TOO], ReadRide, ReadActive, [])
  {
  }

  lemma OneWonSteps()
    ensures Four(Two([ASKED, ASKED_TOO], ReadRide, ReadActive, []), Go(2), Go(1), Go(1), Go(1))
            == Two([TAKEN, ASKED_TOO], MarkBusy, ReadRide, [Won(0, 1, 5, 0)])
  {
    assert [ASKED, ASKED_TOO][0 := TAKEN] == [TAKEN, ASKED_TOO];
  }

  lemma OneReadySteps()
    ensures Do(Do(Two([TAKEN, ASKED_TOO], MarkBusy, ReadRide, [Won(0, 1, 5, 0)]), Go(2)), Go(2))
            == Two([TAKEN, ASKED_TOO], MarkBusy, TryAssignStep(5), [Won(0, 1, 5, 0)])
  {
  }

  lemma TwoAcceptsRun()
    ensures Run(EMPTY, TWO_ACCEPTS) == Two([ASKED, ASKED_TOO], ReadRide, ReadActive, [])
  {
    TwoAskedSteps();
    TwoAcceptsSteps();
    PlayFour([], WriteDriver(1, ANN), Insert(2, 0, (0, 0), 0, 500), Insert(3, 0, (0, 0), 0, 500), LaunchAccept(1, 1, 0),
             System(EMPTY_WORLD.(rides := [ASKED, ASKED_TOO], drivers := map[1 := ANN]),
                    map[1 := AcceptCall(1, 0, ReadDriver)], 0, []));
    PlayFour([] + [WriteDriver(1, ANN), Insert(2, 0, (0, 0), 0, 500), Insert(3, 0, (0, 0), 0, 500),
        LaunchAccept(1, 1, 0)],
             LaunchAccept(2, 1, 1), Go(1), Go(1), Go(2), Two([ASKED, ASKED_TOO], ReadRide, ReadActive, []));
  }

  lemma OneReadyRun()
    ensures Run(EMPTY, ONE_READY) == Two([TAKEN, ASKED_TOO], MarkBusy, TryAssignStep(5), [Won(0, 1, 5, 0)])
  {
    TwoAcceptsRun();
    OneWonSteps();
    OneReadySteps();
    var t := Two([TAKEN, ASKED_TOO], MarkBusy, ReadRide, [Won(0, 1, 5, 0)]);
    PlayFour(TWO_ACCEPTS, Go(2), Go(1), Go(1), Go(1), t);
    PlayOne(ONE_WON, Go(2), Do(t, Go(2)));
    PlayOne(ONE_WON + [Go(2)], Go(2), Do(Do(t, Go(2)), Go(2)));
  }

  /** The second assignment hits as well: the driver has two active rides, and the step is one of
      those that can give a driver a second one. */
  lemma TwoAcceptsBothWin()
    ensures !DoubleBooked(Run(EMPTY, ONE_READY).w.rides, 1) && TakesSecond(Run(EMPTY, ONE_READY), Go(2), 1)
    ensures DoubleBooked(Run(EMPTY, ONE_READY + [Go(2)]).w.rides, 1)
  {
    OneReadyRun();
    var u := Two([TAKEN, ASKED_TOO], MarkBusy, TryAssignStep(5), [Won(0, 1, 5, 0)]);
    assert Serves(u.w.rides[0], 1);
    PlayOne(ONE_READY, Go(2), Do(u, Go(2)));
    var rides := Do(u, Go(2)).w.rides;
    assert rides == [TAKEN, TAKEN_TOO];
    assert Serves(rides[0], 1) && Serves(rides[1], 1);
  }

  // --------------------------------- the sweep cancels a ride that just arrived

  const LATE := 16 * MINUTE

  // Two arrive calls have read the ride as ACCEPTED; the first writes, sixteen minutes pass, a
  // sweep makes its list, and the second writes.
  const TWO_ARRIVES := BOOKING + [LaunchMove(2, 1, 0, ArriveMove), Go(2), LaunchMove(4, 1, 0, ArriveMove), Go(4)]
  const SWEEP_STARTS := TWO_ARRIVES + [Go(2), Tick(LATE), LaunchSweep(3), Advance(3, 0, true)]
  const SWEEP_LISTS := SWEEP_STARTS + [Advance(3, 1, true), Advance(3, 2, true), Go(3), Go(4)]

  const WAITING := Patched(TAKEN, Arrive(0))
  const JUST_ARRIVED := Patched(TAKEN, Arrive(LATE))

  function Swept3(row: Ride, spc: SweepPc, second: MovePc): System {
    System(EMPTY_WORLD.(rides := [row], drivers := map[1 := ANN]),
           map[1 := ACCEPT, 2 := MoveCall(1, 0, ArriveMove, MoveDone), 3 := SweepCall(LATE, spc),
               4 := MoveCall(1, 0, ArriveMove, second)], LATE, [Won(0, 1, 5, 0)])
  }

  lemma TwoArrivesSteps()
    ensures Four(Booked(map[1 := ACCEPT]), LaunchMove(2, 1, 0, ArriveMove), Go(2),
        LaunchMove(4, 1, 0, ArriveMove), Go(4))
            == Booked(map[1 := ACCEPT, 2 := ARRIVE, 4 := ARRIVE])
  {
  }

  lemma ArriveWrites(w: World, at: int)
    requires w.rides == [TAKEN] || w.rides == [WAITING]
    ensures ExecTx(w, MoveTx(ARRIVE, TAKEN, at)) == w.(rides := [Patched(TAKEN, Arrive(at))])
  {
    assert MoveTx(ARRIVE, TAKEN, at) == [UpdateStatus(0, Arrive(at))];
    ExecTxOne(w, UpdateStatus(0, Arrive(at)));
    assert w.rides[0 := Patched(w.rides[0], Arrive(at))] == [Patched(TAKEN, Arrive(at))];
  }

  lemma Queries()
    ensures FindStale([WAITING], REQUESTED, LATE) == [] && FindStale([WAITING], ACCEPTED, LATE) == []
    ensures FindStale([WAITING], ARRIVED, LATE) == [Stale(0, WAITING)]
  {
    assert [WAITING][..0] == [];
  }

  lemma FirstArrives()
    ensures var s := Booked(map[1 := ACCEPT, 2 := ARRIVE, 4 := ARRIVE]);
      Do(Do(s, Go(2)), Tick(LATE))
      == System(EMPTY_WORLD.(rides := [WAITING], drivers := map[1 := ANN]),
                map[1 := ACCEPT, 2 := MoveCall(1, 0, ArriveMove, MoveDone), 4 := ARRIVE], LATE, [Won(0, 1, 5, 0)])
  {
    ArriveWrites(Booked(map[]).w, 0);
  }

  lemma SweepStartsSteps()
    ensures Four(Booked(map[1 := ACCEPT, 2 := ARRIVE, 4 := ARRIVE]), Go(2), Tick(LATE),
        LaunchSweep(3), Advance(3, 0, true))
            == Swept3(WAITING, Querying(Some([]), None, None), MoveWrite(TAKEN))
  {
    FirstArrives();
    Queries();
  }

  lemma SweepListsSteps()
    ensures Four(Swept3(WAITING, Querying(Some([]), None, None), MoveWrite(TAKEN)),
                 Advance(3, 1, true), Advance(3, 2, true), Go(3), Go(4))
            == Swept3(JUST_ARRIVED, Working([Stale(0, WAITING)]), MoveDone)
  {
    Queries();
    assert [] + [] + [Stale(0, WAITING)] == [Stale(0, WAITING)];
    ArriveWrites(Swept3(WAITING, Querying(Some([]), None, None), MoveWrite(TAKEN)).w, LATE);
  }

  lemma SweepListsRun()
    ensures Run(EMPTY, SWEEP_LISTS) == Swept3(JUST_ARRIVED, Working([Stale(0, WAITING)]), MoveDone)
  {
    BookingRun();
    TwoArrivesSteps();
    SweepStartsSteps();
    SweepListsSteps();
    PlayFour(BOOKING, LaunchMove(2, 1, 0, ArriveMove), Go(2), LaunchMove(4, 1, 0, ArriveMove), Go(4),
             Booked(map[1 := ACCEPT, 2 := ARRIVE, 4 := ARRIVE]));
    PlayFour(TWO_ARRIVES, Go(2), Tick(LATE), LaunchSweep(3), Advance(3, 0, true),
             Swept3(WAITING, Querying(Some([]), None, None), MoveWrite(TAKEN)));
    PlayFour(SWEEP_STARTS, Advance(3, 1, true), Advance(3, 2, true), Go(3), Go(4),
             Swept3(JUST_ARRIVED, Working([Stale(0, WAITING)]), MoveDone));
  }

  /** The sweep's write then cancels a ride that arrived this very instant. */
  lemma SweepCancelsFreshArrival()
    ensures var t := Run(EMPTY, SWEEP_LISTS + [Go(3)]);
      |t.log| == 2 && TooEarly(t.log[1], 0) && t.log[1].row.arrivedAt == Some(t.log[1].at)
  {
    SweepListsRun();
    var s := Swept3(JUST_ARRIVED, Working([Stale(0, WAITING)]), MoveDone);
    PlayOne(SWEEP_LISTS, Go(3), Do(s, Go(3)));
  }
}
