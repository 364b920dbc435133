/** What interleaving can undo, and exactly when.  Three guarantees of serial runs fail at
    granularity A, because a guard is checked in one statement and relied on in another: that a
    finished ride stays as it is, that a driver has one active ride, and that the sweep cancels
    only an ARRIVED ride that has waited out its timeout.  Each failure is shown by a run from an
    empty system and then characterised. */
module RideRaces {
  import opened Options
  import opened Rides
  import opened RideInterleaving

  // ----------------------------------------------- one step, seen from one row

  /** Row r after one action. */
  function RowStep(s: System, a: Action, r: nat): Ride
    requires r < |s.w.rides|
  {
    var row := s.w.rides[r];
    if !a.Advance? || a.id !in s.calls then row
    else
      match s.calls[a.id]
      case AcceptCall(d, ride, TryAssignStep(vehicle)) =>
        if ride == r && CanAssign(s.w.rides, r) then Assigned(row, d, vehicle, s.clock) else row
      case MoveCall(_, ride, m, MoveWrite(read)) => if ride == r then Patched(row, MovePatch(m, read, s.clock)) else row
      case CancelCall(_, ride, CancelWrite(_, actor)) => if ride == r then Patched(row, Cancel(s.clock, actor)) else row
      case SweepCall(_, Working(todo)) =>
        if todo != [] && todo[0].ride == r && row.status == todo[0].row.status
        then Patched(row, Cancel(s.clock, SYSTEM)) else row
      case _ => row
  }

  lemma AdvanceRow(s: System, a: Action, r: nat)
    requires Inv(s) && r < |s.w.rides| && a.Advance? && a.id in s.calls
    ensures |Do(s, a).w.rides| == |s.w.rides| && Do(s, a).w.rides[r] == RowStep(s, a, r)
  {
    var c := s.calls[a.id];
    assert CallOk(s, c);
    match c
    case MoveCall(_, ride, _, MoveWrite(row)) => MoveTxRides(s.w, c, row, s.clock);
    case CancelCall(_, ride, CancelWrite(row, actor)) => CancelTxRides(s.w, ride, row, actor, s.clock);
    case SweepCall(_, Working(todo)) => if todo != [] { SweepTxRides(s.w, todo[0], s.clock); }
    case _ =>
  }

  lemma RowStepIs(s: System, a: Action, r: nat)
    requires Inv(s) && r < |s.w.rides|
    ensures r < |Do(s, a).w.rides| && Do(s, a).w.rides[r] == RowStep(s, a, r)
  {
    if a.Advance? && a.id in s.calls { AdvanceRow(s, a, r); }
  }

  /** The call stands before an unconditional write to ride r. */
  predicate WritesTo(c: Call, r: nat) {
    match c
    case MoveCall(_, ride, _, MoveWrite(_)) => ride == r
    case CancelCall(_, ride, CancelWrite(_, _)) => ride == r
    case _ => false
  }

  function WrittenStatus(c: Call): Status {
    if c.MoveCall? then
      match c.move case ArriveMove => ARRIVED case StartMove => IN_PROGRESS case CompleteMove => COMPLETED
    else CANCELLED
  }

  /** The status from which a call gets to its write. */
  predicate LetsThrough(row: Ride, c: Call) {
    if c.MoveCall? then row.status == ExpectedStatus(c.move) else Cancellable(row.status)
  }

  /** A call before a write to r was there already, or has just read r in the status it needs. */
  lemma WriterIsOld(s: System, a: Action, r: nat, id: nat)
    requires id in Do(s, a).calls && WritesTo(Do(s, a).calls[id], r)
    ensures (id in s.calls && s.calls[id] == Do(s, a).calls[id])
            || (r < |s.w.rides| && LetsThrough(s.w.rides[r], Do(s, a).calls[id]))
  {
  }

  lemma RunOne(s: System, a: Action)
    ensures Run(s, [a]) == Do(s, a)
  {
    assert [a][..0] == [];
  }

  lemma RunTwo(s: System, a: Action, b: Action)
    ensures Run(s, [a, b]) == Do(Do(s, a), b)
  {
    assert [a, b][..1] == [a];
    RunOne(s, a);
  }

  // --------------------------------------------- finished rides stay finished?

  predicate Over(s: System, r: nat) {
    r < |s.w.rides| && (s.w.rides[r].status == COMPLETED || s.w.rides[r].status == CANCELLED)
  }

  predicate NoWriter(s: System, r: nat) {
    forall id :: id in s.calls ==> !WritesTo(s.calls[id], r)
  }

  predicate SameRow(s: System, actions: seq<Action>, r: nat) {
    r < |s.w.rides| && r < |Run(s, actions).w.rides| && Run(s, actions).w.rides[r] == s.w.rides[r]
  }

  /** A sweep never writes to a finished ride, and nothing else does but the calls above. */
  lemma OverRowStep(s: System, a: Action, r: nat)
    requires Inv(s) && Over(s, r)
    ensures RowStep(s, a, r) == s.w.rides[r] || (a.Advance? && a.id in s.calls && WritesTo(s.calls[a.id], r))
  {
    if a.Advance? && a.id in s.calls {
      var c := s.calls[a.id];
      assert CallOk(s, c);
      if c.SweepCall? && c.spc.Working? && c.spc.todo != [] { assert StaleAgainst(s, c.spc.todo[0], c.now); }
    }
  }

  lemma {:induction false} StaysOver(s: System, actions: seq<Action>, r: nat)
    requires Inv(s) && Over(s, r) && NoWriter(s, r)
    ensures SameRow(s, actions, r) && NoWriter(Run(s, actions), r)
  {
    if actions != [] {
      var front, a := actions[..|actions| - 1], actions[|actions| - 1];
      StaysOver(s, front, r);
      RunKeeps(s, front);
      var t := Run(s, front);
      RowStepIs(t, a, r);
      OverRowStep(t, a, r);
      forall id | id in Do(t, a).calls ensures !WritesTo(Do(t, a).calls[id], r) {
        if WritesTo(Do(t, a).calls[id], r) { WriterIsOld(t, a, r, id); }
      }
    }
  }

  /** A pending write changes the row, at this instant or one millisecond later. */
  lemma WriterChangesRow(s: System, r: nat, id: nat)
    requires Inv(s) && Over(s, r) && id in s.calls && WritesTo(s.calls[id], r)
    ensures exists actions :: !SameRow(s, actions, r)
  {
    var row, a := s.w.rides[r], Advance(id, 0, false);
    var written := if s.calls[id].MoveCall? then row.completedAt else row.cancelledAt;
    var tick := Tick(if written == Some(s.clock) then 1 else 0);
    var t := Do(s, tick);
    DoKeeps(s, tick);
    RowStepIs(t, a, r);
    RunTwo(s, tick, a);
    assert !SameRow(s, [tick, a], r);
  }

  /** CANCELLED and COMPLETED are terminal for a ride, row and all, exactly when no open call
      stands before a write to it. */
  lemma TerminalIff(s: System, r: nat)
    requires Inv(s) && Over(s, r)
    ensures (forall actions :: SameRow(s, actions, r)) <==> NoWriter(s, r)
  {
    if NoWriter(s, r) {
      forall actions ensures SameRow(s, actions, r) { StaysOver(s, actions, r); }
    } else {
      var id :| id in s.calls && WritesTo(s.calls[id], r);
      WriterChangesRow(s, r, id);
    }
  }

  predicate WritersAgree(s: System, r: nat) {
    r < |s.w.rides| &&
    forall id :: id in s.calls && WritesTo(s.calls[id], r) ==> WrittenStatus(s.calls[id]) == s.w.rides[r].status
  }

  predicate SameStatus(s: System, actions: seq<Action>, r: nat) {
    r < |s.w.rides| && r < |Run(s, actions).w.rides| && Run(s, actions).w.rides[r].status == s.w.rides[r].status
  }

  lemma {:induction false} StatusStaysOver(s: System, actions: seq<Action>, r: nat)
    requires Inv(s) && Over(s, r) && WritersAgree(s, r)
    ensures SameStatus(s, actions, r) && WritersAgree(Run(s, actions), r)
  {
    if actions != [] {
      var front, a := actions[..|actions| - 1], actions[|actions| - 1];
      StatusStaysOver(s, front, r);
      RunKeeps(s, front);
      var t := Run(s, front);
      RowStepIs(t, a, r);
      OverRowStep(t, a, r);
      forall id | id in Do(t, a).calls && WritesTo(Do(t, a).calls[id], r)
        ensures WrittenStatus(Do(t, a).calls[id]) == t.w.rides[r].status
      {
        WriterIsOld(t, a, r, id);
      }
    }
  }

  /** The status alone is terminal exactly when every such call would write the same status. */
  lemma StatusTerminalIff(s: System, r: nat)
    requires Inv(s) && Over(s, r)
    ensures (forall actions :: SameStatus(s, actions, r)) <==> WritersAgree(s, r)
  {
    if WritersAgree(s, r) {
      forall actions ensures SameStatus(s, actions, r) { StatusStaysOver(s, actions, r); }
    } else {
      var id :| id in s.calls && WritesTo(s.calls[id], r) && WrittenStatus(s.calls[id]) != s.w.rides[r].status;
      RowStepIs(s, Advance(id, 0, false), r);
      RunOne(s, Advance(id, 0, false));
      assert !SameStatus(s, [Advance(id, 0, false)], r);
    }
  }

  // ------------------------------------------------ one active ride per driver?

  predicate Serves(row: Ride, d: nat) { row.driver == Some(d) && Active(row.status) }

  predicate DoubleBooked(rides: seq<Ride>, d: nat) {
    exists i, j :: 0 <= i < j < |rides| && Serves(rides[i], d) && Serves(rides[j], d)
  }

  /** The two steps that take on a ride without looking again: the assignment of an accept that
      checked too early, and the write of a move whose ride was finished meanwhile. */
  predicate TakesSecond(s: System, a: Action, d: nat) {
    a.Advance? && a.id in s.calls && HasActiveRide(s.w.rides, d) &&
    match s.calls[a.id]
    case AcceptCall(driver, r, TryAssignStep(_)) => driver == d && CanAssign(s.w.rides, r)
    case MoveCall(_, r, m, MoveWrite(_)) =>
      m != CompleteMove && r < |s.w.rides| && s.w.rides[r].driver == Some(d) && !Active(s.w.rides[r].status)
    case _ => false
  }

  /** A row that starts to serve d does so by such a step, if d was busy. */
  lemma StartsServing(s: System, a: Action, r: nat, d: nat)
    requires Inv(s) && r < |s.w.rides| && !Serves(s.w.rides[r], d) && Serves(RowStep(s, a, r), d)
    requires HasActiveRide(s.w.rides, d)
    ensures TakesSecond(s, a, d)
  {
    assert RowOk(s.w.rides[r]);
  }

  lemma NewRowsServeNobody(s: System, a: Action, d: nat)
    requires Inv(s)
    ensures forall i :: |s.w.rides| <= i < |Do(s, a).w.rides| ==> !Serves(Do(s, a).w.rides[i], d)
  {
    if a.Advance? && a.id in s.calls && s.w.rides != [] {
      AdvanceRow(s, a, 0);
    } else if a.Advance? && a.id in s.calls {
      var c := s.calls[a.id];
      assert CallOk(s, c);
      if c.SweepCall? && c.spc.Working? && c.spc.todo != [] { SweepTxRides(s.w, c.spc.todo[0], s.clock); }
    }
  }

  lemma OnlyOneStarts(s: System, a: Action, i: nat, j: nat)
    requires Inv(s) && i < |s.w.rides| && j < |s.w.rides| && i != j
    ensures RowStep(s, a, i) == s.w.rides[i] || RowStep(s, a, j) == s.w.rides[j]
  {
  }

  lemma SecondTaken(s: System, a: Action, d: nat)
    requires Inv(s) && TakesSecond(s, a, d)
    ensures DoubleBooked(Do(s, a).w.rides, d)
  {
    var j: nat :| j < |s.w.rides| && Serves(s.w.rides[j], d);
    var r := s.calls[a.id].ride;
    assert r < |s.w.rides| && !Serves(s.w.rides[r], d) by { assert RowOk(s.w.rides[j]); }
    RowStepIs(s, a, j);
    RowStepIs(s, a, r);
    var rides, lo, hi := Do(s, a).w.rides, if r < j then r else j, if r < j then j else r;
    assert Serves(rides[r], d) && Serves(rides[j], d);
    assert lo < hi && Serves(rides[lo], d) && Serves(rides[hi], d);
  }

  /** A step gives a driver a second active ride exactly when it is one of those two. */
  lemma SecondRideIff(s: System, a: Action, d: nat)
    requires Inv(s) && !DoubleBooked(s.w.rides, d)
    ensures DoubleBooked(Do(s, a).w.rides, d) <==> TakesSecond(s, a, d)
  {
    if TakesSecond(s, a, d) {
      SecondTaken(s, a, d);
    } else if DoubleBooked(Do(s, a).w.rides, d) {
      var rides := Do(s, a).w.rides;
      var i, j :| 0 <= i < j < |rides| && Serves(rides[i], d) && Serves(rides[j], d);
      NewRowsServeNobody(s, a, d);
      RowStepIs(s, a, i);
      RowStepIs(s, a, j);
      OnlyOneStarts(s, a, i, j);
      var k := if Serves(s.w.rides[i], d) then j else i;
      StartsServing(s, a, k, d);
    }
  }

  predicate NeverDoubled(s: System, actions: seq<Action>, d: nat) {
    forall k :: 0 <= k <= |actions| ==> !DoubleBooked(Run(s, actions[..k]).w.rides, d)
  }

  predicate NeverTakesSecond(s: System, actions: seq<Action>, d: nat) {
    forall k :: 0 <= k < |actions| ==> !TakesSecond(Run(s, actions[..k]), actions[k], d)
  }

  lemma DoubledLast(s: System, front: seq<Action>, a: Action, d: nat)
    ensures var actions := front + [a];
      NeverDoubled(s, actions, d) <==> NeverDoubled(s, front, d) && !DoubleBooked(Run(s, actions).w.rides, d)
  {
    var actions := front + [a];
    assert actions[..|actions|] == actions;
    forall k | 0 <= k <= |front| ensures front[..k] == actions[..k] {}
  }

  lemma TakenLast(s: System, front: seq<Action>, a: Action, d: nat)
    ensures var actions := front + [a];
      NeverTakesSecond(s, actions, d) <==> NeverTakesSecond(s, front, d) && !TakesSecond(Run(s, front), a, d)
  {
    var actions := front + [a];
    assert actions[..|front|] == front && actions[|front|] == a;
    forall k | 0 <= k < |front| ensures front[..k] == actions[..k] && front[k] == actions[k] {}
  }

  lemma SecondRideAt(s: System, front: seq<Action>, a: Action, d: nat)
    requires Initially(s) && NeverDoubled(s, front, d)
    ensures DoubleBooked(Run(s, front + [a]).w.rides, d) <==> TakesSecond(Run(s, front), a, d)
  {
    RunKeeps(s, front);
    assert front[..|front|] == front && (front + [a])[..|front|] == front;
    SecondRideIff(Run(s, front), a, d);
  }

  /** Over a run: a driver never has two active rides iff no step of the run is one of the two. */
  lemma {:induction false} OneRideEachIff(s: System, actions: seq<Action>, d: nat)
    requires Initially(s)
    ensures NeverDoubled(s, actions, d) <==> NeverTakesSecond(s, actions, d)
  {
    if actions == [] {
      assert actions[..0] == [];
    } else {
      var front, a := actions[..|actions| - 1], actions[|actions| - 1];
      assert front + [a] == actions;
      OneRideEachIff(s, front, d);
      DoubledLast(s, front, a, d);
      TakenLast(s, front, a, d);
      if NeverDoubled(s, front, d) { SecondRideAt(s, front, a, d); }
    }
  }

  // ---------------------------------------- the sweep cancels only old arrivals?

  predicate PendingArrive(s: System, r: nat) {
    exists id :: id in s.calls && WritesTo(s.calls[id], r) && s.calls[id].MoveCall? && s.calls[id].move == ArriveMove
  }

  predicate WaitedOut(row: Ride, at: int) {
    row.arrivedAt.Some? && at - row.arrivedAt.value > 900_000
  }

  predicate TooEarly(e: Event, r: nat) {
    e.Swept? && e.ride == r && e.expected == ARRIVED && !WaitedOut(e.row, e.at)
  }

  /** Between s and t no sweep cancelled ride r as ARRIVED before its timeout. */
  predicate NoneTooEarly(s: System, t: System, r: nat) {
    forall k :: |s.log| <= k < |t.log| ==> !TooEarly(t.log[k], r)
  }

  predicate OldOrGone(s: System, r: nat) {
    r < |s.w.rides| && (s.w.rides[r].status == ARRIVED ==> WaitedOut(s.w.rides[r], s.clock))
  }

  lemma ArriverIsOld(s: System, a: Action, r: nat)
    requires Inv(s) && r < |s.w.rides| && s.w.rides[r].status != ACCEPTED && !PendingArrive(s, r)
    ensures !PendingArrive(Do(s, a), r)
  {
    var t := Do(s, a);
    forall id | id in t.calls && WritesTo(t.calls[id], r) && t.calls[id].MoveCall?
      ensures t.calls[id].move != ArriveMove
    {
      WriterIsOld(s, a, r, id);
    }
  }

  lemma LogStep(s: System, a: Action, r: nat)
    requires Inv(s) && OldOrGone(s, r)
    ensures NoneTooEarly(s, Do(s, a), r)
  {
  }

  lemma {:induction false} StaysOldOrGone(s: System, actions: seq<Action>, r: nat)
    requires Inv(s) && OldOrGone(s, r) && !PendingArrive(s, r)
    requires s.w.rides[r].status != REQUESTED && s.w.rides[r].status != ACCEPTED
    ensures var t := Run(s, actions);
      && OldOrGone(t, r) && !PendingArrive(t, r) && NoneTooEarly(s, t, r)
      && t.w.rides[r].status != REQUESTED && t.w.rides[r].status != ACCEPTED
  {
    if actions != [] {
      var front, a := actions[..|actions| - 1], actions[|actions| - 1];
      StaysOldOrGone(s, front, r);
      RunKeeps(s, front);
      var t := Run(s, front);
      DoKeeps(t, a);
      RowStepIs(t, a, r);
      ArriverIsOld(t, a, r);
      LogStep(t, a, r);
      assert RowLater(t.w.rides[r], Do(t, a).w.rides[r]);
    }
  }

  predicate SweepPending(s: System, id: nat, r: nat) {
    id in s.calls && s.calls[id].SweepCall? && s.calls[id].spc.Working? &&
    exists x :: x in s.calls[id].spc.todo && x.ride == r && x.row.status == ARRIVED
  }

  /** A sweep that still has r on its list, stepped alone, reaches it. */
  lemma {:induction false} SweepReaches(s: System, id: nat, r: nat, n: nat) returns (actions: seq<Action>)
    requires Inv(s) && SweepPending(s, id, r) && n == |s.calls[id].spc.todo|
    requires r < |s.w.rides| && s.w.rides[r].status == ARRIVED && !WaitedOut(s.w.rides[r], s.clock)
    ensures !NoneTooEarly(s, Run(s, actions), r)
    decreases n
  {
    var a, todo := Advance(id, 0, false), s.calls[id].spc.todo;
    var t := Do(s, a);
    RunOne(s, a);
    RowStepIs(s, a, r);
    if todo[0].ride == r && todo[0].row.status == ARRIVED {
      actions := [a];
      assert TooEarly(t.log[|s.log|], r);
    } else {
      DoKeeps(s, a);
      var x :| x in todo && x.ride == r && x.row.status == ARRIVED;
      assert x in todo[1..];
      assert t.calls[id] == SweepCall(s.calls[id].now, Working(todo[1..]));
      var rest := SweepReaches(t, id, r, n - 1);
      actions := [a] + rest;
      RunAppend(s, [a], rest);
      var k :| |t.log| <= k < |Run(t, rest).log| && TooEarly(Run(t, rest).log[k], r);
      assert TooEarly(Run(s, actions).log[k], r);
    }
  }

  predicate NeverTooEarly(s: System, actions: seq<Action>, r: nat) {
    NoneTooEarly(s, Run(s, actions), r)
  }

  /** Once a sweep has r on its list of old arrivals: whatever happens next, r is cancelled only
      after its timeout, exactly when no arrive call stands before its write to r, and r, if it is
      ARRIVED, has waited its timeout out already. */
  lemma ArrivedSweepIff(s: System, id: nat, r: nat)
    requires Inv(s) && SweepPending(s, id, r)
    ensures r < |s.w.rides|
    ensures (forall actions :: NeverTooEarly(s, actions, r)) <==> !PendingArrive(s, r) && OldOrGone(s, r)
  {
    var x :| x in s.calls[id].spc.todo && x.ride == r && x.row.status == ARRIVED;
    assert CallOk(s, s.calls[id]) && StaleAgainst(s, x, s.calls[id].now);
    if !PendingArrive(s, r) && OldOrGone(s, r) {
      forall actions ensures NeverTooEarly(s, actions, r) { StaysOldOrGone(s, actions, r); }
    } else if !OldOrGone(s, r) {
      var actions := SweepReaches(s, id, r, |s.calls[id].spc.todo|);
      assert !NeverTooEarly(s, actions, r);
    } else {
      ArriveThenSweep(s, id, r);
    }
  }

  lemma ArriveThenSweep(s: System, id: nat, r: nat)
    requires Inv(s) && SweepPending(s, id, r) && PendingArrive(s, r)
    ensures exists actions :: !NeverTooEarly(s, actions, r)
  {
    var k :| k in s.calls && WritesTo(s.calls[k], r) && s.calls[k].MoveCall? && s.calls[k].move == ArriveMove;
    var a := Advance(k, 0, false);
    var t := Do(s, a);
    DoKeeps(s, a);
    assert CallOk(s, s.calls[k]);
    RowStepIs(s, a, r);
    assert t.calls[id] == s.calls[id] && t.log == s.log && t.clock == s.clock;
    var rest := SweepReaches(t, id, r, |t.calls[id].spc.todo|);
    RunOne(s, a);
    RunAppend(s, [a], rest);
    assert !NeverTooEarly(s, [a] + rest, r);
  }
}
