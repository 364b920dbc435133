/** Refresh tokens on the server: issue, rotate with reuse detection, revoke, and the cleanup
    job.  A row is keyed by its raw token (the hash is injective).  `login` marks the chain a
    token belongs to; it is the first token of the chain and is not a column of the table. */
module Tokens {
  import opened Options

  datatype Row = Row(user: nat, login: nat, expiresAt: int, revokedAt: Option<int>)

  /** `issued` is history: every token ever handed out. */
  datatype Store = Store(rows: map<nat, Row>, issued: set<nat>)

  datatype Call =
    | Login(user: nat, raw: nat)
    | Rotate(presented: nat, raw: nat, crash: bool)   // crash: dies after revoking, before issuing
    | Logout(presented: nat)
    | RevokeAll(user: nat)                            // logout everywhere, password change, ban
    | Cleanup

  datatype Outcome = Silent | NotFound | Reuse | Rotated(raw: nat) | Died

  predicate Dead(r: Row, now: int) {
    r.revokedAt.Some? || r.expiresAt < now
  }

  function Issue(s: Store, user: nat, login: nat, raw: nat, now: int, ttl: nat): Store {
    Store(s.rows[raw := Row(user, login, now + ttl, None)], s.issued + {raw})
  }

  function Revoked(rows: map<nat, Row>, t: nat, now: int): map<nat, Row>
    requires t in rows
  {
    rows[t := rows[t].(revokedAt := Some(now))]
  }

  function RevokeUser(rows: map<nat, Row>, user: nat, now: int): map<nat, Row> {
    map t | t in rows :: if rows[t].user == user && rows[t].revokedAt == None
                         then rows[t].(revokedAt := Some(now)) else rows[t]
  }

  function DeleteDead(rows: map<nat, Row>, now: int): map<nat, Row> {
    map t | t in rows && !Dead(rows[t], now) :: rows[t]
  }

  function Outcomes(s: Store, c: Call, now: int): Outcome {
    if !c.Rotate? then Silent
    else if c.presented !in s.rows then NotFound
    else if Dead(s.rows[c.presented], now) then Reuse
    else if c.crash then Died
    else Rotated(c.raw)
  }

  function Serve(s: Store, c: Call, now: int, ttl: nat): Store {
    match c
    case Login(user, raw) => Issue(s, user, raw, raw, now, ttl)
    case Rotate(presented, raw, crash) =>
      if presented !in s.rows then s
      else
        var row := s.rows[presented];
        if Dead(row, now) then s.(rows := RevokeUser(s.rows, row.user, now))
        else
          var revoked := s.(rows := Revoked(s.rows, presented, now));
          if crash then revoked else Issue(revoked, row.user, row.login, raw, now, ttl)
    case Logout(presented) =>
      if presented in s.rows && s.rows[presented].revokedAt == None
      then s.(rows := Revoked(s.rows, presented, now)) else s
    case RevokeAll(user) => s.(rows := RevokeUser(s.rows, user, now))
    case Cleanup => s.(rows := DeleteDead(s.rows, now))
  }

  datatype Timed = Timed(call: Call, now: int)

  function Run(s: Store, steps: seq<Timed>, ttl: nat): Store {
    if steps == [] then s
    else Serve(Run(s, steps[..|steps| - 1], ttl), steps[|steps| - 1].call, steps[|steps| - 1].now, ttl)
  }

  /** The random generator never repeats itself. */
  predicate FreshFor(s: Store, c: Call) {
    (c.Login? ==> c.raw !in s.issued) && (c.Rotate? ==> c.raw !in s.issued)
  }

  predicate FreshRun(s: Store, steps: seq<Timed>, ttl: nat) {
    forall i :: 0 <= i < |steps| ==> FreshFor(Run(s, steps[..i], ttl), steps[i].call)
  }

  const NO_TOKENS := Store(map[], {})

  // ------------------------------------------------------------ chains

  predicate Unrevoked(s: Store, t: nat) {
    t in s.rows && s.rows[t].revokedAt == None
  }

  ghost predicate ChainsOk(s: Store) {
    && (forall t :: t in s.rows ==> t in s.issued && s.rows[t].login in s.issued)
    && (forall t, u :: Unrevoked(s, t) && Unrevoked(s, u) && s.rows[t].login == s.rows[u].login ==> t == u)
  }

  lemma ServeKeepsChains(s: Store, c: Call, now: int, ttl: nat)
    requires ChainsOk(s) && FreshFor(s, c)
    ensures ChainsOk(Serve(s, c, now, ttl))
  {
    var t := Serve(s, c, now, ttl);
    forall x, y | Unrevoked(t, x) && Unrevoked(t, y) && t.rows[x].login == t.rows[y].login ensures x == y {
      assert x in s.rows ==> Unrevoked(s, x) && t.rows[x].login == s.rows[x].login;
      assert y in s.rows ==> Unrevoked(s, y) && t.rows[y].login == s.rows[y].login;
    }
  }

  lemma {:induction false} RunKeepsChains(steps: seq<Timed>, ttl: nat)
    requires FreshRun(NO_TOKENS, steps, ttl)
    ensures ChainsOk(Run(NO_TOKENS, steps, ttl))
  {
    if steps != [] {
      var n := |steps| - 1;
      forall i | 0 <= i < n ensures steps[..n][..i] == steps[..i] && steps[..n][i] == steps[i] {}
      RunKeepsChains(steps[..n], ttl);
      ServeKeepsChains(Run(NO_TOKENS, steps[..n], ttl), steps[n].call, steps[n].now, ttl);
    }
  }

  /** Each login's chain has at most one unrevoked token, also when rotations die half way. */
  lemma {:induction false} OneLiveTokenPerLogin(steps: seq<Timed>, ttl: nat, t: nat, u: nat)
    requires FreshRun(NO_TOKENS, steps, ttl)
    ensures var s := Run(NO_TOKENS, steps, ttl);
      (t in s.rows && u in s.rows && s.rows[t].revokedAt == None && s.rows[u].revokedAt == None
       && s.rows[t].login == s.rows[u].login) ==> t == u
  {
    RunKeepsChains(steps, ttl);
    var s := Run(NO_TOKENS, steps, ttl);
    assert Unrevoked(s, t) && Unrevoked(s, u) && s.rows[t].login == s.rows[u].login ==> t == u;
  }

  // ---------------------------------------------- no token rotates twice

  /** Handed out once and never usable again. */
  predicate Spent(s: Store, t: nat) {
    t in s.issued && (t in s.rows ==> s.rows[t].revokedAt.Some?)
  }

  lemma SpentStays(s: Store, c: Call, now: int, ttl: nat, t: nat)
    requires Spent(s, t) && FreshFor(s, c)
    ensures Spent(Serve(s, c, now, ttl), t)
  {
  }

  lemma {:induction false} SpentForever(s: Store, steps: seq<Timed>, ttl: nat, i: nat, j: nat, t: nat)
    requires FreshRun(s, steps, ttl) && i <= j <= |steps| && Spent(Run(s, steps[..i], ttl), t)
    ensures Spent(Run(s, steps[..j], ttl), t)
    decreases j
  {
    if i < j {
      SpentForever(s, steps, ttl, i, j - 1, t);
      assert steps[..j][..j - 1] == steps[..j - 1];
      SpentStays(Run(s, steps[..j - 1], ttl), steps[j - 1].call, steps[j - 1].now, ttl, t);
    }
  }

  /** The outcome of the i-th call of a run. */
  function OutcomeAt(s: Store, steps: seq<Timed>, ttl: nat, i: nat): Outcome
    requires i < |steps|
  {
    Outcomes(Run(s, steps[..i], ttl), steps[i].call, steps[i].now)
  }

  lemma {:induction false} NoTokenRotatesTwice(steps: seq<Timed>, ttl: nat, i: nat, j: nat)
    requires FreshRun(NO_TOKENS, steps, ttl) && i < j < |steps|
    requires steps[i].call.Rotate? && OutcomeAt(NO_TOKENS, steps, ttl, i).Rotated?
    requires steps[j].call.Rotate? && steps[j].call.presented == steps[i].call.presented
    ensures !OutcomeAt(NO_TOKENS, steps, ttl, j).Rotated?
  {
    var t := steps[i].call.presented;
    var s := Run(NO_TOKENS, steps[..i], ttl);
    forall k | 0 <= k < i ensures steps[..i][..k] == steps[..k] && steps[..i][k] == steps[k] {}
    RunKeepsChains(steps[..i], ttl);
    assert steps[..i + 1][..i] == steps[..i];
    assert Spent(Serve(s, steps[i].call, steps[i].now, ttl), t);
    SpentForever(NO_TOKENS, steps, ttl, i + 1, j, t);
  }

  // ------------------------------------------------- what a rotation looks at

  /** A token rotates iff its row is there, is not revoked and has not expired; a row that fails one
      of the last two is taken for a replay; without a row the token is unknown. */
  lemma RotationIff(s: Store, presented: nat, raw: nat, crash: bool, now: int)
    ensures var out := Outcomes(s, Rotate(presented, raw, crash), now);
      && (out == NotFound <==> presented !in s.rows)
      && (out == (if crash then Died else Rotated(raw)) <==>
            presented in s.rows && s.rows[presented].revokedAt == None && now <= s.rows[presented].expiresAt)
      && (out == Reuse <==>
            presented in s.rows && (s.rows[presented].revokedAt != None || now > s.rows[presented].expiresAt))
  {
  }

  /** What a rotation writes: the old row is revoked and a new one continues its chain, valid for the
      lifetime; on a replay every open row of the user is revoked. */
  lemma RotationTables(s: Store, presented: nat, raw: nat, crash: bool, now: int, ttl: nat)
    requires raw !in s.rows
    ensures var t := Serve(s, Rotate(presented, raw, crash), now, ttl);
      if presented !in s.rows then t == s
      else
        var row := s.rows[presented];
        if row.revokedAt == None && now <= row.expiresAt
        then t.rows == if crash then s.rows[presented := row.(revokedAt := Some(now))]
                       else s.rows[presented := row.(revokedAt := Some(now))]
                                  [raw := Row(row.user, row.login, now + ttl, None)]
        else
          && t.rows.Keys == s.rows.Keys
          && forall x :: x in s.rows ==>
               t.rows[x] == if s.rows[x].user == row.user && s.rows[x].revokedAt == None
                            then s.rows[x].(revokedAt := Some(now)) else s.rows[x]
  {
  }

  /** What the other calls write. */
  lemma OtherTables(s: Store, user: nat, raw: nat, presented: nat, now: int, ttl: nat)
    ensures Serve(s, Login(user, raw), now, ttl).rows == s.rows[raw := Row(user, raw, now + ttl, None)]
    ensures var t := Serve(s, Logout(presented), now, ttl);
      t.rows == if presented in s.rows && s.rows[presented].revokedAt == None
                then s.rows[presented := s.rows[presented].(revokedAt := Some(now))] else s.rows
    ensures var t := Serve(s, RevokeAll(user), now, ttl);
      && t.rows.Keys == s.rows.Keys
      && forall x :: x in s.rows ==>
           t.rows[x] == if s.rows[x].user == user && s.rows[x].revokedAt == None
                        then s.rows[x].(revokedAt := Some(now)) else s.rows[x]
    ensures var t := Serve(s, Cleanup, now, ttl);
      && (forall x :: x in t.rows <==> x in s.rows && s.rows[x].revokedAt == None && now <= s.rows[x].expiresAt)
      && forall x :: x in t.rows ==> t.rows[x] == s.rows[x]
  {
  }

  /** The call hands out token t. */
  predicate HandsOut(s: Store, step: Timed, t: nat) {
    || (step.call.Login? && step.call.raw == t)
    || (step.call.Rotate? && step.call.raw == t && Outcomes(s, step.call, step.now) == Rotated(t))
  }

  /** Every row expires one lifetime after the call that handed its token out. */
  ghost predicate Dated(steps: seq<Timed>, ttl: nat) {
    var s := Run(NO_TOKENS, steps, ttl);
    forall t :: t in s.rows ==> exists i | 0 <= i < |steps| ::
      HandsOut(Run(NO_TOKENS, steps[..i], ttl), steps[i], t) && s.rows[t].expiresAt == steps[i].now + ttl
  }

  lemma {:induction false} RunIsDated(steps: seq<Timed>, ttl: nat)
    ensures Dated(steps, ttl)
  {
    if steps != [] {
      var n := |steps| - 1;
      var front, last := steps[..n], steps[n];
      RunIsDated(front, ttl);
      var s, u := Run(NO_TOKENS, front, ttl), Run(NO_TOKENS, steps, ttl);
      forall t | t in u.rows
        ensures exists i | 0 <= i < |steps| ::
          HandsOut(Run(NO_TOKENS, steps[..i], ttl), steps[i], t) && u.rows[t].expiresAt == steps[i].now + ttl
      {
        if HandsOut(s, last, t) {
          assert steps[..n] == front && u.rows[t].expiresAt == steps[n].now + ttl;
        } else {
          KeepsDate(s, last, ttl, t);
          var i :| 0 <= i < n && HandsOut(Run(NO_TOKENS, front[..i], ttl), front[i], t)
                   && s.rows[t].expiresAt == front[i].now + ttl;
          assert front[..i] == steps[..i] && front[i] == steps[i];
        }
      }
    }
  }

  /** A call that does not hand out a token leaves its expiry as it is. */
  lemma KeepsDate(s: Store, step: Timed, ttl: nat, t: nat)
    requires t in Serve(s, step.call, step.now, ttl).rows && !HandsOut(s, step, t)
    ensures t in s.rows && Serve(s, step.call, step.now, ttl).rows[t].expiresAt == s.rows[t].expiresAt
  {
  }

  /** No token rotates later than one lifetime after it was handed out. */
  lemma {:induction false} NoLateRotation(steps: seq<Timed>, ttl: nat, j: nat)
    requires j < |steps| && steps[j].call.Rotate? && OutcomeAt(NO_TOKENS, steps, ttl, j).Rotated?
    ensures exists i | 0 <= i < j ::
      HandsOut(Run(NO_TOKENS, steps[..i], ttl), steps[i], steps[j].call.presented)
      && steps[j].now <= steps[i].now + ttl
  {
    RunIsDated(steps[..j], ttl);
    var s, t := Run(NO_TOKENS, steps[..j], ttl), steps[j].call.presented;
    RotationIff(s, t, steps[j].call.raw, steps[j].call.crash, steps[j].now);
    var i :| 0 <= i < j && HandsOut(Run(NO_TOKENS, steps[..j][..i], ttl), steps[..j][i], t)
             && s.rows[t].expiresAt == steps[..j][i].now + ttl;
    assert steps[..j][..i] == steps[..i] && steps[..j][i] == steps[i];
  }

  // ---------------------------------------------------------- cleanup

  /** One call of a run, with the instants of the cleanups that run just before it. */
  datatype Step = Step(call: Call, now: int, cleaned: seq<int>)

  /** The run without its cleanups, and with them. */
  function Plain(s: Store, steps: seq<Step>, ttl: nat): Store {
    if steps == [] then s
    else
      var last := steps[|steps| - 1];
      Serve(Plain(s, steps[..|steps| - 1], ttl), last.call, last.now, ttl)
  }

  function Swept(s: Store, cleaned: seq<int>, ttl: nat): Store {
    if cleaned == [] then s
    else Serve(Swept(s, cleaned[..|cleaned| - 1], ttl), Cleanup, cleaned[|cleaned| - 1], ttl)
  }

  function Cleaned(s: Store, steps: seq<Step>, ttl: nat): Store {
    if steps == [] then s
    else
      var last := steps[|steps| - 1];
      Serve(Swept(Cleaned(s, steps[..|steps| - 1], ttl), last.cleaned, ttl), last.call, last.now, ttl)
  }

  function ClockOf(start: int, steps: seq<Step>): int {
    if steps == [] then start else steps[|steps| - 1].now
  }

  /** The clock never runs backwards, and a rotation never presents a token whose row is dead. */
  predicate Orderly(s: Store, start: int, steps: seq<Step>, ttl: nat) {
    forall i :: 0 <= i < |steps| ==>
      && ClockOf(start, steps[..i]) <= steps[i].now
      && (forall k :: 0 <= k < |steps[i].cleaned| ==> steps[i].cleaned[k] <= steps[i].now)
      && PresentsNoDead(Plain(s, steps[..i], ttl), steps[i].call, steps[i].now)
      && FreshFor(Plain(s, steps[..i], ttl), steps[i].call)
  }

  predicate PresentsNoDead(s: Store, c: Call, now: int) {
    c.Rotate? && c.presented in s.rows ==> !Dead(s.rows[c.presented], now)
  }

  /** The cleaned table is the plain one less some rows that are dead by now. */
  predicate Thinned(p: Store, c: Store, now: int) {
    && c.issued == p.issued
    && (forall t :: t in c.rows ==> t in p.rows && c.rows[t] == p.rows[t])
    && (forall t :: t in p.rows && t !in c.rows ==> Dead(p.rows[t], now))
  }

  lemma {:induction false} CleanupsThin(p: Store, c: Store, at: int, cleaned: seq<int>, now: int, ttl: nat)
    requires Thinned(p, c, at) && at <= now && forall k :: 0 <= k < |cleaned| ==> cleaned[k] <= now
    ensures Thinned(p, Swept(c, cleaned, ttl), now)
  {
    if cleaned != [] { CleanupsThin(p, c, at, cleaned[..|cleaned| - 1], now, ttl); }
  }

  lemma ServeThinned(p: Store, c: Store, call: Call, now: int, ttl: nat)
    requires Thinned(p, c, now) && PresentsNoDead(p, call, now)
    ensures Thinned(Serve(p, call, now, ttl), Serve(c, call, now, ttl), now)
    ensures Outcomes(p, call, now) == Outcomes(c, call, now)
  {
  }

  lemma {:induction false} CleanedIsThinned(s: Store, start: int, steps: seq<Step>, ttl: nat)
    requires Orderly(s, start, steps, ttl)
    ensures Thinned(Plain(s, steps, ttl), Cleaned(s, steps, ttl), ClockOf(start, steps))
  {
    if steps != [] {
      var n := |steps| - 1;
      var front, last := steps[..n], steps[n];
      forall i | 0 <= i < n ensures front[..i] == steps[..i] && front[i] == steps[i] {}
      CleanedIsThinned(s, start, front, ttl);
      var p, c := Plain(s, front, ttl), Cleaned(s, front, ttl);
      CleanupsThin(p, c, ClockOf(start, front), last.cleaned, last.now, ttl);
      ServeThinned(p, Swept(c, last.cleaned, ttl), last.call, last.now, ttl);
    }
  }

  /** Any number of cleanups inserted anywhere into a run that presents no dead token, the end
      included, change no outcome and no live row. */
  lemma {:induction false} CleanupIsTransparent(s: Store, start: int, steps: seq<Step>, ttl: nat, i: nat,
                                                after: seq<int>, now: int)
    requires Orderly(s, start, steps, ttl) && i < |steps|
    requires ClockOf(start, steps) <= now && forall k :: 0 <= k < |after| ==> after[k] <= now
    ensures Outcomes(Plain(s, steps[..i], ttl), steps[i].call, steps[i].now)
            == Outcomes(Swept(Cleaned(s, steps[..i], ttl), steps[i].cleaned, ttl), steps[i].call, steps[i].now)
    ensures DeleteDead(Plain(s, steps, ttl).rows, now)
            == DeleteDead(Swept(Cleaned(s, steps, ttl), after, ttl).rows, now)
  {
    var front := steps[..i];
    forall k | 0 <= k < i ensures front[..k] == steps[..k] && front[k] == steps[k] {}
    CleanedIsThinned(s, start, front, ttl);
    var p, c := Plain(s, front, ttl), Cleaned(s, front, ttl);
    CleanupsThin(p, c, ClockOf(start, front), steps[i].cleaned, steps[i].now, ttl);
    ServeThinned(p, Swept(c, steps[i].cleaned, ttl), steps[i].call, steps[i].now, ttl);
    CleanedIsThinned(s, start, steps, ttl);
    CleanupsThin(Plain(s, steps, ttl), Cleaned(s, steps, ttl), ClockOf(start, steps), after, now, ttl);
  }

  /** Deleting dead rows is not pure housekeeping: it changes what a rotation does exactly when
      the token presented has a dead row and its user still has a live session, which the reuse
      response would have ended. */
  lemma CleanupMattersIff(s: Store, presented: nat, raw: nat, crash: bool, now: int, ttl: nat)
    requires raw !in s.rows
    ensures var call := Rotate(presented, raw, crash);
      Outcomes(s, call, now) != Outcomes(Serve(s, Cleanup, now, ttl), call, now) <==>
        presented in s.rows && Dead(s.rows[presented], now)
    ensures var without := Serve(s, Rotate(presented, raw, crash), now, ttl);
      var after := Serve(Serve(s, Cleanup, now, ttl), Rotate(presented, raw, crash), now, ttl);
      DeleteDead(without.rows, now) != DeleteDead(after.rows, now) <==>
        && presented in s.rows && Dead(s.rows[presented], now)
        && exists t :: t in s.rows && !Dead(s.rows[t], now) && s.rows[t].user == s.rows[presented].user
  {
    var call := Rotate(presented, raw, crash);
    var without := Serve(s, call, now, ttl);
    var clean := Serve(s, Cleanup, now, ttl);
    var after := Serve(clean, call, now, ttl);
    if presented in s.rows && Dead(s.rows[presented], now) {
      assert after == clean;
      if t :| t in s.rows && !Dead(s.rows[t], now) && s.rows[t].user == s.rows[presented].user {
        assert t in DeleteDead(after.rows, now) && t !in DeleteDead(without.rows, now);
      }
    } else {
      assert Thinned(s, clean, now);
      ServeThinned(s, clean, call, now, ttl);
    }
  }

  // A user logs in twice, and the first session rotates its token.
  const TWO_SESSIONS := [Timed(Login(7, 1), 0)] + [Timed(Login(7, 2), 1)] + [Timed(Rotate(1, 3, false), 2)]
  const REPLAY := Rotate(1, 4, false)

  lemma RunNext(steps: seq<Timed>, last: Timed, ttl: nat)
    ensures Run(NO_TOKENS, steps + [last], ttl) == Serve(Run(NO_TOKENS, steps, ttl), last.call, last.now, ttl)
  {
    assert (steps + [last])[..|steps|] == steps;
  }

  lemma TwoSessionsRun()
    ensures Run(NO_TOKENS, TWO_SESSIONS, 100)
            == Store(map[1 := Row(7, 1, 100, Some(2)), 2 := Row(7, 2, 101, None), 3 := Row(7, 1, 102, None)], {1, 2, 3})
  {
    assert [] + [Timed(Login(7, 1), 0)] == [Timed(Login(7, 1), 0)];
    RunNext([], Timed(Login(7, 1), 0), 100);
    RunNext([Timed(Login(7, 1), 0)], Timed(Login(7, 2), 1), 100);
    RunNext([Timed(Login(7, 1), 0)] + [Timed(Login(7, 2), 1)], Timed(Rotate(1, 3, false), 2), 100);
  }

  /** Replaying the rotated token ends both sessions; after a cleanup it ends neither. */
  lemma CleanupCanHideReuse()
    ensures var s := Run(NO_TOKENS, TWO_SESSIONS, 100);
      && Outcomes(s, REPLAY, 4) == Reuse
      && !Unrevoked(Serve(s, REPLAY, 4, 100), 2) && !Unrevoked(Serve(s, REPLAY, 4, 100), 3)
    ensures var s := Run(NO_TOKENS, TWO_SESSIONS + [Timed(Cleanup, 3)], 100);
      && Outcomes(s, REPLAY, 4) == NotFound
      && Unrevoked(Serve(s, REPLAY, 4, 100), 2) && Unrevoked(Serve(s, REPLAY, 4, 100), 3)
  {
    TwoSessionsRun();
    RunNext(TWO_SESSIONS, Timed(Cleanup, 3), 100);
  }

  // ------------------------------------------------------- the service

  /** The table and the statements and service calls on it. */
  class Server {
    var rows: map<nat, Row>
    ghost var issued: set<nat>
    const ttl: nat

    ghost function Snapshot(): Store
      reads this
    {
      Store(rows, issued)
    }

    constructor (ttl: nat)
      ensures Snapshot() == NO_TOKENS && this.ttl == ttl
    {
      this.rows, this.issued, this.ttl := map[], {}, ttl;
    }

    method FindRefreshTokenByHash(raw: nat) returns (record: Option<Row>)
      ensures record.Some? <==> raw in rows
      ensures record.Some? ==> record.value == rows[raw]
    {
      if raw in rows { return Some(rows[raw]); }
      return None;
    }

    method RevokeRefreshToken(raw: nat, now: int)
      requires raw in rows
      modifies `rows
      ensures rows.Keys == old(rows).Keys
      ensures forall t :: t in rows ==>
        rows[t] == if t == raw then old(rows)[t].(revokedAt := Some(now)) else old(rows)[t]
    {
      rows := rows[raw := rows[raw].(revokedAt := Some(now))];
    }

    method RevokeAllUserRefreshTokens(user: nat, now: int)
      modifies `rows
      ensures Snapshot() == Serve(old(Snapshot()), RevokeAll(user), now, ttl)
      ensures forall t :: t in rows && rows[t].user == user ==> rows[t].revokedAt.Some?
    {
      rows := map t | t in rows :: if rows[t].user == user && rows[t].revokedAt == None
                                   then rows[t].(revokedAt := Some(now)) else rows[t];
    }

    method DeleteExpiredRefreshTokens(now: int) returns (count: int)
      modifies `rows
      ensures Snapshot() == Serve(old(Snapshot()), Cleanup, now, ttl)
      ensures count == |old(rows)| - |rows|
      ensures forall t :: t in rows <==>
        t in old(rows) && old(rows)[t].revokedAt == None && now <= old(rows)[t].expiresAt
      ensures forall t :: t in rows ==> rows[t] == old(rows)[t]
    {
      var before := |rows|;
      rows := map t | t in rows && !(rows[t].expiresAt < now || rows[t].revokedAt != None) :: rows[t];
      count := before - |rows|;
    }

    method IssueRefreshToken(user: nat, login: nat, raw: nat, now: int)
      modifies `rows, `issued
      ensures Snapshot() == Issue(old(Snapshot()), user, login, raw, now, ttl)
    {
      rows := rows[raw := Row(user, login, now + ttl, None)];
      issued := issued + {raw};
    }

    /** `crash` models a process that dies between revoking the old row and creating the new. */
    method RotateRefreshToken(presented: nat, raw: nat, crash: bool, now: int) returns (out: Outcome)
      modifies `rows, `issued
      ensures Snapshot() == Serve(old(Snapshot()), Rotate(presented, raw, crash), now, ttl)
      ensures out == Outcomes(old(Snapshot()), Rotate(presented, raw, crash), now)
      ensures out == (if crash then Died else Rotated(raw)) <==>
        presented in old(rows) && old(rows)[presented].revokedAt == None && now <= old(rows)[presented].expiresAt
      ensures out == Reuse <==>
        presented in old(rows) && (old(rows)[presented].revokedAt != None || now > old(rows)[presented].expiresAt)
      ensures out == Reuse ==>
        forall t :: t in rows && rows[t].user == old(rows)[presented].user ==> rows[t].revokedAt.Some?
    {
      var record := FindRefreshTokenByHash(presented);
      if record == None { return NotFound; }
      var row := record.value;
      if row.revokedAt != None || row.expiresAt < now {
        RevokeAllUserRefreshTokens(row.user, now);
        return Reuse;
      }
      RevokeRefreshToken(presented, now);
      assert rows == Revoked(old(rows), presented, now);
      if crash { return Died; }
      IssueRefreshToken(row.user, row.login, raw, now);
      return Rotated(raw);
    }

    method RevokeRefreshTokenByRaw(presented: nat, now: int)
      modifies `rows
      ensures Snapshot() == Serve(old(Snapshot()), Logout(presented), now, ttl)
      ensures presented in rows ==> rows[presented].revokedAt.Some?
    {
      var record := FindRefreshTokenByHash(presented);
      if record.Some? && record.value.revokedAt == None {
        RevokeRefreshToken(presented, now);
        assert rows == Revoked(old(rows), presented, now);
      }
    }
  }
}
