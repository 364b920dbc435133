/** The browser client's coalesced refresh against the server's rotation, interleaved statement
    by statement: many requests meet a 401 at once, one promise refreshes for all of them, and
    the server looks up, revokes and re-issues in three separate statements. */
module RefreshProtocol {
  import opened Options
  import T = Tokens

  datatype Session = Session(access: nat, refresh: nat)

  /** One call of doRefresh.  The first four stages wait for the server, `Replied` and `Refused`
      are on the wire back, `Updated` and `Rejected` still have to run `finally`. */
  datatype Refresh =
    | Sent(token: nat)
    | Found(token: nat, row: T.Row)
    | Revoked(token: nat, row: T.Row)
    | Replied(access: nat, refresh: nat)
    | Refused
    | Updated(access: nat)
    | Rejected
    | Settled(result: Option<nat>)

  datatype Request = Open | Awaiting(refresh: nat) | Retrying(access: nat) | Done | Failed

  /** What the client's module variable, stored session and suspended calls hold. */
  datatype Client = Client(session: Option<Session>, refreshInFlight: Option<nat>,
                           refreshes: seq<Refresh>, requests: map<nat, Request>)

  /** `own` are the tokens issued to this client, `presented` those the server has looked up for
      it, in order, and `reuses` counts how often that ended in the reuse branch. */
  datatype Net = Net(client: Client, rows: map<nat, T.Row>, issued: set<nat>,
                     own: set<nat>, presented: seq<nat>, reuses: nat)

  datatype Step =
    | Login(session: Session, row: T.Row)
    | Begin(request: nat)
    | Answer(request: nat)                    // any response but a 401
    | Unauthorized(request: nat)
    | Find(refresh: nat, now: int)
    | Revoke(refresh: nat, now: int)
    | Create(refresh: nat, raw: nat, access: nat, now: int, ttl: nat)
    | Receive(refresh: nat)
    | Clear(refresh: nat)
    | Resume(request: nat)
    | Retried(request: nat)
    | RetryLost(request: nat)
    | Elsewhere(rows: map<nat, T.Row>, issued: set<nat>)

  // ---------------------------------------------------------- the client

  /** A 401: join the refresh in flight, or start one and send it. */
  function OnUnauthorized(c: Client, r: nat): Client {
    if c.refreshInFlight.Some? then
      c.(requests := c.requests[r := Awaiting(c.refreshInFlight.value)])
    else
      var started := if c.session.Some? then Sent(c.session.value.refresh) else Rejected;
      c.(refreshInFlight := Some(|c.refreshes|), refreshes := c.refreshes + [started],
         requests := c.requests[r := Awaiting(|c.refreshes|)])
  }

  function OnReply(c: Client, p: nat): Client
    requires p < |c.refreshes| && (c.refreshes[p].Replied? || c.refreshes[p].Refused?)
  {
    match c.refreshes[p]
    case Replied(access, refresh) =>
      c.(session := if c.session.Some? then Some(Session(access, refresh)) else None,
         refreshes := c.refreshes[p := Updated(access)])
    case Refused => c.(refreshes := c.refreshes[p := Rejected])
  }

  function OnFinally(c: Client, p: nat): Client
    requires p < |c.refreshes| && (c.refreshes[p].Updated? || c.refreshes[p].Rejected?)
  {
    var result := if c.refreshes[p].Updated? then Some(c.refreshes[p].access) else None;
    c.(refreshInFlight := None, refreshes := c.refreshes[p := Settled(result)])
  }

  function OnSettled(c: Client, r: nat): Client
    requires r in c.requests && c.requests[r].Awaiting?
    requires c.requests[r].refresh < |c.refreshes| && c.refreshes[c.requests[r].refresh].Settled?
  {
    match c.refreshes[c.requests[r].refresh].result
    case Some(access) => c.(requests := c.requests[r := Retrying(access)])
    case None => c.(session := None, requests := c.requests[r := Failed])
  }

  // ------------------------------------------------------- one step of a run

  predicate At(n: Net, p: nat) { p < |n.client.refreshes| }

  /** What code and network can do next. */
  predicate Allowed(n: Net, s: Step) {
    var c := n.client;
    match s
    case Login(session, row) => session.refresh !in n.issued && row.revokedAt == None
    case Begin(r) => r !in c.requests && c.session.Some?
    case Answer(r) => r in c.requests && c.requests[r].Open?
    case Unauthorized(r) => r in c.requests && c.requests[r].Open?
    case Find(p, now) => At(n, p) && c.refreshes[p].Sent?
    case Revoke(p, now) => At(n, p) && c.refreshes[p].Found? && c.refreshes[p].token in n.rows
    case Create(p, raw, access, now, ttl) => At(n, p) && c.refreshes[p].Revoked? && raw !in n.issued
    case Receive(p) => At(n, p) && (c.refreshes[p].Replied? || c.refreshes[p].Refused?)
    case Clear(p) => At(n, p) && (c.refreshes[p].Updated? || c.refreshes[p].Rejected?)
    case Resume(r) => r in c.requests && c.requests[r].Awaiting? && At(n, c.requests[r].refresh)
                      && c.refreshes[c.requests[r].refresh].Settled?
    case Retried(r) => r in c.requests && c.requests[r].Retrying?
    case RetryLost(r) => r in c.requests && c.requests[r].Retrying?
    case Elsewhere(rows, issued) => n.issued <= issued
  }

  /** No token of this client expires before its use or is revoked by anyone else.  Every other
      session, the cleanup job included, may do as it likes with the table. */
  predicate Undisturbed(n: Net, s: Step) {
    match s
    case Find(p, now) =>
      At(n, p) && n.client.refreshes[p].Sent? && n.client.refreshes[p].token in n.rows
      ==> now <= n.rows[n.client.refreshes[p].token].expiresAt
    case Elsewhere(rows, issued) => forall t :: t in n.own && Live(n, t) ==> t in rows && rows[t] == n.rows[t]
    case _ => true
  }

  predicate Live(n: Net, t: nat) {
    t in n.rows && n.rows[t].revokedAt == None
  }

  function LookUp(n: Net, p: nat, now: int): Net
    requires At(n, p) && n.client.refreshes[p].Sent?
  {
    var c, token := n.client, n.client.refreshes[p].token;
    var seen := n.(presented := n.presented + [token]);
    if token !in n.rows then seen.(client := c.(refreshes := c.refreshes[p := Refused]))
    else if T.Dead(n.rows[token], now) then
      seen.(client := c.(refreshes := c.refreshes[p := Refused]), reuses := n.reuses + 1,
            rows := T.RevokeUser(n.rows, n.rows[token].user, now))
    else seen.(client := c.(refreshes := c.refreshes[p := Found(token, n.rows[token])]))
  }

  function Do(n: Net, s: Step): Net
    requires Allowed(n, s)
  {
    var c := n.client;
    match s
    case Login(session, row) =>
      n.(client := c.(session := Some(session)), rows := n.rows[session.refresh := row],
         issued := n.issued + {session.refresh}, own := n.own + {session.refresh})
    case Begin(r) => n.(client := c.(requests := c.requests[r := Open]))
    case Answer(r) => n.(client := c.(requests := c.requests[r := Done]))
    case Unauthorized(r) => n.(client := OnUnauthorized(c, r))
    case Find(p, now) => LookUp(n, p, now)
    case Revoke(p, now) =>
      var found := c.refreshes[p];
      n.(rows := T.Revoked(n.rows, found.token, now),
         client := c.(refreshes := c.refreshes[p := Revoked(found.token, found.row)]))
    case Create(p, raw, access, now, ttl) =>
      var row := c.refreshes[p].row;
      n.(rows := n.rows[raw := T.Row(row.user, row.login, now + ttl, None)],
         issued := n.issued + {raw}, own := n.own + {raw},
         client := c.(refreshes := c.refreshes[p := Replied(access, raw)]))
    case Receive(p) => n.(client := OnReply(c, p))
    case Clear(p) => n.(client := OnFinally(c, p))
    case Resume(r) => n.(client := OnSettled(c, r))
    case Retried(r) => n.(client := c.(requests := c.requests[r := Done]))
    case RetryLost(r) => n.(client := c.(session := None, requests := c.requests[r := Failed]))
    case Elsewhere(rows, issued) => n.(rows := rows, issued := issued)
  }

  const START := Net(Client(None, None, [], map[]), map[], {}, {}, [], 0)

  /** The states after each step of a run; a step that is not allowed leaves the state alone. */
  function Run(steps: seq<Step>): Net {
    if steps == [] then START
    else
      var n, last := Run(steps[..|steps| - 1]), steps[|steps| - 1];
      if Allowed(n, last) then Do(n, last) else n
  }

  predicate UndisturbedRun(steps: seq<Step>) {
    forall i :: 0 <= i < |steps| ==> Undisturbed(Run(steps[..i]), steps[i])
  }

  // ---------------------------------------------------------- the invariant

  /** A token that would rotate if it were presented, and never was. */
  predicate Usable(n: Net, t: nat) {
    t in n.own && Live(n, t) && t !in n.presented
  }

  /** At most one refresh is unsettled, and it is the one in flight. */
  predicate OneInFlight(c: Client) {
    && (c.refreshInFlight.Some? ==>
          c.refreshInFlight.value < |c.refreshes| && !c.refreshes[c.refreshInFlight.value].Settled?)
    && (forall p :: 0 <= p < |c.refreshes| && c.refreshInFlight != Some(p) ==> c.refreshes[p].Settled?)
  }

  predicate RefreshOk(n: Net, f: Refresh) {
    match f
    case Sent(t) => Usable(n, t)
    case Found(t, row) => t in n.own && Live(n, t) && t in n.presented
    case Replied(access, t) => Usable(n, t)
    case Refused => false
    case _ => true
  }

  predicate Pending(f: Refresh) {
    f.Sent? || f.Found? || f.Revoked? || f.Replied?
  }

  predicate RefreshesOk(n: Net) {
    forall p :: 0 <= p < |n.client.refreshes| ==> RefreshOk(n, n.client.refreshes[p])
  }

  /** With no answer outstanding the stored token is usable. */
  predicate SessionOk(n: Net) {
    var c := n.client;
    c.session.Some? ==>
      || (c.refreshInFlight.Some? && c.refreshInFlight.value < |c.refreshes|
          && Pending(c.refreshes[c.refreshInFlight.value]))
      || Usable(n, c.session.value.refresh)
  }

  predicate HistoryOk(n: Net) {
    && n.own <= n.issued
    && (forall i :: 0 <= i < |n.presented| ==> n.presented[i] in n.issued)
    && (forall i, j :: 0 <= i < j < |n.presented| ==> n.presented[i] != n.presented[j])
    && n.reuses == 0
  }

  predicate Inv(n: Net) {
    OneInFlight(n.client) && RefreshesOk(n) && SessionOk(n) && HistoryOk(n)
  }

  lemma StepKeepsHistory(n: Net, s: Step)
    requires Inv(n) && Allowed(n, s) && Undisturbed(n, s)
    ensures HistoryOk(Do(n, s))
  {
  }

  lemma StepKeepsOneInFlight(n: Net, s: Step)
    requires Inv(n) && Allowed(n, s)
    ensures OneInFlight(Do(n, s).client)
  {
  }

  lemma StepKeepsRefreshes(n: Net, s: Step)
    requires Inv(n) && Allowed(n, s) && Undisturbed(n, s)
    ensures RefreshesOk(Do(n, s))
  {
    var m := Do(n, s);
    forall p | 0 <= p < |m.client.refreshes| ensures RefreshOk(m, m.client.refreshes[p]) {
      if p < |n.client.refreshes| {
        assert RefreshOk(n, n.client.refreshes[p]);
      }
    }
  }

  lemma StepKeepsSession(n: Net, s: Step)
    requires Inv(n) && Allowed(n, s) && Undisturbed(n, s)
    ensures SessionOk(Do(n, s))
  {
  }

  lemma {:induction false} RunKeeps(steps: seq<Step>)
    requires UndisturbedRun(steps)
    ensures Inv(Run(steps))
  {
    if steps != [] {
      var k := |steps| - 1;
      forall i | 0 <= i < k ensures steps[..k][..i] == steps[..i] && steps[..k][i] == steps[i] {}
      RunKeeps(steps[..k]);
      var n, s := Run(steps[..k]), steps[k];
      if Allowed(n, s) {
        StepKeepsHistory(n, s);
        StepKeepsOneInFlight(n, s);
        StepKeepsRefreshes(n, s);
        StepKeepsSession(n, s);
      }
    }
  }

  /** However many requests meet a 401 together, the server never sees a rotated token again:
      each refresh token is presented at most once and the reuse branch is never taken. */
  lemma {:induction false} ReuseIsNeverReached(steps: seq<Step>, i: nat, j: nat)
    requires UndisturbedRun(steps)
    ensures Run(steps).reuses == 0
    ensures i < j < |Run(steps).presented| ==> Run(steps).presented[i] != Run(steps).presented[j]
  {
    RunKeeps(steps);
  }

  /** Whenever no refresh is in flight the stored token is live and was never presented, so the
      next refresh will rotate it; and two refreshes are never unsettled together. */
  lemma {:induction false} NextRefreshRotates(steps: seq<Step>, p: nat, q: nat)
    requires UndisturbedRun(steps)
    ensures var n := Run(steps);
      n.client.session.Some? && n.client.refreshInFlight == None ==>
        var t := n.client.session.value.refresh;
        t in n.rows && n.rows[t].revokedAt == None && t !in n.presented
    ensures var c := Run(steps).client;
      p < q < |c.refreshes| ==> c.refreshes[p].Settled? || c.refreshes[q].Settled?
  {
    RunKeeps(steps);
  }

  // ------------------------------------------------- no request is lost to a refresh

  predicate RefreshSucceeds(f: Refresh) {
    !f.Refused? && !f.Rejected? && (f.Settled? ==> f.result.Some?)
  }

  /** Nobody who made a request has lost the session, and no refresh has failed. */
  predicate Unharmed(c: Client) {
    && (c.requests != map[] ==> c.session.Some?)
    && (forall p :: 0 <= p < |c.refreshes| ==> RefreshSucceeds(c.refreshes[p]))
    && (forall r :: r in c.requests ==> !c.requests[r].Failed?)
  }

  lemma StepKeepsUnharmed(n: Net, s: Step)
    requires Inv(n) && Unharmed(n.client) && Allowed(n, s) && Undisturbed(n, s) && !s.RetryLost?
    ensures Unharmed(Do(n, s).client)
  {
    if s.Find? {
      assert RefreshOk(n, n.client.refreshes[s.refresh]);
    }
    if s.Resume? {
      assert RefreshSucceeds(n.client.refreshes[n.client.requests[s.request].refresh]);
    }
    if s.Clear? || s.Receive? {
      assert RefreshSucceeds(n.client.refreshes[s.refresh]);
    }
  }

  /** Unless the network drops a retry, no request ever fails because of a refresh and the user
      is never logged out. */
  lemma {:induction false} NoRequestFails(steps: seq<Step>, r: nat)
    requires UndisturbedRun(steps) && forall i :: 0 <= i < |steps| ==> !steps[i].RetryLost?
    ensures var c := Run(steps).client;
      r in c.requests ==> c.session.Some? && !c.requests[r].Failed?
    ensures Unharmed(Run(steps).client)
  {
    if steps != [] {
      var k := |steps| - 1;
      forall i | 0 <= i < k ensures steps[..k][..i] == steps[..i] && steps[..k][i] == steps[i] {}
      NoRequestFails(steps[..k], r);
      RunKeeps(steps[..k]);
      if Allowed(Run(steps[..k]), steps[k]) {
        StepKeepsUnharmed(Run(steps[..k]), steps[k]);
      }
    }
  }

  // ------------------------------------------------------ what a retry carries

  /** Step i of the run takes place. */
  predicate Happens(steps: seq<Step>, i: nat) {
    i < |steps| && Allowed(Run(steps[..i]), steps[i])
  }

  /** Some refresh of the run brought this access token back. */
  predicate Issued(steps: seq<Step>, access: nat) {
    exists i: nat :: i < |steps| && Happens(steps, i) && steps[i].Create? && steps[i].access == access
  }

  /** The step hands these two tokens out. */
  predicate Hands(step: Step, s: Session) {
    (step.Login? && step.session == s) || (step.Create? && step.access == s.access && step.raw == s.refresh)
  }

  predicate HandedOut(steps: seq<Step>, s: Session) {
    exists i: nat :: i < |steps| && Happens(steps, i) && Hands(steps[i], s)
  }

  predicate CarriesIssued(steps: seq<Step>, f: Refresh) {
    match f
    case Replied(access, refresh) => Issued(steps, access) && HandedOut(steps, Session(access, refresh))
    case Updated(access) => Issued(steps, access)
    case Settled(result) => result.Some? ==> Issued(steps, result.value)
    case _ => true
  }

  ghost predicate TokensOk(steps: seq<Step>, c: Client) {
    && (forall p :: 0 <= p < |c.refreshes| ==> CarriesIssued(steps, c.refreshes[p]))
    && (forall r :: r in c.requests && c.requests[r].Retrying? ==> Issued(steps, c.requests[r].access))
    && (c.session.Some? ==> HandedOut(steps, c.session.value))
  }

  lemma LongerRun(front: seq<Step>, s: Step)
    ensures forall a :: Issued(front, a) ==> Issued(front + [s], a)
    ensures forall x :: HandedOut(front, x) ==> HandedOut(front + [s], x)
    ensures Allowed(Run(front), s) && s.Create? ==> Issued(front + [s], s.access)
    ensures Allowed(Run(front), s) ==> forall x :: Hands(s, x) ==> HandedOut(front + [s], x)
  {
    var steps, n := front + [s], |front|;
    assert steps[..n] == front && steps[n] == s;
    forall i: nat | i < n ensures Happens(steps, i) == Happens(front, i) && steps[i] == front[i] {
      assert steps[..i] == front[..i];
    }
    if Allowed(Run(front), s) { assert Happens(steps, n); }
    forall a | Issued(front, a) ensures Issued(steps, a) {
      var i: nat :| i < n && Happens(front, i) && front[i].Create? && front[i].access == a;
      assert Happens(steps, i) && steps[i].access == a;
    }
    forall x | HandedOut(front, x) ensures HandedOut(steps, x) {
      var i: nat :| i < n && Happens(front, i) && Hands(front[i], x);
      assert Happens(steps, i) && Hands(steps[i], x);
    }
  }

  lemma RefreshKeepsTokens(front: seq<Step>, n: Net, s: Step, p: nat)
    requires n == Run(front) && TokensOk(front, n.client) && Allowed(n, s) && p < |Do(n, s).client.refreshes|
    ensures CarriesIssued(front + [s], Do(n, s).client.refreshes[p])
  {
    LongerRun(front, s);
    if p < |n.client.refreshes| { assert CarriesIssued(front, n.client.refreshes[p]); }
  }

  lemma RequestKeepsTokens(front: seq<Step>, n: Net, s: Step, r: nat)
    requires n == Run(front) && TokensOk(front, n.client) && Allowed(n, s)
    requires r in Do(n, s).client.requests && Do(n, s).client.requests[r].Retrying?
    ensures Issued(front + [s], Do(n, s).client.requests[r].access)
  {
    LongerRun(front, s);
    if s.Resume? { assert CarriesIssued(front, n.client.refreshes[n.client.requests[s.request].refresh]); }
  }

  lemma StepKeepsTokens(front: seq<Step>, n: Net, s: Step)
    requires n == Run(front) && TokensOk(front, n.client) && Allowed(n, s)
    ensures TokensOk(front + [s], Do(n, s).client)
  {
    LongerRun(front, s);
    var steps, c := front + [s], Do(n, s).client;
    forall p | 0 <= p < |c.refreshes| ensures CarriesIssued(steps, c.refreshes[p]) {
      RefreshKeepsTokens(front, n, s, p);
    }
    forall r | r in c.requests && c.requests[r].Retrying? ensures Issued(steps, c.requests[r].access) {
      RequestKeepsTokens(front, n, s, r);
    }
  }

  lemma {:induction false} RunKeepsTokens(steps: seq<Step>)
    ensures TokensOk(steps, Run(steps).client)
  {
    if steps != [] {
      var front, s := steps[..|steps| - 1], steps[|steps| - 1];
      assert steps == front + [s];
      RunKeepsTokens(front);
      LongerRun(front, s);
      if Allowed(Run(front), s) {
        StepKeepsTokens(front, Run(front), s);
      } else {
        var c := Run(front).client;
        forall p | 0 <= p < |c.refreshes| ensures CarriesIssued(steps, c.refreshes[p]) {
          assert CarriesIssued(front, c.refreshes[p]);
        }
      }
    }
  }

  /** A retry carries an access token that a refresh of this client brought back; and the two stored
      tokens are a pair that one login or one refresh handed out. */
  lemma {:induction false} RetriesCarryNewTokens(steps: seq<Step>, r: nat)
    ensures var c := Run(steps).client;
      && (r in c.requests && c.requests[r].Retrying? ==> Issued(steps, c.requests[r].access))
      && (c.session.Some? ==> HandedOut(steps, c.session.value))
  {
    RunKeepsTokens(steps);
  }

  /** Why coalescing matters: two refreshes sending the same token would take the reuse branch
      and revoke every session of the user, the freshly rotated one included. */
  lemma UncoalescedRefreshesCollide(n: Net, p: nat, q: nat, raw: nat, access: nat, now: int, ttl: nat)
    requires p < |n.client.refreshes| && q < |n.client.refreshes| && p != q
    requires n.client.refreshes[p].Sent? && n.client.refreshes[q] == n.client.refreshes[p]
    requires Live(n, n.client.refreshes[p].token) && now <= n.rows[n.client.refreshes[p].token].expiresAt
    requires raw !in n.issued && n.client.refreshes[p].token in n.issued
    ensures var one := Do(Do(Do(n, Find(p, now)), Revoke(p, now)), Create(p, raw, access, now, ttl));
      var both := Do(one, Find(q, now));
      Live(one, raw) && both.reuses == n.reuses + 1 && raw in both.rows && !Live(both, raw)
  {
  }

  /** The server's three statements, with nothing in between, are a rotation as a whole. */
  lemma AloneIsRotation(n: Net, p: nat, raw: nat, access: nat, now: int, ttl: nat)
    requires p < |n.client.refreshes| && n.client.refreshes[p].Sent? && raw !in n.issued
    requires var t := n.client.refreshes[p].token; t in n.issued && Live(n, t) && now <= n.rows[t].expiresAt
    ensures var m := Do(Do(Do(n, Find(p, now)), Revoke(p, now)), Create(p, raw, access, now, ttl));
      T.Store(m.rows, m.issued)
      == T.Serve(T.Store(n.rows, n.issued), T.Rotate(n.client.refreshes[p].token, raw, false), now, ttl)
  {
  }

  // ---------------------------------------------------- the client's own form

  /** The module variable, the stored session and the suspended calls; each method is one
      stretch of client code between two awaits. */
  class ApiClient {
    var session: Option<Session>
    var refreshInFlight: Option<nat>
    var refreshes: seq<Refresh>
    var requests: map<nat, Request>

    ghost function Snapshot(): Client
      reads this
    {
      Client(session, refreshInFlight, refreshes, requests)
    }

    constructor ()
      ensures Snapshot() == START.client
    {
      session, refreshInFlight, refreshes, requests := None, None, [], map[];
    }

    /** A reply need not bring a new refresh token; then the old one stays. */
    method UpdateSessionTokens(access: nat, refresh: Option<nat>)
      modifies `session
      ensures old(session) == None ==> session == None
      ensures old(session).Some? ==>
        session == Some(Session(access, if refresh.Some? then refresh.value else old(session).value.refresh))
    {
      if session == None { return; }
      session := Some(session.value.(access := access));
      if refresh.Some? { session := Some(session.value.(refresh := refresh.value)); }
    }

    method RemoveSession()
      modifies `session
      ensures session == None
    {
      session := None;
    }

    /** doRefresh up to its fetch, which reads the stored token. */
    method DoRefresh() returns (promise: nat)
      modifies `refreshes
      ensures promise == |old(refreshes)|
      ensures refreshes == old(refreshes) +
        [if session.Some? then Sent(session.value.refresh) else Rejected]
    {
      promise := |refreshes|;
      if session == None {
        refreshes := refreshes + [Rejected];
      } else {
        refreshes := refreshes + [Sent(session.value.refresh)];
      }
    }

    method HandleUnauthorized(r: nat)
      modifies `refreshInFlight, `refreshes, `requests
      ensures Snapshot() == OnUnauthorized(old(Snapshot()), r)
      ensures refreshInFlight.Some? && r in requests && requests[r] == Awaiting(refreshInFlight.value)
      ensures old(refreshInFlight).Some? ==> refreshes == old(refreshes) && refreshInFlight == old(refreshInFlight)
    {
      if refreshInFlight == None {
        var promise := DoRefresh();
        refreshInFlight := Some(promise);
      }
      requests := requests[r := Awaiting(refreshInFlight.value)];
    }

    method HandleReply(p: nat)
      requires p < |refreshes| && (refreshes[p].Replied? || refreshes[p].Refused?)
      modifies `session, `refreshes
      ensures Snapshot() == OnReply(old(Snapshot()), p)
      ensures p < |refreshes|
      ensures match old(refreshes)[p]
        case Replied(access, refresh) =>
          refreshes[p] == Updated(access) && (old(session).Some? ==> session == Some(Session(access, refresh)))
        case _ => refreshes[p] == Rejected && session == old(session)
    {
      var reply := refreshes[p];
      if reply.Refused? {
        refreshes := refreshes[p := Rejected];
        return;
      }
      UpdateSessionTokens(reply.access, Some(reply.refresh));
      refreshes := refreshes[p := Updated(reply.access)];
    }

    method Finally(p: nat)
      requires p < |refreshes| && (refreshes[p].Updated? || refreshes[p].Rejected?)
      modifies `refreshInFlight, `refreshes
      ensures Snapshot() == OnFinally(old(Snapshot()), p)
      ensures refreshInFlight == None && p < |refreshes| && refreshes[p].Settled?
      ensures refreshes[p].result == if old(refreshes)[p].Updated? then Some(old(refreshes)[p].access) else None
    {
      refreshInFlight := None;
      var result := if refreshes[p].Updated? then Some(refreshes[p].access) else None;
      refreshes := refreshes[p := Settled(result)];
    }

    method HandleSettled(r: nat)
      requires r in requests && requests[r].Awaiting?
      requires requests[r].refresh < |refreshes| && refreshes[requests[r].refresh].Settled?
      modifies `session, `requests
      ensures Snapshot() == OnSettled(old(Snapshot()), r)
      ensures r in requests
      ensures match refreshes[old(requests)[r].refresh].result
        case Some(access) => session == old(session) && requests[r] == Retrying(access)
        case None => session == None && requests[r] == Failed
    {
      var result := refreshes[requests[r].refresh].result;
      if result.Some? {
        requests := requests[r := Retrying(result.value)];
      } else {
        RemoveSession();
        requests := requests[r := Failed];
      }
    }
  }
}
