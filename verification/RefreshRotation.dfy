/** Refresh-token rotation as interleaved lock steps: Register, Login and Refresh each end in
    newTokenPair, which runs after the lock of Refresh has been released.
    Source: internal/application/auth/service.go. */
module RefreshRotation {
  datatype Identity = Identity(user: string, email: string, roles: seq<string>)

  datatype Session = Session(identity: Identity, expiresAt: int, revoked: bool)

  datatype Verdict = InvalidToken | TokenRevoked | TokenExpired | Redeemed(identity: Identity)

  /** The locked part of Refresh. */
  function RefreshVerdict(sessions: map<string, Session>, token: string, now: int): Verdict {
    if token !in sessions then InvalidToken
    else if sessions[token].revoked then TokenRevoked
    else if now > sessions[token].expiresAt then TokenExpired
    else Redeemed(sessions[token].identity)
  }

  function AfterRefresh(sessions: map<string, Session>, token: string): map<string, Session> {
    if token in sessions then sessions[token := sessions[token].(revoked := true)] else sessions
  }

  /** An operation that has passed its check and still has to mint its token pair. */
  datatype Pending = Pending(identity: Identity, login: nat)

  /** `logins` records who logged in or registered, `loginOf` the login a token descends from. */
  datatype State = State(
    sessions: map<string, Session>,
    pending: map<nat, Pending>,
    logins: seq<Identity>,
    loginOf: map<string, nat>,
    redeemed: seq<string>)

  const INITIAL := State(map[], map[], [], map[], [])

  datatype Step =
    | Authenticated(op: nat, identity: Identity)
    | Refresh(op: nat, token: string, now: int)
    | Mint(op: nat, token: string, expiresAt: int)
    | Abort(op: nat)

  predicate Enabled(s: State, step: Step) {
    match step
    case Authenticated(op, _) => op !in s.pending
    case Refresh(op, _, _) => op !in s.pending
    case Mint(op, _, _) => op in s.pending
    case Abort(op) => op in s.pending
  }

  function LoginOf(s: State, token: string): nat {
    if token in s.loginOf then s.loginOf[token] else 0
  }

  function Next(s: State, step: Step): State
    requires Enabled(s, step)
  {
    match step
    case Authenticated(op, identity) =>
      s.(logins := s.logins + [identity], pending := s.pending[op := Pending(identity, |s.logins|)])
    case Refresh(op, token, now) =>
      var s' := s.(sessions := AfterRefresh(s.sessions, token));
      (match RefreshVerdict(s.sessions, token, now)
       case Redeemed(identity) =>
         s'.(pending := s.pending[op := Pending(identity, LoginOf(s, token))], redeemed := s.redeemed + [token])
       case _ => s')
    case Mint(op, token, expiresAt) =>
      s.(sessions := s.sessions[token := Session(s.pending[op].identity, expiresAt, false)],
         loginOf := s.loginOf[token := s.pending[op].login],
         pending := s.pending - {op})
    case Abort(op) => s.(pending := s.pending - {op})
  }

  /** Random tokens are new. */
  predicate Fresh(s: State, step: Step) {
    step.Mint? ==> step.token !in s.sessions
  }

  predicate Behavior(states: seq<State>, steps: seq<Step>) {
    && |states| == |steps| + 1
    && states[0] == INITIAL
    && (forall i :: 0 <= i < |steps| ==> Enabled(states[i], steps[i]) && states[i + 1] == Next(states[i], steps[i]))
    && (forall i :: 0 <= i < |steps| ==> Fresh(states[i], steps[i]))
  }

  // --------------------------------------------------------------------- invariants

  predicate Live(s: State, token: string) {
    token in s.sessions && !s.sessions[token].revoked
  }

  /** Every token descends from a login and carries its identity. */
  predicate Descends(s: State) {
    && (forall t :: t in s.sessions ==>
          t in s.loginOf && s.loginOf[t] < |s.logins| && s.sessions[t].identity == s.logins[s.loginOf[t]])
    && (forall op :: op in s.pending ==>
          s.pending[op].login < |s.logins| && s.pending[op].identity == s.logins[s.pending[op].login])
  }

  /** A login has at most one live session or rotation in flight. */
  ghost predicate OneLivePerLogin(s: State) {
    && (forall t, u :: Live(s, t) && Live(s, u) && LoginOf(s, t) == LoginOf(s, u) ==> t == u)
    && (forall p, q :: p in s.pending && q in s.pending && s.pending[p].login == s.pending[q].login ==> p == q)
    && (forall t, p :: Live(s, t) && p in s.pending ==> LoginOf(s, t) != s.pending[p].login)
  }

  predicate RedeemedOnce(s: State) {
    && (forall t :: t in s.redeemed ==> t in s.sessions && s.sessions[t].revoked)
    && (forall i, j :: 0 <= i < j < |s.redeemed| ==> s.redeemed[i] != s.redeemed[j])
  }

  ghost predicate Invariant(s: State) {
    Descends(s) && OneLivePerLogin(s) && RedeemedOnce(s)
  }

  /** Revoking a token, as Refresh does before it looks at the outcome. */
  function Revoked(s: State, token: string): State {
    s.(sessions := AfterRefresh(s.sessions, token))
  }

  lemma RevokeKeepsInvariant(s: State, token: string)
    requires Invariant(s)
    ensures Invariant(Revoked(s, token)) && !Live(Revoked(s, token), token)
    ensures forall u :: Live(Revoked(s, token), u) ==> Live(s, u)
  {
    assert OneLivePerLogin(Revoked(s, token)) by {
      assert forall u :: Live(Revoked(s, token), u) ==> Live(s, u);
    }
  }

  function RotationStarted(s: State, op: nat, token: string): State
    requires token in s.sessions
  {
    s.(pending := s.pending[op := Pending(s.sessions[token].identity, LoginOf(s, token))],
       redeemed := s.redeemed + [token])
  }

  lemma RotationKeepsInvariant(s: State, op: nat, token: string)
    requires Invariant(s) && op !in s.pending && Live(s, token)
    ensures Invariant(RotationStarted(Revoked(s, token), op, token))
  {
    var r := Revoked(s, token);
    RevokeKeepsInvariant(s, token);
    assert token !in r.redeemed;
    assert forall u :: Live(r, u) ==> LoginOf(r, u) != LoginOf(r, token);
    assert forall p :: p in r.pending ==> r.pending[p].login != LoginOf(r, token);
    RotationKeepsParts(r, op, token);
  }

  lemma RotationKeepsParts(r: State, op: nat, token: string)
    requires Invariant(r) && op !in r.pending && token in r.sessions && r.sessions[token].revoked
    requires token !in r.redeemed
    requires forall u :: Live(r, u) ==> LoginOf(r, u) != LoginOf(r, token)
    requires forall p :: p in r.pending ==> r.pending[p].login != LoginOf(r, token)
    ensures Invariant(RotationStarted(r, op, token))
  {
    var t := RotationStarted(r, op, token);
    assert Descends(t);
    assert RedeemedOnce(t);
    hide Descends, RedeemedOnce;
    assert forall u :: Live(t, u) <==> Live(r, u);
    assert forall u :: LoginOf(t, u) == LoginOf(r, u);
  }

  lemma RefreshKeepsInvariant(s: State, op: nat, token: string, now: int)
    requires Invariant(s) && op !in s.pending
    ensures Invariant(Next(s, Refresh(op, token, now)))
  {
    if RefreshVerdict(s.sessions, token, now).Redeemed? {
      RotationKeepsInvariant(s, op, token);
      assert Next(s, Refresh(op, token, now)) == RotationStarted(Revoked(s, token), op, token);
    } else {
      RevokeKeepsInvariant(s, token);
    }
  }

  lemma MintKeepsInvariant(s: State, op: nat, token: string, expiresAt: int)
    requires Invariant(s) && op in s.pending && token !in s.sessions
    ensures Invariant(Next(s, Mint(op, token, expiresAt)))
  {
    var t := Next(s, Mint(op, token, expiresAt));
    assert Descends(t);
    assert RedeemedOnce(t);
    assert forall u :: Live(t, u) <==> Live(s, u) || u == token;
    assert forall u :: u != token ==> LoginOf(t, u) == LoginOf(s, u);
    assert LoginOf(t, token) == s.pending[op].login;
    hide Descends, RedeemedOnce, Live, LoginOf;
  }

  lemma AuthenticatedKeepsInvariant(s: State, op: nat, identity: Identity)
    requires Invariant(s) && op !in s.pending
    ensures Invariant(Next(s, Authenticated(op, identity)))
  {
    var t := Next(s, Authenticated(op, identity));
    assert Descends(t);
    assert RedeemedOnce(t);
    assert forall u :: Live(t, u) <==> Live(s, u);
    assert forall u :: LoginOf(t, u) == LoginOf(s, u);
    assert forall u :: Live(s, u) ==> LoginOf(s, u) < |s.logins|;
    hide RedeemedOnce, Live, LoginOf;
  }

  lemma AbortKeepsInvariant(s: State, op: nat)
    requires Invariant(s) && op in s.pending
    ensures Invariant(Next(s, Abort(op)))
  {
    var t := Next(s, Abort(op));
    assert forall u :: Live(t, u) <==> Live(s, u);
    assert forall u :: LoginOf(t, u) == LoginOf(s, u);
    hide Live, LoginOf;
  }

  lemma InvariantIsKept(s: State, step: Step)
    requires Invariant(s) && Enabled(s, step) && Fresh(s, step)
    ensures Invariant(Next(s, step))
  {
    hide Invariant, Next;
    match step {
      case Authenticated(op, identity) => AuthenticatedKeepsInvariant(s, op, identity);
      case Refresh(op, token, now) => RefreshKeepsInvariant(s, op, token, now);
      case Mint(op, token, expiresAt) => MintKeepsInvariant(s, op, token, expiresAt);
      case Abort(op) => AbortKeepsInvariant(s, op);
    }
  }

  lemma {:induction false} InvariantAlways(states: seq<State>, steps: seq<Step>, n: nat)
    requires Behavior(states, steps) && n <= |steps|
    ensures Invariant(states[n])
  {
    if n > 0 {
      InvariantAlways(states, steps, n - 1);
      InvariantIsKept(states[n - 1], steps[n - 1]);
    }
  }

  // ------------------------------------------------------------------- main theorems

  /** No refresh token is ever redeemed twice. */
  lemma NoTokenIsRedeemedTwice(states: seq<State>, steps: seq<Step>, n: nat, i: nat, j: nat)
    requires Behavior(states, steps) && n <= |steps| && i < j < |states[n].redeemed|
    ensures states[n].redeemed[i] != states[n].redeemed[j]
  {
    InvariantAlways(states, steps, n);
  }

  /** A revoked refresh token stays revoked. */
  lemma {:induction false} RevokedStaysRevoked(states: seq<State>, steps: seq<Step>, token: string, m: nat, n: nat)
    requires Behavior(states, steps) && m <= n <= |steps|
    requires token in states[m].sessions && states[m].sessions[token].revoked
    ensures token in states[n].sessions && states[n].sessions[token].revoked
  {
    if m < n {
      RevokedStaysRevoked(states, steps, token, m, n - 1);
      assert Enabled(states[n - 1], steps[n - 1]) && Fresh(states[n - 1], steps[n - 1]);
    }
  }

  /** A refresh starts a rotation, with the identity of the session, and redeems its token exactly when the token is
      live and has not expired. Whatever the answer, the token is live no longer. */
  lemma RedeemedIff(s: State, op: nat, token: string, now: int)
    requires Enabled(s, Refresh(op, token, now))
    ensures var t := Next(s, Refresh(op, token, now));
      var valid := Live(s, token) && now <= s.sessions[token].expiresAt;
      && (op in t.pending <==> valid) && (valid ==> t.pending[op].identity == s.sessions[token].identity)
      && t.redeemed == (if valid then s.redeemed + [token] else s.redeemed)
      && !Live(t, token) && forall u :: u != token ==> (Live(t, u) <==> Live(s, u))
  {
  }

  /** A login or registration leads to a live session of its identity. */
  lemma LoginMakesSession(s: State, op: nat, identity: Identity, token: string, expiresAt: int)
    requires Enabled(s, Authenticated(op, identity))
    ensures var t := Next(s, Authenticated(op, identity));
      && Enabled(t, Mint(op, token, expiresAt))
      && var u := Next(t, Mint(op, token, expiresAt));
        Live(u, token) && u.sessions[token] == Session(identity, expiresAt, false) && op !in u.pending
  {
  }

  /** A rotation that goes through replaces the session by one of the same identity and login. */
  lemma RotationReplacesSession(s: State, op: nat, token: string, now: int, newToken: string, expiresAt: int)
    requires Enabled(s, Refresh(op, token, now)) && Live(s, token) && now <= s.sessions[token].expiresAt
    requires newToken != token && token in s.loginOf
    ensures var t := Next(s, Refresh(op, token, now));
      && Enabled(t, Mint(op, newToken, expiresAt))
      && var u := Next(t, Mint(op, newToken, expiresAt));
        && !Live(u, token) && Live(u, newToken) && u.sessions[newToken].identity == s.sessions[token].identity
        && LoginOf(u, newToken) == s.loginOf[token] && u.sessions[newToken].expiresAt == expiresAt
  {
  }

  predicate Presents(step: Step, token: string) {
    step.Refresh? && step.token == token
  }

  lemma MintedStep(s: State, step: Step, token: string, session: Session)
    requires Enabled(s, step) && Fresh(s, step) && !Presents(step, token)
    requires token in s.sessions && s.sessions[token] == session
    ensures token in Next(s, step).sessions && Next(s, step).sessions[token] == session
    ensures token in Next(s, step).redeemed <==> token in s.redeemed
  {
  }

  lemma {:induction false} MintedUntilPresented(states: seq<State>, steps: seq<Step>, m: nat, n: nat)
    requires Behavior(states, steps) && m < n <= |steps| && steps[m].Mint?
    requires forall k :: m < k < n ==> !Presents(steps[k], steps[m].token)
    ensures var token := steps[m].token;
      && steps[m].op in states[m].pending && token in states[n].sessions && token !in states[n].redeemed
      && states[n].sessions[token] == Session(states[m].pending[steps[m].op].identity, steps[m].expiresAt, false)
    decreases n
  {
    var s, token := states[n - 1], steps[m].token;
    assert Enabled(s, steps[n - 1]) && Fresh(s, steps[n - 1]) && states[n] == Next(s, steps[n - 1]);
    if n == m + 1 {
      InvariantAlways(states, steps, m);
    } else {
      MintedUntilPresented(states, steps, m, n - 1);
      hide Next, Enabled, Fresh;
      MintedStep(s, steps[n - 1], token,
                 Session(states[m].pending[steps[m].op].identity, steps[m].expiresAt, false));
    }
  }

  /** In every run a minted token is redeemed when it is first presented exactly when that is no later than the expiry
      it was minted with, and the rotation goes on with the identity that it was minted for. */
  lemma FirstPresentationRedeemsIff(states: seq<State>, steps: seq<Step>, m: nat, n: nat)
    requires Behavior(states, steps) && m < n < |steps| && steps[m].Mint? && Presents(steps[n], steps[m].token)
    requires forall k :: m < k < n ==> !Presents(steps[k], steps[m].token)
    ensures steps[m].token in states[n + 1].redeemed <==> steps[n].now <= steps[m].expiresAt
    ensures steps[n].op in states[n + 1].pending <==> steps[n].now <= steps[m].expiresAt
    ensures steps[n].now <= steps[m].expiresAt ==>
      && steps[m].op in states[m].pending
      && states[n + 1].pending[steps[n].op].identity == states[m].pending[steps[m].op].identity
  {
    MintedUntilPresented(states, steps, m, n);
    assert Enabled(states[n], steps[n]) && states[n + 1] == Next(states[n], steps[n]);
    hide Next, Enabled;
    RedeemedIff(states[n], steps[n].op, steps[n].token, steps[n].now);
  }

  /** Runs in which a random token may repeat an earlier one. */
  predicate RepeatingBehavior(states: seq<State>, steps: seq<Step>) {
    && |states| == |steps| + 1
    && states[0] == INITIAL
    && (forall i :: 0 <= i < |steps| ==> Enabled(states[i], steps[i]) && states[i + 1] == Next(states[i], steps[i]))
  }

  predicate IsRevoked(s: State, token: string) {
    token in s.sessions && s.sessions[token].revoked
  }

  predicate Mints(step: Step, token: string) {
    step.Mint? && step.token == token
  }

  lemma StepRevives(s: State, step: Step, token: string)
    requires Enabled(s, step) && IsRevoked(s, token)
    ensures IsRevoked(Next(s, step), token) <==> !Mints(step, token)
  {
  }

  lemma {:induction false} RevokedUntilMinted(states: seq<State>, steps: seq<Step>, token: string, m: nat, n: nat)
    requires RepeatingBehavior(states, steps) && m <= n <= |steps| && IsRevoked(states[m], token)
    requires forall k :: m <= k < n ==> !Mints(steps[k], token)
    ensures IsRevoked(states[n], token)
  {
    if m < n {
      RevokedUntilMinted(states, steps, token, m, n - 1);
      assert Enabled(states[n - 1], steps[n - 1]);
      StepRevives(states[n - 1], steps[n - 1], token);
    }
  }

  /** Even without fresh tokens: a revoked token stays revoked throughout a stretch of any run exactly when no token
      pair minted in it repeats that token. */
  lemma StaysRevokedIff(states: seq<State>, steps: seq<Step>, token: string, m: nat, n: nat)
    requires RepeatingBehavior(states, steps) && m <= n <= |steps| && IsRevoked(states[m], token)
    ensures (forall k :: m <= k <= n ==> IsRevoked(states[k], token))
            <==> (forall k :: m <= k < n ==> !Mints(steps[k], token))
  {
    if forall k :: m <= k <= n ==> IsRevoked(states[k], token) {
      forall k | m <= k < n
        ensures !Mints(steps[k], token)
      {
        assert Enabled(states[k], steps[k]) && IsRevoked(states[k], token) && IsRevoked(states[k + 1], token);
        StepRevives(states[k], steps[k], token);
      }
    }
    if forall k :: m <= k < n ==> !Mints(steps[k], token) {
      forall k | m <= k <= n
        ensures IsRevoked(states[k], token)
      {
        RevokedUntilMinted(states, steps, token, m, k);
      }
    }
    hide Next, Enabled;
  }

  function Image<T>(s: set<T>, f: map<T, nat>): set<nat>
    requires s <= f.Keys
  {
    set t | t in s :: f[t]
  }

  lemma {:induction false} ImageIsAsLarge<T>(s: set<T>, f: map<T, nat>)
    requires s <= f.Keys && forall t, u :: t in s && u in s && f[t] == f[u] ==> t == u
    ensures |Image(s, f)| == |s|
  {
    if s != {} {
      var x :| x in s;
      ImageIsAsLarge(s - {x}, f);
      assert Image(s, f) == Image(s - {x}, f) + {f[x]};
    }
  }

  lemma {:induction false} BoundedSet(s: set<nat>, n: nat)
    requires forall x :: x in s ==> x < n
    ensures |s| <= n
  {
    if n > 0 {
      BoundedSet(s - {n - 1}, n - 1);
    } else {
      assert s == {};
    }
  }

  function LiveTokens(s: State): set<string> {
    set t | t in s.sessions && !s.sessions[t].revoked
  }

  lemma LiveLogins(s: State) returns (logins: set<nat>)
    requires Descends(s) && OneLivePerLogin(s)
    ensures |logins| == |LiveTokens(s)|
    ensures forall x :: x in logins ==> exists t :: Live(s, t) && LoginOf(s, t) == x
  {
    var live := LiveTokens(s);
    assert forall t :: t in live ==> Live(s, t) && LoginOf(s, t) == s.loginOf[t];
    ImageIsAsLarge(live, s.loginOf);
    logins := Image(live, s.loginOf);
  }

  lemma PendingLogins(s: State) returns (logins: set<nat>)
    requires OneLivePerLogin(s)
    ensures |logins| == |s.pending|
    ensures forall x :: x in logins ==> exists p :: p in s.pending && s.pending[p].login == x
  {
    var loginOf := map p | p in s.pending :: s.pending[p].login;
    ImageIsAsLarge(s.pending.Keys, loginOf);
    logins := Image(s.pending.Keys, loginOf);
  }

  lemma DisjointSizes(a: set<nat>, b: set<nat>)
    requires a !! b
    ensures |a + b| == |a| + |b|
  {
  }

  /** Unrevoked sessions and rotations in flight never outnumber the logins and registrations. */
  lemma LiveSessionsAreBounded(states: seq<State>, steps: seq<Step>, n: nat)
    requires Behavior(states, steps) && n <= |steps|
    ensures |LiveTokens(states[n])| + |states[n].pending| <= |states[n].logins|
  {
    InvariantAlways(states, steps, n);
    var s := states[n];
    var a := LiveLogins(s);
    var b := PendingLogins(s);
    assert forall t :: Live(s, t) ==> LoginOf(s, t) < |s.logins|;
    DisjointSizes(a, b);
    BoundedSet(a + b, |s.logins|);
  }
}
