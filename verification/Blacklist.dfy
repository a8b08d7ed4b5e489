/** The blacklist of logged-out access tokens, and why pruning it cannot be noticed.
    Source: internal/application/auth/service.go. */
module Blacklist {
  import opened Wrappers

  type Time = int
  type Blacklist = map<string, Time>

  /** The expiry claim of a token with a valid signature, None for any other string. */
  type Decoder = string -> Option<Time>

  /** parseAccessToken: the JWT parser rejects a token at or after its expiry, section 4.1.4 of RFC 7519. */
  function Parse(decode: Decoder, token: string, now: Time): Option<Time> {
    match decode(token)
    case None => None
    case Some(exp) => if now >= exp then None else Some(exp)
  }

  datatype Answer = Revoked | Invalid | Valid(exp: Time)

  /** pruneRevokedLocked. */
  function Pruned(list: Blacklist, now: Time): Blacklist {
    map t | t in list && !(now > list[t]) :: list[t]
  }

  /** The locked check of ValidateAccessToken. */
  predicate Blacklisted(list: Blacklist, token: string, now: Time) {
    token in list && now < list[token]
  }

  /** An operation on the shared blacklist. A validation checks at `check`, prunes at `prune`, and
      parses at `parse` after it has released the lock; a logout parses before it takes the lock. */
  datatype Op =
    | Logout(token: string, parse: Time, lock: Time)
    | Validate(token: string, check: Time, prune: Time, parse: Time)
    | Refresh(prune: Time)

  function LockTime(op: Op): Time {
    match op
    case Logout(_, _, lock) => lock
    case Validate(_, check, _, _) => check
    case Refresh(prune) => prune
  }

  function UnlockTime(op: Op): Time {
    if op.Validate? then op.prune else LockTime(op)
  }

  predicate ClockRuns(ops: seq<Op>) {
    && (forall op :: op in ops && op.Logout? ==> op.parse <= op.lock)
    && (forall op :: op in ops && op.Validate? ==> op.check <= op.prune <= op.parse)
    && (forall i, j :: 0 <= i < j < |ops| ==> UnlockTime(ops[i]) <= LockTime(ops[j]))
  }

  /** What an operation does to the blacklist. */
  function Updated(decode: Decoder, list: Blacklist, op: Op, pruning: bool): Blacklist {
    match op
    case Logout(token, parse, _) =>
      (match Parse(decode, token, parse)
       case None => list
       case Some(exp) => list[token := exp])
    case Validate(token, check, prune, _) =>
      if !pruning || Blacklisted(list, token, check) then list else Pruned(list, prune)
    case Refresh(prune) => if pruning then Pruned(list, prune) else list
  }

  /** The blacklist after the operations, in the order in which they took the lock. */
  function After(decode: Decoder, ops: seq<Op>, pruning: bool): Blacklist {
    if ops == [] then map[]
    else Updated(decode, After(decode, ops[..|ops| - 1], pruning), ops[|ops| - 1], pruning)
  }

  function ParseAnswer(decode: Decoder, token: string, now: Time): Answer {
    match Parse(decode, token, now)
    case None => Invalid
    case Some(exp) => Valid(exp)
  }

  /** ValidateAccessToken against the blacklist that the earlier operations left. */
  function AnswerTo(decode: Decoder, before: seq<Op>, op: Op, pruning: bool): Answer
    requires op.Validate?
  {
    if Blacklisted(After(decode, before, pruning), op.token, op.check) then Revoked
    else ParseAnswer(decode, op.token, op.parse)
  }

  /** At that time `pruned` is `full` less some expired tokens. */
  predicate LacksOnlyExpired(decode: Decoder, pruned: Blacklist, full: Blacklist, now: Time) {
    && (forall t :: t in full ==> decode(t) == Some(full[t]))
    && (forall t :: t in pruned ==> t in full && pruned[t] == full[t])
    && (forall t :: t in full && t !in pruned ==> now > full[t])
  }

  lemma UpdatedLacksOnlyExpired(decode: Decoder, pruned: Blacklist, full: Blacklist, op: Op, now: Time)
    requires LacksOnlyExpired(decode, pruned, full, LockTime(op)) && LockTime(op) <= UnlockTime(op) <= now
    ensures LacksOnlyExpired(decode, Updated(decode, pruned, op, true), Updated(decode, full, op, false), now)
  {
  }

  lemma LastInOrder(ops: seq<Op>)
    requires ClockRuns(ops) && ops != []
    ensures var front, last := ops[..|ops| - 1], ops[|ops| - 1];
      && ClockRuns(front) && LockTime(last) <= UnlockTime(last)
      && (front != [] ==> UnlockTime(front[|front| - 1]) <= LockTime(last))
  {
    assert ops[|ops| - 1] in ops;
  }

  /** The pruned blacklist misses only tokens that had expired when they were pruned. */
  lemma {:induction false} PrunedOnlyExpired(decode: Decoder, ops: seq<Op>, now: Time)
    requires ClockRuns(ops) && (ops != [] ==> UnlockTime(ops[|ops| - 1]) <= now)
    ensures LacksOnlyExpired(decode, After(decode, ops, true), After(decode, ops, false), now)
  {
    if ops != [] {
      var front, last := ops[..|ops| - 1], ops[|ops| - 1];
      LastInOrder(ops);
      hide ClockRuns, LockTime, UnlockTime, Updated, LacksOnlyExpired;
      PrunedOnlyExpired(decode, front, LockTime(last));
      UpdatedLacksOnlyExpired(decode, After(decode, front, true), After(decode, front, false), last, now);
    }
  }

  /** A refresh leaves exactly those logged-out tokens on the blacklist that have not expired. */
  lemma RefreshPrunes(decode: Decoder, ops: seq<Op>, prune: Time, token: string)
    requires ClockRuns(ops + [Op.Refresh(prune)])
    ensures var full := After(decode, ops + [Op.Refresh(prune)], false);
      token in After(decode, ops + [Op.Refresh(prune)], true) <==> token in full && prune <= full[token]
  {
    var run := ops + [Op.Refresh(prune)];
    assert run[..|ops|] == ops && run[|ops|] == Op.Refresh(prune);
    LastInOrder(run);
    PrunedOnlyExpired(decode, ops, prune);
    hide ClockRuns;
  }

  /** Pruning is invisible: every validation answers as it would with a never-pruned blacklist. */
  lemma PruningIsInvisible(decode: Decoder, ops: seq<Op>, n: nat)
    requires ClockRuns(ops) && n < |ops| && ops[n].Validate?
    ensures AnswerTo(decode, ops[..n], ops[n], true) == AnswerTo(decode, ops[..n], ops[n], false)
  {
    PrunedOnlyExpired(decode, ops[..n], ops[n].check);
  }

  lemma {:induction false} LoggedOutStays(decode: Decoder, ops: seq<Op>, i: nat)
    requires i < |ops| && ops[i].Logout? && Parse(decode, ops[i].token, ops[i].parse).Some?
    ensures ops[i].token in After(decode, ops, false)
  {
    if i < |ops| - 1 {
      LoggedOutStays(decode, ops[..|ops| - 1], i);
    }
  }

  /** A validation that takes the lock after a successful logout never accepts the token. */
  lemma LogoutIsFinal(decode: Decoder, ops: seq<Op>, i: nat, n: nat)
    requires ClockRuns(ops) && i < n < |ops| && ops[i].Logout? && ops[n].Validate?
    requires Parse(decode, ops[i].token, ops[i].parse).Some? && ops[n].token == ops[i].token
    ensures !AnswerTo(decode, ops[..n], ops[n], true).Valid?
  {
    assert ops[n] in ops;
    LoggedOutStays(decode, ops[..n], i);
    PrunedOnlyExpired(decode, ops[..n], ops[n].check);
  }

  lemma {:induction false} ListedWasLoggedOut(decode: Decoder, ops: seq<Op>, token: string)
    requires token in After(decode, ops, false)
    ensures exists i :: 0 <= i < |ops| && ops[i].Logout? && ops[i].token == token
  {
    var front, last := ops[..|ops| - 1], ops[|ops| - 1];
    if !(last.Logout? && last.token == token) {
      ListedWasLoggedOut(decode, front, token);
      var i :| 0 <= i < |front| && front[i].Logout? && front[i].token == token;
      assert ops[i] == front[i];
    }
  }

  lemma LogoutIsBefore(ops: seq<Op>, i: nat, n: nat)
    requires ClockRuns(ops) && i < n < |ops| && ops[i].Logout? && ops[n].Validate?
    ensures ops[i].parse <= ops[n].parse
  {
    assert ops[i] in ops && ops[n] in ops;
  }

  /** A validation accepts a token exactly when its signature is valid, it has not expired, and nobody has
      logged out with it. */
  lemma AcceptedIff(decode: Decoder, ops: seq<Op>, n: nat, exp: Time)
    requires ClockRuns(ops) && n < |ops| && ops[n].Validate?
    ensures AnswerTo(decode, ops[..n], ops[n], true) == Valid(exp) <==>
      && decode(ops[n].token) == Some(exp) && ops[n].parse < exp
      && forall i :: 0 <= i < n && ops[i].Logout? ==> ops[i].token != ops[n].token
  {
    var token := ops[n].token;
    PruningIsInvisible(decode, ops, n);
    if decode(token) == Some(exp) && ops[n].parse < exp {
      if i :| 0 <= i < n && ops[i].Logout? && ops[i].token == token {
        LogoutIsBefore(ops, i, n);
        LogoutIsFinal(decode, ops, i, n);
      } else if token in After(decode, ops[..n], false) {
        ListedWasLoggedOut(decode, ops[..n], token);
        assert false;
      }
    }
  }
}
