/** The gateway's fixed-window rate limiter, with times in nanoseconds.
    Source: internal/transport/http.go. */
module RateLimiter {
  import opened Wrappers
  import opened Sequences

  const WINDOW: int := 60_000_000_000
  const IP_LIMIT: int := 100
  const USER_LIMIT: int := 1000

  datatype Bucket = Bucket(start: int, count: int)

  /** What one request does to the bucket of its key. */
  function Touched(b: Option<Bucket>, now: int, limit: int): Option<Bucket> {
    if b.None? || now - b.value.start >= WINDOW then Some(Bucket(now, 1))
    else if b.value.count >= limit then b
    else Some(Bucket(b.value.start, b.value.count + 1))
  }

  predicate Grants(b: Option<Bucket>, now: int, limit: int) {
    b.None? || now - b.value.start >= WINDOW || b.value.count < limit
  }

  // ------------------------------------------------------------------ runs of one key

  lemma FrontLast<T>(s: seq<T>, x: T)
    ensures Front(s + [x]) == s && Last(s + [x]) == x
  {
  }

  /** The bucket of a key after requests at these times. */
  function After(times: seq<int>, limit: int): Option<Bucket> {
    if times == [] then None else Touched(After(Front(times), limit), Last(times), limit)
  }

  predicate LastGranted(times: seq<int>, limit: int)
    requires times != []
  {
    Grants(After(Front(times), limit), Last(times), limit)
  }

  /** Requests granted within the half-open window that opens at `from`. */
  function Granted(times: seq<int>, limit: int, from: int): nat {
    if times == [] then 0
    else Granted(Front(times), limit, from)
         + (if from <= Last(times) < from + WINDOW && LastGranted(times, limit) then 1 else 0)
  }

  predicate Nondecreasing(times: seq<int>) {
    forall i, j :: 0 <= i < j < |times| ==> times[i] <= times[j]
  }

  function Quota(limit: int): int {
    if limit < 1 then 1 else limit
  }

  lemma {:induction false} RateBoundInvariant(times: seq<int>, limit: int, from: int)
    requires Nondecreasing(times)
    ensures Granted(times, limit, from) <= 2 * Quota(limit) - 1
    ensures times == [] ==> Granted(times, limit, from) == 0
    ensures times != [] ==>
      var b := After(times, limit);
      && (Last(times) < from ==> Granted(times, limit, from) == 0)
      && b.Some? && b.value.start <= Last(times) < b.value.start + WINDOW && 1 <= b.value.count <= Quota(limit)
      && (Last(times) < from + WINDOW && b.value.start < from ==> Granted(times, limit, from) <= b.value.count - 1)
      && (Last(times) < from + WINDOW && b.value.start >= from ==>
            Granted(times, limit, from) <= Quota(limit) - 1 + b.value.count)
  {
    if times != [] {
      RateBoundInvariant(Front(times), limit, from);
    }
  }

  /** With a nondecreasing clock, any half-open minute grants a key at most 2 x limit - 1 requests. */
  lemma RateBound(times: seq<int>, limit: int, from: int)
    requires Nondecreasing(times)
    ensures Granted(times, limit, from) <= 2 * Quota(limit) - 1
  {
    RateBoundInvariant(times, limit, from);
  }

  // ----------------------------------------------------------------- when it refuses

  lemma {:induction false} WindowIsGranted(times: seq<int>, limit: int, from: int)
    requires Nondecreasing(times) && times != [] && Last(times) < from + WINDOW
    requires After(times, limit).Some? && from <= After(times, limit).value.start
    ensures Granted(times, limit, from) >= After(times, limit).value.count
  {
    var front := Front(times);
    RateBoundInvariant(times, limit, from);
    if front != [] && After(front, limit).value.start == After(times, limit).value.start {
      RateBoundInvariant(front, limit, from);
      WindowIsGranted(front, limit, from);
    }
  }

  /** A key is refused only when its whole limit was granted within the last minute. */
  lemma RefusedHadItsLimit(times: seq<int>, now: int, limit: int)
    requires Nondecreasing(times + [now]) && !LastGranted(times + [now], limit)
    ensures Granted(times, limit, now - WINDOW + 1) >= limit
  {
    FrontLast(times, now);
    assert Nondecreasing(times) && (times != [] ==> Last(times) <= now) by {
      assert forall i :: 0 <= i < |times| ==> (times + [now])[i] == times[i];
      assert times != [] ==> (times + [now])[|times| - 1] <= (times + [now])[|times|];
    }
    WindowIsGranted(times, limit, now - WINDOW + 1);
  }

  // ------------------------------------------------------------- the bound is reached

  function Repeat(time: int, n: nat): seq<int> {
    seq(n, i => time)
  }

  lemma {:induction false} RepeatedRequests(times: seq<int>, time: int, n: nat, limit: int, from: int)
    requires After(times, limit).Some? && from <= time < from + WINDOW
    requires var b := After(times, limit).value; time - b.start < WINDOW && b.count + n <= limit
    ensures var b := After(times, limit).value;
      After(times + Repeat(time, n), limit) == Some(Bucket(b.start, b.count + n))
    ensures Granted(times + Repeat(time, n), limit, from) == Granted(times, limit, from) + n
  {
    if n == 0 {
      assert times + Repeat(time, n) == times;
    } else {
      RepeatedRequests(times, time, n - 1, limit, from);
      assert Front(times + Repeat(time, n)) == times + Repeat(time, n - 1);
    }
  }

  lemma FirstRequest(limit: nat, from: int)
    requires from > 0
    ensures After([0], limit) == Some(Bucket(0, 1)) && Granted([0], limit, from) == 0
  {
    var none: seq<int> := [];
    assert none + [0] == [0];
    FrontLast(none, 0);
  }

  function BurstSchedule(limit: nat): seq<int>
    requires limit >= 1
  {
    [0] + Repeat(WINDOW - 1, limit - 1) + [WINDOW] + Repeat(WINDOW, limit - 1)
  }

  /** The documented "limit requests per minute" does not hold of every minute: this schedule gets
      2 x limit - 1 requests granted within one, 199 for an IP. */
  lemma RateBoundIsReached(limit: nat)
    requires limit >= 1
    ensures Nondecreasing(BurstSchedule(limit))
    ensures Granted(BurstSchedule(limit), limit, WINDOW - 1) == 2 * limit - 1
  {
    FirstRequest(limit, WINDOW - 1);
    RepeatedRequests([0], WINDOW - 1, limit - 1, limit, WINDOW - 1);
    var early := [0] + Repeat(WINDOW - 1, limit - 1);
    FrontLast(early, WINDOW);
    assert After(early + [WINDOW], limit) == Some(Bucket(WINDOW, 1));
    assert Granted(early + [WINDOW], limit, WINDOW - 1) == limit;
    hide Granted, After;
    RepeatedRequests(early + [WINDOW], WINDOW, limit - 1, limit, WINDOW - 1);
  }

  // ------------------------------------------- the minutes that keep the documented limit

  /** Requests that follow, none of them before the minute begins. */
  predicate Continues(more: seq<int>, from: int) {
    Nondecreasing(more) && forall t :: t in more ==> t >= from
  }

  predicate AllBefore(times: seq<int>, from: int) {
    Nondecreasing(times) && forall t :: t in times ==> t < from
  }

  /** The minute begins inside a window that has quota left. */
  predicate CarriesQuota(b: Option<Bucket>, limit: int, from: int) {
    b.Some? && from - b.value.start < WINDOW && b.value.count < limit
  }

  function Spare(b: Option<Bucket>, limit: int, from: int): (spare: int)
    ensures spare >= 0
  {
    if CarriesQuota(b, limit, from) then limit - b.value.count else 0
  }

  /** How the bucket of a continuation and its grants are bounded by the bucket that the minute began with. */
  predicate Tracks(b: Option<Bucket>, c: Option<Bucket>, granted: int, limit: int, from: int) {
    match c
    case None => b.None? && granted == 0
    case Some(bucket) =>
      && 1 <= bucket.count <= limit
      && (bucket.start < from ==>
            && b.Some? && bucket.start == b.value.start && 0 <= granted <= bucket.count - b.value.count
            && (granted > 0 ==> from - b.value.start < WINDOW))
      && (from <= bucket.start < from + WINDOW ==> granted <= Spare(b, limit, from) + bucket.count)
      && (from + WINDOW <= bucket.start ==> granted <= Spare(b, limit, from) + limit)
  }

  lemma TracksStep(b: Option<Bucket>, c: Option<Bucket>, granted: int, limit: int, from: int, t: int)
    requires limit >= 1 && t >= from && Tracks(b, c, granted, limit, from) && (c.Some? ==> c.value.start <= t)
    ensures var more := if t < from + WINDOW && Grants(c, t, limit) then 1 else 0;
      Tracks(b, Touched(c, t, limit), granted + more, limit, from)
  {
  }

  lemma ContinuesFront(before: seq<int>, more: seq<int>, from: int)
    requires AllBefore(before, from) && Continues(more, from) && more != []
    ensures Continues(Front(more), from) && Last(more) >= from
    ensures Front(before + more) == before + Front(more) && Last(before + more) == Last(more)
    ensures Nondecreasing(before + Front(more))
    ensures before + Front(more) != [] ==> Last(before + Front(more)) <= Last(more)
  {
    assert Last(more) in more && forall t :: t in Front(more) ==> t in more;
    assert forall i :: 0 <= i < |before| ==> before[i] in before;
    assert forall i :: 0 <= i < |more| ==> more[i] in more;
  }

  lemma TracksAtFirst(before: seq<int>, limit: int, from: int)
    requires limit >= 1 && AllBefore(before, from)
    ensures Tracks(After(before, limit), After(before, limit), Granted(before, limit, from), limit, from)
  {
    RateBoundInvariant(before, limit, from);
    assert before != [] ==> Last(before) in before;
    hide After, Granted;
  }

  lemma TracksOneMore(b: Option<Bucket>, times: seq<int>, t: int, limit: int, from: int)
    requires limit >= 1 && t >= from && Nondecreasing(times) && (times != [] ==> Last(times) <= t)
    requires Tracks(b, After(times, limit), Granted(times, limit, from), limit, from)
    ensures Tracks(b, After(times + [t], limit), Granted(times + [t], limit, from), limit, from)
  {
    FrontLast(times, t);
    RateBoundInvariant(times, limit, from);
    TracksStep(b, After(times, limit), Granted(times, limit, from), limit, from, t);
    assert After(times + [t], limit) == Touched(After(times, limit), t, limit);
    assert Granted(times + [t], limit, from) == Granted(times, limit, from)
      + (if t < from + WINDOW && Grants(After(times, limit), t, limit) then 1 else 0);
    hide *;
  }

  lemma {:induction false} ContinuationIsTracked(before: seq<int>, more: seq<int>, limit: int, from: int)
    requires limit >= 1 && AllBefore(before, from) && Continues(more, from)
    ensures Tracks(After(before, limit), After(before + more, limit), Granted(before + more, limit, from), limit, from)
    decreases |more|
  {
    if more == [] {
      assert before + more == before;
      hide *;
      TracksAtFirst(before, limit, from);
    } else {
      ContinuesFront(before, more, from);
      assert before + more == before + Front(more) + [Last(more)];
      hide *;
      ContinuationIsTracked(before, Front(more), limit, from);
      TracksOneMore(After(before, limit), before + Front(more), Last(more), limit, from);
    }
  }

  /** No continuation gets more granted than what is left of the open window and a whole new one. */
  lemma WorstMinute(before: seq<int>, more: seq<int>, limit: int, from: int)
    requires limit >= 1 && AllBefore(before, from) && Continues(more, from)
    ensures Granted(before + more, limit, from) <= Spare(After(before, limit), limit, from) + limit
  {
    ContinuationIsTracked(before, more, limit, from);
  }

  /** A schedule that uses up what is left at once, and then a whole window as soon as one can open. */
  function WorstSchedule(b: Option<Bucket>, limit: int, from: int): seq<int>
    requires limit >= 1
  {
    var next := if b.None? || from - b.value.start >= WINDOW then from else b.value.start + WINDOW;
    Repeat(from, Spare(b, limit, from)) + [next] + Repeat(next, limit - 1)
  }

  lemma SpareIsGranted(before: seq<int>, limit: int, from: int)
    requires limit >= 1 && AllBefore(before, from)
    ensures var b := After(before, limit); var times := before + Repeat(from, Spare(b, limit, from));
      && Granted(times, limit, from) == Spare(b, limit, from)
      && (b.Some? <==> After(times, limit).Some?)
      && (b.Some? ==>
            && b.value.start < from && After(times, limit).value.start == b.value.start
            && (from - b.value.start < WINDOW ==> After(times, limit).value.count >= limit))
  {
    var b := After(before, limit);
    RateBoundInvariant(before, limit, from);
    assert before != [] ==> Last(before) in before;
    if CarriesQuota(b, limit, from) {
      RepeatedRequests(before, from, limit - b.value.count, limit, from);
    } else {
      assert before + Repeat(from, 0) == before;
    }
  }

  lemma NewWindowIsGranted(times: seq<int>, limit: int, from: int, next: int)
    requires limit >= 1 && from <= next < from + WINDOW
    requires After(times, limit).None? || next - After(times, limit).value.start >= WINDOW
    ensures Granted(times + [next] + Repeat(next, limit - 1), limit, from) == Granted(times, limit, from) + limit
  {
    FrontLast(times, next);
    assert After(times + [next], limit) == Some(Bucket(next, 1));
    assert Granted(times + [next], limit, from) == Granted(times, limit, from) + 1;
    hide Granted, After;
    RepeatedRequests(times + [next], next, limit - 1, limit, from);
  }

  lemma WorstScheduleContinues(b: Option<Bucket>, limit: int, from: int)
    requires limit >= 1
    ensures Continues(WorstSchedule(b, limit, from), from)
  {
    hide Spare;
  }

  /** The bound of WorstMinute is attained from every state of the bucket. */
  lemma WorstIsReached(before: seq<int>, limit: int, from: int)
    requires limit >= 1 && AllBefore(before, from)
    ensures var b := After(before, limit); var more := WorstSchedule(b, limit, from);
      Continues(more, from) && Granted(before + more, limit, from) == Spare(b, limit, from) + limit
  {
    var b := After(before, limit);
    var next := if b.None? || from - b.value.start >= WINDOW then from else b.value.start + WINDOW;
    var start := Repeat(from, Spare(b, limit, from));
    SpareIsGranted(before, limit, from);
    WorstScheduleContinues(b, limit, from);
    hide Granted, After, AllBefore, Spare, Continues, Nondecreasing;
    NewWindowIsGranted(before + start, limit, from, next);
    assert before + WorstSchedule(b, limit, from) == before + start + [next] + Repeat(next, limit - 1);
  }

  /** Whatever follows, the minute that begins at `from` is granted at most the documented limit exactly when it
      does not begin inside a window with quota left. */
  lemma DocumentedLimitHoldsIff(before: seq<int>, limit: int, from: int)
    requires limit >= 1 && AllBefore(before, from)
    ensures (forall more :: Continues(more, from) ==> Granted(before + more, limit, from) <= limit)
            <==> !CarriesQuota(After(before, limit), limit, from)
  {
    var b := After(before, limit);
    WorstIsReached(before, limit, from);
    if !CarriesQuota(b, limit, from) {
      forall more | Continues(more, from)
        ensures Granted(before + more, limit, from) <= limit
      {
        WorstMinute(before, more, limit, from);
      }
    }
    hide Granted, After, Continues, WorstSchedule;
  }

  // -------------------------------------------------------------- many keys, one store

  datatype Call = Call(key: string, now: int)

  /** The buckets of a store after a sequence of AllowBucket calls. */
  function StoreAfter(calls: seq<Call>, limit: int, key: string): Option<Bucket> {
    if calls == [] then None
    else
      var b := StoreAfter(Front(calls), limit, key);
      if Last(calls).key == key then Touched(b, Last(calls).now, limit) else b
  }

  function TimesOf(calls: seq<Call>, key: string): seq<int> {
    if calls == [] then []
    else if Last(calls).key == key then TimesOf(Front(calls), key) + [Last(calls).now]
    else TimesOf(Front(calls), key)
  }

  /** A key's bucket is what its own requests made of it: other keys never matter. */
  lemma {:induction false} KeysAreIsolated(calls: seq<Call>, limit: int, key: string)
    ensures StoreAfter(calls, limit, key) == After(TimesOf(calls, key), limit)
  {
    if calls != [] {
      KeysAreIsolated(Front(calls), limit, key);
      if Last(calls).key == key {
        FrontLast(TimesOf(Front(calls), key), Last(calls).now);
      }
    }
  }

  // ---------------------------------------------------------------- the whole limiter

  datatype Request = Request(ip: string, user: string, now: int)

  function IpCalls(requests: seq<Request>): seq<Call> {
    if requests == [] then []
    else if Last(requests).ip == "" then IpCalls(Front(requests))
    else IpCalls(Front(requests)) + [Call(Last(requests).ip, Last(requests).now)]
  }

  /** The verdict of the IP bucket on the last request. */
  predicate IpGrants(requests: seq<Request>)
    requires requests != []
  {
    var r := Last(requests);
    r.ip == "" || Grants(StoreAfter(IpCalls(Front(requests)), IP_LIMIT, r.ip), r.now, IP_LIMIT)
  }

  /** The user bucket only sees requests that passed the IP bucket. */
  function UserCalls(requests: seq<Request>): seq<Call> {
    if requests == [] then []
    else if Last(requests).user == "" || !IpGrants(requests) then UserCalls(Front(requests))
    else UserCalls(Front(requests)) + [Call(Last(requests).user, Last(requests).now)]
  }

  predicate UserGrants(requests: seq<Request>)
    requires requests != []
  {
    var r := Last(requests);
    r.user == "" || Grants(StoreAfter(UserCalls(Front(requests)), USER_LIMIT, r.user), r.now, USER_LIMIT)
  }

  predicate Allowed(requests: seq<Request>)
    requires requests != []
  {
    IpGrants(requests) && UserGrants(requests)
  }

  function AllowedForIp(requests: seq<Request>, ip: string, from: int): nat {
    if requests == [] then 0
    else AllowedForIp(Front(requests), ip, from)
         + (if Last(requests).ip == ip && from <= Last(requests).now < from + WINDOW && Allowed(requests) then 1 else 0)
  }

  function AllowedForUser(requests: seq<Request>, user: string, from: int): nat {
    if requests == [] then 0
    else AllowedForUser(Front(requests), user, from)
         + (if Last(requests).user == user && from <= Last(requests).now < from + WINDOW && Allowed(requests)
            then 1 else 0)
  }

  predicate ClockRuns(requests: seq<Request>) {
    forall i, j :: 0 <= i < j < |requests| ==> requests[i].now <= requests[j].now
  }

  lemma AddCall(calls: seq<Call>, call: Call, limit: int, key: string)
    ensures TimesOf(calls + [call], key)
      == if call.key == key then TimesOf(calls, key) + [call.now] else TimesOf(calls, key)
    ensures StoreAfter(calls + [call], limit, key)
      == if call.key == key then Touched(StoreAfter(calls, limit, key), call.now, limit)
         else StoreAfter(calls, limit, key)
  {
    FrontLast(calls, call);
  }

  lemma ClockRan(requests: seq<Request>)
    requires ClockRuns(requests) && requests != []
    ensures ClockRuns(Front(requests))
    ensures Front(requests) != [] ==> Last(Front(requests)).now <= Last(requests).now
  {
  }

  predicate Ordered(times: seq<int>, requests: seq<Request>) {
    Nondecreasing(times) && forall t :: t in times ==> requests != [] && t <= Last(requests).now
  }

  lemma OrderedOneMore(times: seq<int>, requests: seq<Request>)
    requires requests != [] && ClockRuns(requests) && Ordered(times, Front(requests))
    ensures Ordered(times, requests) && Ordered(times + [Last(requests).now], requests)
  {
    ClockRan(requests);
    assert forall i :: 0 <= i < |times| ==> times[i] in times;
  }

  lemma GrantedOneMore(times: seq<int>, now: int, limit: int, from: int)
    ensures Granted(times + [now], limit, from) == Granted(times, limit, from)
      + (if from <= now < from + WINDOW && Grants(After(times, limit), now, limit) then 1 else 0)
  {
    FrontLast(times, now);
  }

  lemma IpTimesLast(requests: seq<Request>, ip: string)
    requires ip != "" && requests != []
    ensures var r, before := Last(requests), TimesOf(IpCalls(Front(requests)), ip);
      TimesOf(IpCalls(requests), ip) == if r.ip == ip then before + [r.now] else before
    ensures Last(requests).ip == ip ==>
      (IpGrants(requests) <==>
         Grants(After(TimesOf(IpCalls(Front(requests)), ip), IP_LIMIT), Last(requests).now, IP_LIMIT))
  {
    hide After, Grants, Touched;
    var r, calls := Last(requests), IpCalls(Front(requests));
    AddCall(calls, Call(r.ip, r.now), IP_LIMIT, ip);
    KeysAreIsolated(calls, IP_LIMIT, ip);
  }

  lemma {:induction false} IpTimesAreOrdered(requests: seq<Request>, ip: string)
    requires ip != "" && ClockRuns(requests)
    ensures Ordered(TimesOf(IpCalls(requests), ip), requests)
    decreases |requests|
  {
    if requests != [] {
      ClockRan(requests);
      IpTimesLast(requests, ip);
      hide *;
      IpTimesAreOrdered(Front(requests), ip);
      OrderedOneMore(TimesOf(IpCalls(Front(requests)), ip), requests);
    }
  }

  lemma {:induction false} IpTimes(requests: seq<Request>, ip: string, from: int)
    requires ip != "" && ClockRuns(requests)
    ensures AllowedForIp(requests, ip, from) <= Granted(TimesOf(IpCalls(requests), ip), IP_LIMIT, from)
    decreases |requests|
  {
    if requests != [] {
      ClockRan(requests);
      IpTimes(Front(requests), ip, from);
      IpTimesLast(requests, ip);
      GrantedOneMore(TimesOf(IpCalls(Front(requests)), ip), Last(requests).now, IP_LIMIT, from);
      hide Granted, Touched, Grants, IpGrants, UserGrants, IpCalls, ClockRuns, After, TimesOf;
    }
  }

  lemma UserTimesLast(requests: seq<Request>, user: string)
    requires user != "" && requests != []
    ensures var r, before := Last(requests), TimesOf(UserCalls(Front(requests)), user);
      TimesOf(UserCalls(requests), user) == if r.user == user && IpGrants(requests) then before + [r.now] else before
    ensures Last(requests).user == user ==>
      (UserGrants(requests) <==>
         Grants(After(TimesOf(UserCalls(Front(requests)), user), USER_LIMIT), Last(requests).now, USER_LIMIT))
  {
    hide IpGrants, After, Grants, Touched;
    var r, calls := Last(requests), UserCalls(Front(requests));
    AddCall(calls, Call(r.user, r.now), USER_LIMIT, user);
    KeysAreIsolated(calls, USER_LIMIT, user);
  }

  lemma {:induction false} UserTimesAreOrdered(requests: seq<Request>, user: string)
    requires user != "" && ClockRuns(requests)
    ensures Ordered(TimesOf(UserCalls(requests), user), requests)
    decreases |requests|
  {
    if requests != [] {
      ClockRan(requests);
      UserTimesLast(requests, user);
      hide *;
      UserTimesAreOrdered(Front(requests), user);
      OrderedOneMore(TimesOf(UserCalls(Front(requests)), user), requests);
    }
  }

  lemma AllowedForUserLast(requests: seq<Request>, user: string, from: int)
    requires requests != []
    ensures var r := Last(requests);
      AllowedForUser(requests, user, from) == AllowedForUser(Front(requests), user, from)
        + (if r.user == user && from <= r.now < from + WINDOW && IpGrants(requests) && UserGrants(requests)
           then 1 else 0)
  {
    hide IpGrants, UserGrants;
  }

  lemma GrantedForUserLast(requests: seq<Request>, user: string, from: int)
    requires user != "" && requests != []
    ensures var r := Last(requests);
      Granted(TimesOf(UserCalls(requests), user), USER_LIMIT, from)
      == Granted(TimesOf(UserCalls(Front(requests)), user), USER_LIMIT, from)
        + (if r.user == user && from <= r.now < from + WINDOW && IpGrants(requests) && UserGrants(requests)
           then 1 else 0)
  {
    hide *;
    UserTimesLast(requests, user);
    GrantedOneMore(TimesOf(UserCalls(Front(requests)), user), Last(requests).now, USER_LIMIT, from);
  }

  lemma NoUserTimes(requests: seq<Request>, user: string, from: int)
    requires requests == []
    ensures AllowedForUser(requests, user, from) == Granted(TimesOf(UserCalls(requests), user), USER_LIMIT, from) == 0
  {
  }

  lemma {:induction false} UserTimes(requests: seq<Request>, user: string, from: int)
    requires user != "" && ClockRuns(requests)
    ensures AllowedForUser(requests, user, from) == Granted(TimesOf(UserCalls(requests), user), USER_LIMIT, from)
    decreases |requests|
  {
    if requests == [] {
      NoUserTimes(requests, user, from);
    } else {
      ClockRan(requests);
      hide *;
      UserTimes(Front(requests), user, from);
      AllowedForUserLast(requests, user, from);
      GrantedForUserLast(requests, user, from);
    }
  }

  /** At most 199 requests of an IP pass within any half-open minute. */
  lemma IpRate(requests: seq<Request>, ip: string, from: int)
    requires ip != "" && ClockRuns(requests)
    ensures AllowedForIp(requests, ip, from) <= 199
  {
    IpTimesAreOrdered(requests, ip);
    IpTimes(requests, ip, from);
    RateBound(TimesOf(IpCalls(requests), ip), IP_LIMIT, from);
  }

  /** At most 1999 requests of a user pass within any half-open minute. */
  lemma UserRate(requests: seq<Request>, user: string, from: int)
    requires user != "" && ClockRuns(requests)
    ensures AllowedForUser(requests, user, from) <= 1999
  {
    UserTimesAreOrdered(requests, user);
    UserTimes(requests, user, from);
    RateBound(TimesOf(UserCalls(requests), user), USER_LIMIT, from);
  }

  /** The verdict of an IP bucket is what it would be if only that IP had ever sent requests. */
  lemma IpVerdictIsItsOwn(requests: seq<Request>)
    requires requests != [] && Last(requests).ip != ""
    ensures var times := TimesOf(IpCalls(requests), Last(requests).ip);
      times != [] && (IpGrants(requests) <==> LastGranted(times, IP_LIMIT))
  {
    var r := Last(requests);
    var before := IpCalls(Front(requests));
    AddCall(before, Call(r.ip, r.now), IP_LIMIT, r.ip);
    KeysAreIsolated(before, IP_LIMIT, r.ip);
    FrontLast(TimesOf(before, r.ip), r.now);
  }

  /** The IP bucket refuses a request only when it let a hundred requests of that IP through within the last minute. */
  lemma RefusedIpHadItsHundred(requests: seq<Request>)
    requires requests != [] && ClockRuns(requests) && !IpGrants(requests)
    ensures var r := Last(requests);
      Granted(TimesOf(IpCalls(Front(requests)), r.ip), IP_LIMIT, r.now - WINDOW + 1) >= IP_LIMIT
  {
    var r := Last(requests);
    var times := TimesOf(IpCalls(Front(requests)), r.ip);
    ClockRan(requests);
    IpVerdictIsItsOwn(requests);
    IpTimesAreOrdered(Front(requests), r.ip);
    OrderedOneMore(times, requests);
    IpTimesLast(requests, r.ip);
    hide *;
    RefusedOneMore(times, r.now, IP_LIMIT);
  }

  lemma RefusedOneMore(times: seq<int>, now: int, limit: int)
    ensures Nondecreasing(times + [now]) && !LastGranted(times + [now], limit) ==>
      Granted(times, limit, now - WINDOW + 1) >= limit
  {
    if Nondecreasing(times + [now]) && !LastGranted(times + [now], limit) {
      RefusedHadItsLimit(times, now, limit);
    }
  }

  /** The user bucket refuses a request only when a thousand requests of that user were allowed within the last minute:
      requests refused for their IP do not count. */
  lemma RefusedUserHadItsThousand(requests: seq<Request>)
    requires requests != [] && ClockRuns(requests) && !UserGrants(requests)
    ensures var r := Last(requests); AllowedForUser(Front(requests), r.user, r.now - WINDOW + 1) >= USER_LIMIT
  {
    var r := Last(requests);
    assert r.user != "";
    var times := TimesOf(UserCalls(Front(requests)), r.user);
    ClockRan(requests);
    UserTimesAreOrdered(Front(requests), r.user);
    OrderedOneMore(times, requests);
    UserTimesLast(requests, r.user);
    UserTimes(Front(requests), r.user, r.now - WINDOW + 1);
    FrontLast(times, r.now);
    assert Nondecreasing(times + [r.now]) && !LastGranted(times + [r.now], USER_LIMIT);
    hide *;
    RefusedOneMore(times, r.now, USER_LIMIT);
  }

  // ------------------------------------------------------------ the limiter in place

  class BucketStore {
    var buckets: map<string, Bucket>

    constructor ()
      ensures buckets == map[]
    {
      buckets := map[];
    }

    function Get(key: string): Option<Bucket>
      reads this
    {
      if key in buckets then Some(buckets[key]) else None
    }

    method AllowBucket(key: string, now: int, limit: int) returns (ok: bool)
      modifies this
      ensures ok <==> key == "" || Grants(old(Get(key)), now, limit)
      ensures key != "" ==> Get(key) == Touched(old(Get(key)), now, limit)
      ensures forall k :: k != key || k == "" ==> Get(k) == old(Get(k))
    {
      if key == "" { return true; }
      if key !in buckets || now - buckets[key].start >= WINDOW {
        buckets := buckets[key := Bucket(now, 1)];
        return true;
      }
      var bucket := buckets[key];
      if bucket.count >= limit { return false; }
      buckets := buckets[key := Bucket(bucket.start, bucket.count + 1)];
      ok := true;
    }
  }

  class Limiter {
    const byIP: BucketStore
    const byUser: BucketStore
    ghost var history: seq<Request>

    ghost predicate Valid()
      reads this, byIP, byUser
    {
      && byIP != byUser
      && (forall k :: k != "" ==> byIP.Get(k) == StoreAfter(IpCalls(history), IP_LIMIT, k))
      && (forall k :: k != "" ==> byUser.Get(k) == StoreAfter(UserCalls(history), USER_LIMIT, k))
    }

    constructor ()
      ensures Valid() && fresh(byIP) && fresh(byUser) && history == []
    {
      byIP := new BucketStore();
      byUser := new BucketStore();
      history := [];
    }

    /** A request refused for its IP does not touch the user's bucket; one refused for its user has
        already used up quota of the IP. */
    method Allow(ip: string, user: string, now: int) returns (ok: bool)
      requires Valid()
      modifies this`history, byIP, byUser
      ensures Valid() && history == old(history) + [Request(ip, user, now)]
      ensures ok <==> Allowed(history)
    {
      ghost var before := history;
      FrontLast(before, Request(ip, user, now));
      FrontLast(IpCalls(before), Call(ip, now));
      FrontLast(UserCalls(before), Call(user, now));
      history := history + [Request(ip, user, now)];
      ok := byIP.AllowBucket(ip, now, IP_LIMIT);
      assert ok <==> IpGrants(history);
      if ok && user != "" {
        ok := byUser.AllowBucket(user, now, USER_LIMIT);
      }
      hide Touched, Grants;
    }
  }
}
