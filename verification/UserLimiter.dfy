/**
 The per-user limiter of internal/app/ratelimit.go: a token bucket per user, dropped once
 the user has been idle for the idle period.

 The theorem is that dropping is unobservable exactly because an idle bucket would be full
 again: on a clock that never runs back, and with idle * rate >= burst, every call gets the
 answer it would get from a limiter that keeps every bucket for ever.
 */
module UserLimiters {
  import opened Wrappers
  import opened TokenBuckets

  type UserId = string

  datatype UserBucket = UserBucket(bucket: Bucket, seen: real)

  // nextSweep is None before the first call: Go's zero time is before every clock reading.
  datatype State = State(users: map<UserId, UserBucket>, nextSweep: Option<real>)

  const NewState := State(map[], None)

  predicate Idle(user: UserBucket, now: real, idle: real) { now - user.seen >= idle }

  predicate SweepDue(s: State, now: real) { s.nextSweep.None? || now >= s.nextSweep.value }

  function Swept(s: State, now: real, idle: real): State {
    if SweepDue(s, now)
    then State(map id | id in s.users && !Idle(s.users[id], now, idle) :: s.users[id], Some(now + idle))
    else s
  }

  // The bucket a call finds: the user's own, or a new one.
  function Found(s: State, id: UserId): Bucket {
    if id in s.users then s.users[id].bucket else NewBucket
  }

  function Asked(s: State, id: UserId, now: real, limits: Limits): State {
    var b := Refilled(Found(s, id), now, limits);
    s.(users := s.users[id := UserBucket(if b.tokens >= 1.0 then Taken(b) else b, now)])
  }

  predicate Answer(s: State, id: UserId, now: real, limits: Limits) {
    Refilled(Found(s, id), now, limits).tokens >= 1.0
  }

  class UserLimiter {
    const limits: Limits
    const idle: real
    var users: map<UserId, UserBucket>
    var nextSweep: Option<real>

    ghost function Contents(): State
      reads this
    {
      State(users, nextSweep)
    }

    constructor (limits: Limits, idle: real)
      ensures Contents() == NewState && this.limits == limits && this.idle == idle
    {
      this.limits, this.idle := limits, idle;
      users, nextSweep := map[], None;
    }

    method Sweep(now: real)
      modifies this
      ensures Contents() == Swept(old(Contents()), now, idle)
    {
      if nextSweep.None? || now >= nextSweep.value {
        var ids := users.Keys;
        while ids != {}
          invariant ids <= old(users.Keys)
          invariant nextSweep == old(nextSweep)
          invariant users == map id | id in old(users) && (id in ids || !Idle(old(users)[id], now, idle)) :: old(users)[id]
          decreases ids
        {
          var id :| id in ids;
          if now - users[id].seen >= idle {
            users := users - {id};
          }
          ids := ids - {id};
        }
        nextSweep := Some(now + idle);
      }
    }

    method Allow(id: UserId, now: real) returns (ok: bool)
      modifies this
      ensures ok == Answer(Swept(old(Contents()), now, idle), id, now, limits)
      ensures Contents() == Asked(Swept(old(Contents()), now, idle), id, now, limits)
    {
      Sweep(now);
      var bucket := new TokenBucket();
      if id in users {
        bucket.tokens, bucket.last := users[id].bucket.tokens, users[id].bucket.last;
      }
      ok := bucket.Allow(now, limits);
      users := users[id := UserBucket(Bucket(bucket.tokens, bucket.last), now)];
    }
  }

  // ---------------------------------------------------------------------------
  // Forgetting idle users is unobservable
  // ---------------------------------------------------------------------------

  datatype Call = Call(id: UserId, now: real)

  predicate OnClock(calls: seq<Call>) {
    forall i, j :: 0 <= i < j < |calls| ==> calls[i].now <= calls[j].now
  }

  function Answers(s: State, calls: seq<Call>, limits: Limits, idle: real): (answers: seq<bool>)
    ensures |answers| == |calls|
    decreases |calls|
  {
    if calls == [] then []
    else
      var swept := Swept(s, calls[0].now, idle);
      [Answer(swept, calls[0].id, calls[0].now, limits)]
        + Answers(Asked(swept, calls[0].id, calls[0].now, limits), calls[1..], limits, idle)
  }

  // The reference: the same limiter without its sweep.
  function PatientAnswers(s: State, calls: seq<Call>, limits: Limits): (answers: seq<bool>)
    ensures |answers| == |calls|
    decreases |calls|
  {
    if calls == [] then []
    else
      [Answer(s, calls[0].id, calls[0].now, limits)]
        + PatientAnswers(Asked(s, calls[0].id, calls[0].now, limits), calls[1..], limits)
  }

  // A kept bucket was last refilled when its user was last seen, and owes nothing.
  ghost predicate Sound(s: State, now: real, limits: Limits) {
    forall id :: id in s.users ==>
      var user := s.users[id];
      user.bucket.last == Some(user.seen) && user.seen <= now
      && 0.0 <= user.bucket.tokens <= limits.burst
  }

  // `s` is what sweeping left of `full`: it lacks only users idle for the whole period.
  ghost predicate Forgot(s: State, full: State, now: real, idle: real) {
    && (forall id :: id in s.users ==> id in full.users && full.users[id] == s.users[id])
    && (forall id :: id in full.users && id !in s.users ==> Idle(full.users[id], now, idle))
  }

  lemma IdleBucketIsFull(user: UserBucket, now: real, limits: Limits, idle: real)
    requires limits.Valid() && idle > 0.0 && idle * limits.rate >= limits.burst
    requires user.bucket.last == Some(user.seen) && user.bucket.tokens >= 0.0 && Idle(user, now, idle)
    ensures Refilled(user.bucket, now, limits) == Refilled(NewBucket, now, limits)
  {
    var elapsed := now - user.seen;
    EarnedKeepsOrder(idle, elapsed, limits);
    assert Earned(idle, limits) == idle * limits.rate && Earned(elapsed, limits) == elapsed * limits.rate;
    assert user.bucket.tokens + elapsed * limits.rate >= limits.burst;
  }

  lemma StepUnobservable(s: State, full: State, call: Call, before: real, limits: Limits, idle: real)
    requires limits.Valid() && idle > 0.0 && idle * limits.rate >= limits.burst
    requires before <= call.now
    requires Sound(full, before, limits) && Forgot(s, full, before, idle)
    ensures var swept := Swept(s, call.now, idle);
            && Answer(swept, call.id, call.now, limits) == Answer(full, call.id, call.now, limits)
            && Sound(Asked(full, call.id, call.now, limits), call.now, limits)
            && Forgot(Asked(swept, call.id, call.now, limits), Asked(full, call.id, call.now, limits), call.now, idle)
  {
    var swept := Swept(s, call.now, idle);
    assert Forgot(swept, full, call.now, idle);
    if call.id in full.users {
      RefillStaysInRange(full.users[call.id].bucket, call.now, limits);
      if call.id !in swept.users {
        IdleBucketIsFull(full.users[call.id], call.now, limits, idle);
      }
    }
    assert Refilled(Found(swept, call.id), call.now, limits) == Refilled(Found(full, call.id), call.now, limits);
  }

  lemma RefillStaysInRange(b: Bucket, now: real, limits: Limits)
    requires limits.Valid() && b.last.Some? && 0.0 <= b.tokens <= limits.burst
    requires b.last.value <= now
    ensures 0.0 <= Refilled(b, now, limits).tokens <= limits.burst
    ensures Refilled(b, now, limits).last == Some(now)
  {
    EarnedKeepsOrder(0.0, now - b.last.value, limits);
  }

  lemma {:induction false} RunUnobservable(
      s: State, full: State, calls: seq<Call>, before: real, limits: Limits, idle: real)
    requires limits.Valid() && idle > 0.0 && idle * limits.rate >= limits.burst
    requires OnClock(calls) && (calls != [] ==> before <= calls[0].now)
    requires Sound(full, before, limits) && Forgot(s, full, before, idle)
    ensures Answers(s, calls, limits, idle) == PatientAnswers(full, calls, limits)
    decreases |calls|
  {
    if calls != [] {
      var call := calls[0];
      StepUnobservable(s, full, call, before, limits, idle);
      RunUnobservable(Asked(Swept(s, call.now, idle), call.id, call.now, limits),
                      Asked(full, call.id, call.now, limits), calls[1..], call.now, limits, idle);
    }
  }

  lemma {:induction false} ForgettingUnobservable(calls: seq<Call>, limits: Limits, idle: real)
    requires limits.Valid() && idle > 0.0 && idle * limits.rate >= limits.burst
    requires OnClock(calls)
    ensures Answers(NewState, calls, limits, idle) == PatientAnswers(NewState, calls, limits)
  {
    if calls != [] {
      RunUnobservable(NewState, NewState, calls, calls[0].now, limits, idle);
    }
  }

  // The three limiters the program builds, for shortcuts, suggestions and IMSLP searches, each
  // with an idle period of ten minutes.
  const BUILT := [Limits(10.0 / 60.0, 10.0), Limits(4.0, 8.0), Limits(2.0, 4.0)]

  // None of them is ever noticed to forget.
  lemma {:induction false} BuiltLimitersForgetUnnoticed(calls: seq<Call>, k: nat)
    requires OnClock(calls) && k < |BUILT|
    ensures Answers(NewState, calls, BUILT[k], 600.0) == PatientAnswers(NewState, calls, BUILT[k])
  {
    ForgettingUnobservable(calls, BUILT[k], 600.0);
  }

  // ---------------------------------------------------------------------------
  // A shorter idle period is observable
  // ---------------------------------------------------------------------------

  function Repeated(call: Call, n: nat): (calls: seq<Call>)
    ensures |calls| == n && forall i :: 0 <= i < n ==> calls[i] == call
  {
    seq(n, i => call)
  }

  function AskedTimes(s: State, call: Call, n: nat, limits: Limits): State
    decreases n
  {
    if n == 0 then s else AskedTimes(Asked(s, call.id, call.now, limits), call, n - 1, limits)
  }

  // Asking n times at one moment grants exactly the tokens that are there, then refuses.
  lemma {:induction false} DrainsAtOnce(s: State, call: Call, n: nat, limits: Limits)
    decreases n
    requires limits.Valid() && n > 0
    requires Found(s, call.id).last.Some? ==> Found(s, call.id).last.value <= call.now
    ensures var tokens := Refilled(Found(s, call.id), call.now, limits).tokens;
            && PatientAnswers(s, Repeated(call, n), limits)[n - 1] == (tokens >= n as real)
            && (tokens >= n as real ==>
                  AskedTimes(s, call, n, limits)
                  == s.(users := s.users[call.id := UserBucket(Bucket(tokens - n as real, Some(call.now)), call.now)]))
  {
    var next := Asked(s, call.id, call.now, limits);
    assert Repeated(call, n)[1..] == Repeated(call, n - 1);
    if n > 1 {
      DrainsAtOnce(next, call, n - 1, limits);
      assert next.users[call.id := next.users[call.id]] == next.users;
    }
  }

  lemma {:induction false} AnswersAfterRepeats(
      s: State, call: Call, n: nat, rest: seq<Call>, limits: Limits, idle: real)
    ensures PatientAnswers(s, Repeated(call, n) + rest, limits)[n..]
            == PatientAnswers(AskedTimes(s, call, n, limits), rest, limits)
    decreases n
    ensures s.nextSweep == Some(call.now + idle) && idle > 0.0 ==>
              Answers(s, Repeated(call, n) + rest, limits, idle)[n..]
              == Answers(AskedTimes(s, call, n, limits), rest, limits, idle)
  {
    if n == 0 {
      assert Repeated(call, n) + rest == rest;
    } else {
      assert (Repeated(call, n) + rest)[1..] == Repeated(call, n - 1) + rest;
      AnswersAfterRepeats(Asked(s, call.id, call.now, limits), call, n - 1, rest, limits, idle);
    }
  }

  // A user who spends a burst of n tokens, goes away for the idle period and asks n times
  // again: keeping the bucket refuses the last request, forgetting it grants it.
  function ComeBack(id: UserId, n: nat, idle: real): seq<Call> {
    Repeated(Call(id, 0.0), n) + Repeated(Call(id, idle), n)
  }

  lemma {:induction false} ForgettingObservable(id: UserId, n: nat, limits: Limits, idle: real)
    requires limits.Valid() && limits.burst == n as real && idle > 0.0
    requires idle * limits.rate < limits.burst
    ensures OnClock(ComeBack(id, n, idle))
    ensures Answers(NewState, ComeBack(id, n, idle), limits, idle)[2 * n - 1]
    ensures !PatientAnswers(NewState, ComeBack(id, n, idle), limits)[2 * n - 1]
  {
    KeepingRefuses(id, n, limits, idle);
    ForgettingGrants(id, n, limits, idle);
  }

  lemma {:induction false} KeepingRefuses(id: UserId, n: nat, limits: Limits, idle: real)
    requires limits.Valid() && limits.burst == n as real && idle > 0.0
    requires idle * limits.rate < limits.burst
    ensures !PatientAnswers(NewState, ComeBack(id, n, idle), limits)[2 * n - 1]
  {
    var first, second := Call(id, 0.0), Call(id, idle);
    var again := Repeated(second, n);
    DrainsAtOnce(NewState, first, n, limits);
    AnswersAfterRepeats(NewState, first, n, again, limits, idle);
    var kept := AskedTimes(NewState, first, n, limits);
    assert Found(kept, id) == Bucket(0.0, Some(0.0));
    DrainsAtOnce(kept, second, n, limits);
    assert PatientAnswers(NewState, ComeBack(id, n, idle), limits)[n..] == PatientAnswers(kept, again, limits);
  }

  lemma {:induction false} ForgettingGrants(id: UserId, n: nat, limits: Limits, idle: real)
    requires limits.Valid() && limits.burst == n as real && idle > 0.0
    ensures Answers(NewState, ComeBack(id, n, idle), limits, idle)[2 * n - 1]
  {
    var first, second := Call(id, 0.0), Call(id, idle);
    var again := Repeated(second, n);
    // The first call only sets the next sweep.
    var swept := State(map[], Some(idle));
    assert Swept(NewState, 0.0, idle) == swept == Swept(swept, 0.0, idle);
    var calls := ComeBack(id, n, idle);
    assert calls[0] == first;
    assert Answers(NewState, calls, limits, idle) == Answers(swept, calls, limits, idle);
    DrainsAtOnce(swept, first, n, limits);
    AnswersAfterRepeats(swept, first, n, again, limits, idle);
    var left := AskedTimes(swept, first, n, limits);
    assert left == State(map[id := UserBucket(Bucket(0.0, Some(0.0)), 0.0)], Some(idle));
    assert Swept(left, idle, idle) == State(map[], Some(idle + idle));
    SweepsOnce(left, second, n, limits, idle);
    DrainsAtOnce(Swept(left, idle, idle), second, n, limits);
    assert Answers(swept, calls, limits, idle)[n..] == Answers(left, again, limits, idle);
  }

  // After a sweep at t, further calls at t do not sweep again.
  lemma {:induction false} SweepsOnce(s: State, call: Call, n: nat, limits: Limits, idle: real)
    requires n > 0 && idle > 0.0 && SweepDue(s, call.now)
    ensures Answers(s, Repeated(call, n), limits, idle)
            == PatientAnswers(Swept(s, call.now, idle), Repeated(call, n), limits)
  {
    var swept := Swept(s, call.now, idle);
    assert Swept(swept, call.now, idle) == swept;
    assert Answers(s, Repeated(call, n), limits, idle) == Answers(swept, Repeated(call, n), limits, idle);
    NoSweepAtOnce(swept, call, n, limits, idle);
  }

  lemma {:induction false} NoSweepAtOnce(s: State, call: Call, n: nat, limits: Limits, idle: real)
    requires idle > 0.0 && s.nextSweep == Some(call.now + idle)
    ensures Answers(s, Repeated(call, n), limits, idle) == PatientAnswers(s, Repeated(call, n), limits)
    decreases n
  {
    if n > 0 {
      assert Repeated(call, n)[1..] == Repeated(call, n - 1);
      NoSweepAtOnce(Asked(s, call.id, call.now, limits), call, n - 1, limits, idle);
    }
  }
}
