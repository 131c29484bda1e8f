/**
 The token bucket of internal/app/ratelimit.go. Time and tokens are exact reals:
 seconds since an arbitrary origin, and fractions of a token.

 `Bucket` and the functions on it say what one call computes; the class `TokenBucket`
 is the mutable object of the program and is proved against them. The theorems are about
 whole runs of calls.
 */
module TokenBuckets {
  import opened Wrappers

  // A bucket that was never used has no refill time; it starts full.
  datatype Bucket = Bucket(tokens: real, last: Option<real>)

  const NewBucket := Bucket(0.0, None)

  datatype Limits = Limits(rate: real, burst: real)
  {
    // The rate and burst the program accepts: positive, and at least one token.
    predicate Valid() { rate > 0.0 && burst >= 1.0 }
  }

  function MinReal(a: real, b: real): real { if a <= b then a else b }

  // A clock that stands still or runs backwards adds nothing.
  function Refilled(b: Bucket, now: real, limits: Limits): Bucket {
    match b.last
    case None => Bucket(limits.burst, Some(now))
    case Some(last) =>
      if now > last
      then Bucket(MinReal(limits.burst, b.tokens + (now - last) * limits.rate), Some(now))
      else b
  }

  function Taken(b: Bucket): Bucket { b.(tokens := b.tokens - 1.0) }

  function Refunded(b: Bucket, limits: Limits): Bucket {
    b.(tokens := MinReal(limits.burst, b.tokens + 1.0))
  }

  // How long a reservation on a refilled bucket waits for its token.
  function WaitFor(b: Bucket, limits: Limits): real
    requires limits.rate != 0.0
  {
    if b.tokens < 1.0 then (1.0 - b.tokens) / limits.rate else 0.0
  }

  class TokenBucket {
    var tokens: real
    var last: Option<real>

    ghost function Contents(): Bucket
      reads this
    {
      Bucket(tokens, last)
    }

    constructor ()
      ensures Contents() == NewBucket
    {
      tokens, last := 0.0, None;
    }

    method Refill(now: real, limits: Limits)
      modifies this
      ensures Contents() == Refilled(old(Contents()), now, limits)
    {
      if last.None? {
        tokens, last := limits.burst, Some(now);
        return;
      }
      var elapsed := now - last.value;
      if elapsed > 0.0 {
        tokens := MinReal(limits.burst, tokens + elapsed * limits.rate);
        last := Some(now);
      }
    }

    // Takes a token only if a whole one is there now.
    method Allow(now: real, limits: Limits) returns (ok: bool)
      modifies this
      ensures ok == (Refilled(old(Contents()), now, limits).tokens >= 1.0)
      ensures Contents() == if ok then Taken(Refilled(old(Contents()), now, limits))
                            else Refilled(old(Contents()), now, limits)
    {
      Refill(now, limits);
      if tokens < 1.0 {
        return false;
      }
      tokens := tokens - 1.0;
      return true;
    }

    // Takes a token now or in the future; nothing is taken when the wait is too long.
    method Reserve(now: real, limits: Limits, maxWait: real) returns (wait: Option<real>)
      requires limits.Valid()
      modifies this
      ensures var b := Refilled(old(Contents()), now, limits);
              if WaitFor(b, limits) > maxWait
              then wait == None && Contents() == b
              else wait == Some(WaitFor(b, limits)) && Contents() == Taken(b)
    {
      Refill(now, limits);
      var delay := 0.0;
      if tokens < 1.0 {
        delay := (1.0 - tokens) / limits.rate;
      }
      if delay > maxWait {
        return None;
      }
      tokens := tokens - 1.0;
      return Some(delay);
    }

    // Gives back a token taken by Reserve for a request that was never made.
    method Refund(limits: Limits)
      modifies this
      ensures Contents() == Refunded(old(Contents()), limits)
    {
      tokens := MinReal(limits.burst, tokens + 1.0);
    }
  }

  // ---------------------------------------------------------------------------
  // Runs without refunds: when the granted requests depart
  // ---------------------------------------------------------------------------

  predicate NonDecreasing(times: seq<real>) {
    forall i, j :: 0 <= i < j < |times| ==> times[i] <= times[j]
  }

  // The departure time (grant time plus wait) of every granted request, for calls at the
  // given times with one maxWait.
  function Departures(b: Bucket, times: seq<real>, limits: Limits, maxWait: real): seq<real>
    requires limits.Valid()
    decreases |times|
  {
    if times == [] then []
    else
      var r := Refilled(b, times[0], limits);
      var wait := WaitFor(r, limits);
      if wait > maxWait then Departures(r, times[1..], limits, maxWait)
      else [times[0] + wait] + Departures(Taken(r), times[1..], limits, maxWait)
  }

  // Time counted in tokens: how many the bucket earns up to t.
  function Earned(t: real, limits: Limits): real { t * limits.rate }

  lemma EarnedKeepsOrder(x: real, y: real, limits: Limits)
    requires limits.Valid()
    ensures x <= y <==> Earned(x, limits) <= Earned(y, limits)
  {
    EarnedApart(x, y, limits);
    if x < y {
      assert (y - x) * limits.rate > 0.0;
    } else if y < x {
      assert (y - x) * limits.rate < 0.0;
    }
  }

  // What is earned from one moment to another.
  lemma EarnedApart(x: real, y: real, limits: Limits)
    ensures Earned(y, limits) == Earned(x, limits) + (y - x) * limits.rate
  {
    assert y == x + (y - x);
    assert (x + (y - x)) * limits.rate == x * limits.rate + (y - x) * limits.rate;
  }

  // The bucket seen from its latest departure, at u on the token clock, which left
  // `credit` tokens: before u the bucket owes exactly what is left to earn, after u it
  // refills like an ordinary bucket. `at` is the last refill on the token clock.
  ghost predicate SeenFrom(tokens: real, at: real, u: real, credit: real, burst: real) {
    && 0.0 <= credit <= burst - 1.0
    && (if at >= u then tokens == MinReal(burst, credit + (at - u))
        else credit == 0.0 && tokens == at - u)
  }

  ghost predicate Seen(b: Bucket, u: real, credit: real, limits: Limits) {
    b.last.Some? && SeenFrom(b.tokens, Earned(b.last.value, limits), u, credit, limits.burst)
  }

  lemma RefillKeepsView(b: Bucket, u: real, credit: real, now: real, limits: Limits)
    requires limits.Valid() && Seen(b, u, credit, limits)
    requires b.last.value <= now
    ensures Seen(Refilled(b, now, limits), u, credit, limits)
    ensures Refilled(b, now, limits).last == Some(now)
  {
    var last := b.last.value;
    EarnedApart(last, now, limits);
    EarnedKeepsOrder(last, now, limits);
    if last < now {
      RefillKeepsSeenFrom(b.tokens, Earned(last, limits), Earned(now, limits), u, credit, limits.burst);
    }
  }

  // The same on the token clock, where a refill adds exactly what the clock moved.
  lemma RefillKeepsSeenFrom(tokens: real, at: real, to: real, u: real, credit: real, burst: real)
    requires SeenFrom(tokens, at, u, credit, burst) && at <= to
    ensures SeenFrom(MinReal(burst, tokens + (to - at)), to, u, credit, burst)
  {
  }

  // Where the next departure falls on the token clock, and the credit it leaves.
  ghost function NextDeparture(tokens: real, at: real): real {
    if tokens < 1.0 then at + (1.0 - tokens) else at
  }

  ghost function NextCredit(tokens: real, at: real, u: real, credit: real, burst: real): real {
    MinReal(burst, credit + (NextDeparture(tokens, at) - u)) - 1.0
  }

  // One grant moves the view to its own departure, where it spends one token.
  lemma GrantMovesView(tokens: real, at: real, u: real, credit: real, burst: real)
    requires burst >= 1.0 && SeenFrom(tokens, at, u, credit, burst)
    ensures u <= NextDeparture(tokens, at)
    ensures SeenFrom(tokens - 1.0, at, NextDeparture(tokens, at), NextCredit(tokens, at, u, credit, burst), burst)
  {
  }

  lemma DepartureOnTokenClock(r: Bucket, limits: Limits)
    requires limits.Valid() && r.last.Some?
    ensures Earned(r.last.value + WaitFor(r, limits), limits)
            == NextDeparture(r.tokens, Earned(r.last.value, limits))
  {
    var wait := WaitFor(r, limits);
    if r.tokens < 1.0 {
      assert wait * limits.rate == 1.0 - r.tokens;
    }
    assert (r.last.value + wait) * limits.rate == r.last.value * limits.rate + wait * limits.rate;
  }

  // The refill and the grant together, as the steps of a run use them.
  lemma ServeMovesView(b: Bucket, u: real, credit: real, now: real, limits: Limits)
    returns (u': real, credit': real)
    requires limits.Valid() && Seen(b, u, credit, limits) && b.last.value <= now
    ensures var r := Refilled(b, now, limits);
            && r.last == Some(now)
            && Seen(r, u, credit, limits)
            && Seen(Taken(r), u', credit', limits)
            && u' == Earned(now + WaitFor(r, limits), limits)
            && u <= u' && credit' + 1.0 <= credit + (u' - u)
  {
    RefillKeepsView(b, u, credit, now, limits);
    var r := Refilled(b, now, limits);
    var at := Earned(now, limits);
    GrantMovesView(r.tokens, at, u, credit, limits.burst);
    DepartureOnTokenClock(r, limits);
    u', credit' := NextDeparture(r.tokens, at), NextCredit(r.tokens, at, u, credit, limits.burst);
  }

  // From a view at u, the k-th later departure cannot come before k + 1 tokens were earned.
  lemma {:induction false} DeparturesSpaced(
      b: Bucket, u: real, credit: real, times: seq<real>, limits: Limits, maxWait: real, k: nat)
    requires limits.Valid() && Seen(b, u, credit, limits)
    requires NonDecreasing(times) && (times != [] ==> b.last.value <= times[0])
    requires k < |Departures(b, times, limits, maxWait)|
    ensures var uk := Earned(Departures(b, times, limits, maxWait)[k], limits);
            u <= uk && k as real + 1.0 <= credit + (uk - u)
    decreases |times|
  {
    var r := Refilled(b, times[0], limits);
    var u', credit' := ServeMovesView(b, u, credit, times[0], limits);
    if WaitFor(r, limits) > maxWait {
      DeparturesSpaced(r, u, credit, times[1..], limits, maxWait, k);
    } else if k > 0 {
      DeparturesSpaced(Taken(r), u', credit', times[1..], limits, maxWait, k - 1);
    }
  }

  // A new bucket looks as if its latest departure was one token ago and left burst - 1.
  lemma NewBucketSeen(now: real, limits: Limits)
    requires limits.Valid()
    ensures Seen(Refilled(NewBucket, now, limits), Earned(now, limits) - 1.0, limits.burst - 1.0, limits)
  {
  }

  // Any departures i..j of a run number at most burst plus the tokens earned between them.
  lemma {:induction false} DeparturesBetween(
      b: Bucket, u: real, credit: real, times: seq<real>, limits: Limits, maxWait: real, i: nat, j: nat)
    requires limits.Valid() && NonDecreasing(times)
    requires Seen(b, u, credit, limits) && (times != [] ==> b.last.value <= times[0])
    requires i <= j < |Departures(b, times, limits, maxWait)|
    ensures var ds := Departures(b, times, limits, maxWait);
            Earned(ds[i], limits) <= Earned(ds[j], limits)
            && (j - i) as real + 1.0 <= limits.burst + (Earned(ds[j], limits) - Earned(ds[i], limits))
    decreases |times|
  {
    var r := Refilled(b, times[0], limits);
    var u', credit' := ServeMovesView(b, u, credit, times[0], limits);
    if WaitFor(r, limits) > maxWait {
      DeparturesBetween(r, u, credit, times[1..], limits, maxWait, i, j);
    } else if i > 0 {
      DeparturesBetween(Taken(r), u', credit', times[1..], limits, maxWait, i - 1, j - 1);
    } else if j > 0 {
      DeparturesSpaced(Taken(r), u', credit', times[1..], limits, maxWait, j - 1);
    }
  }

  // A set of positions has no more members than the stretch it lies in.
  lemma {:induction false} PositionsInStretch(s: set<nat>, lo: nat, hi: nat)
    requires forall k :: k in s ==> lo <= k <= hi
    ensures |s| <= if lo <= hi then hi - lo + 1 else 0
    decreases hi - lo
  {
    if lo > hi {
      assert s == {};
    } else {
      PositionsInStretch(s - {lo}, lo + 1, hi);
    }
  }

  lemma {:induction false} LeastAndGreatest(s: set<nat>) returns (lo: nat, hi: nat)
    requires s != {}
    ensures lo in s && hi in s && forall k :: k in s ==> lo <= k <= hi
    decreases |s|
  {
    var x :| x in s;
    lo, hi := x, x;
    var rest := s - {x};
    if rest != {} {
      var lo', hi' := LeastAndGreatest(rest);
      lo, hi := if lo' < x then lo' else x, if hi' > x then hi' else x;
    }
    assert forall k :: k in s ==> k == x || k in rest;
  }

  // The same for a bucket that starts full at its first call.
  lemma {:induction false} NewDeparturesBetween(times: seq<real>, limits: Limits, maxWait: real, i: nat, j: nat)
    requires limits.Valid() && NonDecreasing(times)
    requires i <= j < |Departures(NewBucket, times, limits, maxWait)|
    ensures var ds := Departures(NewBucket, times, limits, maxWait);
            (j - i) as real + 1.0 <= limits.burst + (Earned(ds[j], limits) - Earned(ds[i], limits))
  {
    var now := times[0];
    var full := Refilled(NewBucket, now, limits);
    NewBucketSeen(now, limits);
    assert Refilled(full, now, limits) == full;
    DeparturesBetween(full, Earned(now, limits) - 1.0, limits.burst - 1.0, times, limits, maxWait, i, j);
  }

  lemma EarnedWithin(x: real, y: real, D: real, limits: Limits)
    requires limits.Valid() && y - x <= D
    ensures Earned(y, limits) - Earned(x, limits) <= Earned(D, limits)
  {
    EarnedKeepsOrder(y - x, D, limits);
  }

  // Without refunds, on a clock that never runs back, a new bucket lets at most
  // burst + rate * D requests depart in any window of length D, whatever maxWait is.
  lemma {:induction false} WindowBound(times: seq<real>, limits: Limits, maxWait: real, from: real, D: real, window: set<nat>)
    requires limits.Valid() && NonDecreasing(times) && D >= 0.0
    requires var ds := Departures(NewBucket, times, limits, maxWait);
             forall k :: k in window ==> k < |ds| && from <= ds[k] <= from + D
    ensures |window| as real <= limits.burst + Earned(D, limits)
  {
    if window == {} {
      EarnedKeepsOrder(0.0, D, limits);
    } else {
      var lo, hi := LeastAndGreatest(window);
      PositionsInStretch(window, lo, hi);
      var ds := Departures(NewBucket, times, limits, maxWait);
      assert ds[hi] - ds[lo] <= D;
      EarnedWithin(ds[lo], ds[hi], D, limits);
      NewDeparturesBetween(times, limits, maxWait, lo, hi);
    }
  }

  // ---------------------------------------------------------------------------
  // Runs with refunds: how many reservations are kept
  // ---------------------------------------------------------------------------

  datatype Call = Reserve(now: real) | Refund

  // A bucket with the number of reservations granted and not given back.
  datatype Account = Account(bucket: Bucket, kept: int)

  const NewAccount := Account(NewBucket, 0)

  function AfterCall(a: Account, call: Call, limits: Limits, maxWait: real): Account
    requires limits.Valid()
  {
    match call
    case Refund => Account(Refunded(a.bucket, limits), a.kept - 1)
    case Reserve(now) =>
      var r := Refilled(a.bucket, now, limits);
      if WaitFor(r, limits) > maxWait then Account(r, a.kept) else Account(Taken(r), a.kept + 1)
  }

  function AfterCalls(calls: seq<Call>, limits: Limits, maxWait: real): Account
    requires limits.Valid()
  {
    if calls == [] then NewAccount
    else AfterCall(AfterCalls(calls[..|calls| - 1], limits, maxWait), calls[|calls| - 1], limits, maxWait)
  }

  // A refund follows the reservation it gives back, so the first call reserves.
  predicate StartsAt(calls: seq<Call>, start: real) {
    calls != [] ==> calls[0] == Reserve(start)
  }

  // Every call's clock reading is between start and end.
  predicate Within(calls: seq<Call>, start: real, end: real) {
    forall i :: 0 <= i < |calls| && calls[i].Reserve? ==> start <= calls[i].now <= end
  }

  // The conservation law behind the bound: tokens plus kept reservations never exceed what
  // the bucket was filled with, and the debt never exceeds what maxWait earns.
  ghost predicate Balanced(a: Account, start: real, limits: Limits, maxWait: real) {
    && a.bucket.last.Some?
    && a.bucket.last.value >= start
    && a.bucket.tokens + a.kept as real
         <= limits.burst + (Earned(a.bucket.last.value, limits) - Earned(start, limits))
    && a.bucket.tokens >= 0.0 - Earned(maxWait, limits)
  }

  lemma CallKeepsBalance(a: Account, call: Call, start: real, limits: Limits, maxWait: real)
    requires limits.Valid() && maxWait >= 0.0 && Balanced(a, start, limits, maxWait)
    ensures Balanced(AfterCall(a, call, limits, maxWait), start, limits, maxWait)
  {
    EarnedKeepsOrder(0.0, maxWait, limits);
    match call
    case Refund =>
    case Reserve(now) =>
      RefillKeepsBalance(a, now, start, limits, maxWait);
      var r := Refilled(a.bucket, now, limits);
      var wait := WaitFor(r, limits);
      if r.tokens < 1.0 {
        assert Earned(wait, limits) == 1.0 - r.tokens;
        EarnedKeepsOrder(wait, maxWait, limits);
      }
  }

  lemma RefillKeepsBalance(a: Account, now: real, start: real, limits: Limits, maxWait: real)
    requires limits.Valid() && Balanced(a, start, limits, maxWait)
    requires maxWait >= 0.0
    ensures Balanced(a.(bucket := Refilled(a.bucket, now, limits)), start, limits, maxWait)
  {
    var last := a.bucket.last.value;
    EarnedKeepsOrder(0.0, maxWait, limits);
    if now > last {
      EarnedKeepsOrder(last, now, limits);
      assert (now - last) * limits.rate == Earned(now, limits) - Earned(last, limits);
    }
  }

  lemma {:induction false} RunBalanced(calls: seq<Call>, start: real, end: real, limits: Limits, maxWait: real)
    requires limits.Valid() && maxWait >= 0.0 && calls != []
    requires StartsAt(calls, start) && Within(calls, start, end)
    ensures var a := AfterCalls(calls, limits, maxWait);
            Balanced(a, start, limits, maxWait) && a.bucket.last.value <= end
  {
    var before := calls[..|calls| - 1];
    if before == [] {
      assert AfterCalls(before, limits, maxWait) == NewAccount;
      EarnedKeepsOrder(0.0, maxWait, limits);
    } else {
      RunBalanced(before, start, end, limits, maxWait);
      CallKeepsBalance(AfterCalls(before, limits, maxWait), calls[|calls| - 1], start, limits, maxWait);
    }
  }

  // With refunds, the reservations kept by a run that takes from `start` to `end` are at
  // most burst + rate * elapsed + rate * maxWait. The clock may even run backwards.
  lemma {:induction false} KeptBound(calls: seq<Call>, start: real, end: real, limits: Limits, maxWait: real)
    requires limits.Valid() && maxWait >= 0.0 && start <= end
    requires StartsAt(calls, start) && Within(calls, start, end)
    ensures AfterCalls(calls, limits, maxWait).kept as real
            <= limits.burst + Earned(end - start, limits) + Earned(maxWait, limits)
  {
    EarnedKeepsOrder(0.0, maxWait, limits);
    EarnedKeepsOrder(0.0, end - start, limits);
    if calls != [] {
      RunBalanced(calls, start, end, limits, maxWait);
      EarnedWithin(start, AfterCalls(calls, limits, maxWait).bucket.last.value, end - start, limits);
    }
  }
}
