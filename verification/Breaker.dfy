/**
 The circuit breaker and outbound budget of internal/app/imslp.go, shared by work search
 and by file lookup (internal/app/imslp_files.go).

 `Breaker` is what the mutex protects; the class `CircuitBreaker` is proved against its
 functions. `System` adds any number of concurrent callers, each walking through admit,
 acquireOutbound, fetch and record one critical section at a time, so the theorems hold in
 every interleaving.
 */
module Breakers {
  import opened Wrappers
  import opened TokenBuckets

  datatype Config = Config(threshold: nat, cooldown: real, limits: Limits, maxWait: real, concurrency: nat)
  {
    // What the program's defaults ensure.
    predicate Valid() { threshold >= 1 && cooldown > 0.0 && limits.Valid() && maxWait >= 0.0 }
  }

  // openUntil is None before the breaker first opened: Go's zero time.
  datatype Breaker = Breaker(failures: nat, open: bool, openUntil: Option<real>, probing: bool)

  const NewBreaker := Breaker(0, false, None, false)

  // What a request came back with; retryAfter is positive only for an HTTP 429.
  datatype Outcome = Answered | Failed(retryAfter: real)

  datatype Admission = Refused | Admitted(probe: bool)

  predicate Cooling(b: Breaker, now: real) { b.openUntil.Some? && now < b.openUntil.value }

  function Decision(b: Breaker, now: real): Admission {
    if !b.open then Admitted(false)
    else if Cooling(b, now) || b.probing then Refused
    else Admitted(true)
  }

  function AfterAdmit(b: Breaker, now: real): Breaker {
    if Decision(b, now) == Admitted(true) then b.(probing := true) else b
  }

  function AfterAbandon(b: Breaker, probe: bool): Breaker {
    if probe then b.(probing := false) else b
  }

  function Later(until: real, openUntil: Option<real>): Option<real> {
    if openUntil.None? || until > openUntil.value then Some(until) else openUntil
  }

  function AfterRecord(b: Breaker, probe: bool, outcome: Outcome, now: real, cfg: Config): Breaker {
    var b := AfterAbandon(b, probe);
    match outcome
    case Answered =>
      if b.open && !probe then b else b.(failures := 0, open := false)
    case Failed(retryAfter) =>
      var b := b.(failures := b.failures + 1);
      if !b.open && b.failures < cfg.threshold && retryAfter == 0.0 then b
      else
        var cooldown := if retryAfter > 0.0 then retryAfter else cfg.cooldown;
        b.(open := true, openUntil := Later(now + cooldown, b.openUntil))
  }

  class CircuitBreaker {
    const cfg: Config
    var failures: nat
    var open: bool
    var openUntil: Option<real>
    var probing: bool

    ghost function Contents(): Breaker
      reads this
    {
      Breaker(failures, open, openUntil, probing)
    }

    constructor (cfg: Config)
      ensures Contents() == NewBreaker && this.cfg == cfg
    {
      this.cfg := cfg;
      failures, open, openUntil, probing := 0, false, None, false;
    }

    // After the cooldown exactly one probe is let through.
    method Admit(now: real) returns (admission: Admission)
      modifies this
      ensures admission == Decision(old(Contents()), now)
      ensures Contents() == AfterAdmit(old(Contents()), now)
    {
      if !open {
        return Admitted(false);
      }
      if (openUntil.Some? && now < openUntil.value) || probing {
        return Refused;
      }
      probing := true;
      return Admitted(true);
    }

    method AbandonProbe(probe: bool)
      modifies this
      ensures Contents() == AfterAbandon(old(Contents()), probe)
    {
      if !probe {
        return;
      }
      probing := false;
    }

    method Record(probe: bool, outcome: Outcome, now: real)
      modifies this
      ensures Contents() == AfterRecord(old(Contents()), probe, outcome, now, cfg)
    {
      if probe {
        probing := false;
      }
      if outcome.Answered? {
        // Only the half-open probe may close an open breaker.
        if open && !probe {
          return;
        }
        failures := 0;
        if open {
          open := false;
        }
        return;
      }
      failures := failures + 1;
      if !open && failures < cfg.threshold && outcome.retryAfter == 0.0 {
        return;
      }
      var cooldown := cfg.cooldown;
      if outcome.retryAfter > 0.0 {
        cooldown := outcome.retryAfter;
      }
      open := true;
      var until := now + cooldown;
      if openUntil.None? || until > openUntil.value {
        openUntil := Some(until);
      }
    }
  }

  // ---------------------------------------------------------------------------
  // Concurrent callers
  // ---------------------------------------------------------------------------

  type CallerId = nat

  // Where a caller is between two critical sections; `probe` is what admit told it.
  datatype Phase =
    | Let(probe: bool)         // admitted, about to reserve an outbound token
    | Waiting(probe: bool)     // holds a token, sleeping or waiting for a slot
    | Leaving(probe: bool)     // refused or timed out, about to abandon the probe
    | Fetching(probe: bool)    // holds a slot, the request is out
    | Recorded                 // recorded its outcome, about to give back the slot

  datatype System = System(breaker: Breaker, outbound: Bucket, callers: map<CallerId, Phase>)

  const NewSystem := System(NewBreaker, NewBucket, map[])

  datatype Step =
    | Arrive(c: CallerId, now: real)
    | Reserve(c: CallerId, now: real)
    | TimeOut(c: CallerId)
    | TakeSlot(c: CallerId)
    | Abandon(c: CallerId)
    | Record(c: CallerId, outcome: Outcome, now: real)
    | FreeSlot(c: CallerId)

  // The callers that hold one of the outbound slots.
  function SlotHolders(s: System): set<CallerId> {
    set c | c in s.callers && (s.callers[c].Fetching? || s.callers[c].Recorded?)
  }

  predicate Enabled(s: System, step: Step, cfg: Config) {
    if step.Arrive? then step.c !in s.callers
    else
      step.c in s.callers &&
      match s.callers[step.c]
      case Let(_) => step.Reserve?
      case Waiting(_) => step.TimeOut? || (step.TakeSlot? && |SlotHolders(s)| < cfg.concurrency)
      case Leaving(_) => step.Abandon?
      case Fetching(_) => step.Record?
      case Recorded => step.FreeSlot?
  }

  function At(s: System, c: CallerId, phase: Phase): System { s.(callers := s.callers[c := phase]) }

  function Gone(s: System, c: CallerId): System { s.(callers := s.callers - {c}) }

  function Next(s: System, step: Step, cfg: Config): System
    requires cfg.Valid() && Enabled(s, step, cfg)
  {
    match step
    case Arrive(c, now) =>
      var s' := s.(breaker := AfterAdmit(s.breaker, now));
      (match Decision(s.breaker, now)
       case Refused => s'
       case Admitted(probe) => At(s', c, Let(probe)))
    case Reserve(c, now) =>
      var r := Refilled(s.outbound, now, cfg.limits);
      var probe := s.callers[c].probe;
      if WaitFor(r, cfg.limits) > cfg.maxWait then At(s.(outbound := r), c, Leaving(probe))
      else At(s.(outbound := Taken(r)), c, Waiting(probe))
    case TimeOut(c) => At(s.(outbound := Refunded(s.outbound, cfg.limits)), c, Leaving(s.callers[c].probe))
    case TakeSlot(c) => At(s, c, Fetching(s.callers[c].probe))
    case Abandon(c) => Gone(s.(breaker := AfterAbandon(s.breaker, s.callers[c].probe)), c)
    case Record(c, outcome, now) =>
      At(s.(breaker := AfterRecord(s.breaker, s.callers[c].probe, outcome, now, cfg)), c, Recorded)
    case FreeSlot(c) => Gone(s, c)
  }

  predicate IsProbe(s: System, c: CallerId) {
    c in s.callers && !s.callers[c].Recorded? && s.callers[c].probe
  }

  // What every interleaving keeps.
  ghost predicate Inv(s: System, cfg: Config) {
    && (s.breaker.probing <==> exists c :: IsProbe(s, c))
    && (forall c, d :: IsProbe(s, c) && IsProbe(s, d) ==> c == d)
    && (s.breaker.probing ==> s.breaker.open)
    && (!s.breaker.open ==> s.breaker.failures < cfg.threshold)
    && |SlotHolders(s)| <= cfg.concurrency
  }

  lemma NewSystemInv(cfg: Config)
    requires cfg.Valid()
    ensures Inv(NewSystem, cfg)
  {
  }

  lemma SlotsKept(s: System, step: Step, cfg: Config)
    requires cfg.Valid() && Enabled(s, step, cfg) && |SlotHolders(s)| <= cfg.concurrency
    ensures |SlotHolders(Next(s, step, cfg))| <= cfg.concurrency
  {
    var before, after := SlotHolders(s), SlotHolders(Next(s, step, cfg));
    match step
    case TakeSlot(c) => assert after == before + {c};
    case FreeSlot(c) => assert after == before - {c};
    case _ => assert after == before;
  }

  lemma ProbesKept(s: System, step: Step, cfg: Config)
    requires cfg.Valid() && Enabled(s, step, cfg) && Inv(s, cfg)
    ensures var s' := Next(s, step, cfg);
            && (s'.breaker.probing <==> exists c :: IsProbe(s', c))
            && (forall c, d :: IsProbe(s', c) && IsProbe(s', d) ==> c == d)
  {
    var s' := Next(s, step, cfg);
    assert forall d :: d != step.c ==> IsProbe(s', d) == IsProbe(s, d);
    if IsProbe(s, step.c) {
      assert s.breaker.probing;
    }
    if s'.breaker.probing {
      if IsProbe(s', step.c) {
      } else {
        assert s.breaker.probing;
        var d :| IsProbe(s, d);
        assert IsProbe(s', d);
      }
    }
  }

  lemma StepKeepsInv(s: System, step: Step, cfg: Config)
    requires cfg.Valid() && Enabled(s, step, cfg) && Inv(s, cfg)
    ensures Inv(Next(s, step, cfg), cfg)
  {
    SlotsKept(s, step, cfg);
    ProbesKept(s, step, cfg);
    if IsProbe(s, step.c) {
      assert s.breaker.probing;
    }
  }

  predicate IsRun(s: System, steps: seq<Step>, cfg: Config)
    requires cfg.Valid()
    decreases |steps|
  {
    steps == [] || (Enabled(s, steps[0], cfg) && IsRun(Next(s, steps[0], cfg), steps[1..], cfg))
  }

  function After(s: System, steps: seq<Step>, cfg: Config): System
    requires cfg.Valid() && IsRun(s, steps, cfg)
    decreases |steps|
  {
    if steps == [] then s else After(Next(s, steps[0], cfg), steps[1..], cfg)
  }

  lemma {:induction false} FirstStep(s: System, step: Step, rest: seq<Step>, cfg: Config)
    requires cfg.Valid() && Enabled(s, step, cfg)
    ensures IsRun(s, [step] + rest, cfg) <==> IsRun(Next(s, step, cfg), rest, cfg)
    ensures IsRun(s, [step] + rest, cfg) ==> After(s, [step] + rest, cfg) == After(Next(s, step, cfg), rest, cfg)
  {
    assert ([step] + rest)[1..] == rest;
  }

  lemma {:induction false} RunKeepsInv(s: System, steps: seq<Step>, cfg: Config)
    requires cfg.Valid() && IsRun(s, steps, cfg) && Inv(s, cfg)
    ensures Inv(After(s, steps, cfg), cfg)
    decreases |steps|
  {
    if steps != [] {
      StepKeepsInv(s, steps[0], cfg);
      RunKeepsInv(Next(s, steps[0], cfg), steps[1..], cfg);
    }
  }

  // In every reachable state the flag stands for exactly one outstanding probe, a probe
  // means open, a closed breaker is below its threshold, and no slot is overcommitted.
  lemma {:induction false} BreakerSafety(steps: seq<Step>, cfg: Config)
    requires cfg.Valid() && IsRun(NewSystem, steps, cfg)
    ensures Inv(After(NewSystem, steps, cfg), cfg)
  {
    NewSystemInv(cfg);
    RunKeepsInv(NewSystem, steps, cfg);
  }

  // While the breaker is open a step admits a caller only as the one probe, with none
  // outstanding and the cooldown over.
  lemma OpenAdmitsOneProbe(s: System, step: Step, cfg: Config, c: CallerId)
    requires cfg.Valid() && Enabled(s, step, cfg) && Inv(s, cfg) && s.breaker.open
    requires c !in s.callers && c in Next(s, step, cfg).callers
    ensures step.Arrive? && step.c == c && IsProbe(Next(s, step, cfg), c)
    ensures !Cooling(s.breaker, step.now) && forall d :: !IsProbe(s, d)
  {
  }

  // Only the outstanding probe's own success closes an open breaker.
  lemma OnlyProbeCloses(s: System, step: Step, cfg: Config)
    requires cfg.Valid() && Enabled(s, step, cfg) && s.breaker.open && !Next(s, step, cfg).breaker.open
    ensures step.Record? && step.outcome == Answered && IsProbe(s, step.c)
    ensures Next(s, step, cfg).breaker.failures == 0
  {
  }

  predicate NoEarlier(a: Option<real>, b: Option<real>) { a.None? || (b.Some? && a.value <= b.value) }

  // openUntil never moves back, over any run.
  lemma {:induction false} OpenUntilNeverFalls(s: System, steps: seq<Step>, cfg: Config)
    requires cfg.Valid() && IsRun(s, steps, cfg)
    ensures NoEarlier(s.breaker.openUntil, After(s, steps, cfg).breaker.openUntil)
    decreases |steps|
  {
    if steps != [] {
      OpenUntilNeverFalls(Next(s, steps[0], cfg), steps[1..], cfg);
    }
  }

  // How many of its own steps a probe can still take before its flag is cleared.
  function StepsLeft(s: System, c: CallerId): nat {
    if !IsProbe(s, c) then 0
    else
      match s.callers[c]
      case Let(_) => 3
      case Waiting(_) => 2
      case Leaving(_) => 1
      case Fetching(_) => 1
  }

  function OwnSteps(steps: seq<Step>, c: CallerId): nat {
    if steps == [] then 0 else (if steps[0].c == c then 1 else 0) + OwnSteps(steps[1..], c)
  }

  // The probe always has a step to take: nobody else can block it. (A full set of slots
  // leaves the time-out.)
  lemma ProbeCanMove(s: System, c: CallerId, cfg: Config)
    requires cfg.Valid() && IsProbe(s, c)
    ensures exists step: Step :: step.c == c && Enabled(s, step, cfg)
  {
    match s.callers[c]
    case Let(_) => assert Enabled(s, Step.Reserve(c, 0.0), cfg);
    case Waiting(_) => assert Enabled(s, TimeOut(c), cfg);
    case Leaving(_) => assert Enabled(s, Abandon(c), cfg);
    case Fetching(_) => assert Enabled(s, Record(c, Answered, 0.0), cfg);
  }

  // The flag is never stuck: in any run in which the probe takes three steps of its own,
  // however they turn out and whatever others do, there is a point where it has been cleared.
  lemma {:induction false} ProbeFlagClears(s: System, steps: seq<Step>, cfg: Config, c: CallerId)
    requires cfg.Valid() && IsRun(s, steps, cfg) && Inv(s, cfg) && IsProbe(s, c)
    requires OwnSteps(steps, c) >= StepsLeft(s, c)
    ensures exists k :: 0 <= k <= |steps| && ClearedAt(s, steps, cfg, k)
    decreases |steps|
  {
    var s' := Next(s, steps[0], cfg);
    StepKeepsInv(s, steps[0], cfg);
    if IsProbe(s', c) {
      ProbeFlagClears(s', steps[1..], cfg, c);
      var k :| 0 <= k <= |steps[1..]| && ClearedAt(s', steps[1..], cfg, k);
      assert steps[..k + 1] == [steps[0]] + steps[1..][..k];
      FirstStep(s, steps[0], steps[1..][..k], cfg);
      assert ClearedAt(s, steps, cfg, k + 1);
    } else {
      assert steps[..1] == [steps[0]] + [];
      FirstStep(s, steps[0], [], cfg);
      assert ClearedAt(s, steps, cfg, 1);
    }
  }

  predicate ClearedAt(s: System, steps: seq<Step>, cfg: Config, k: nat)
    requires cfg.Valid() && k <= |steps|
  {
    IsRun(s, steps[..k], cfg) && !After(s, steps[..k], cfg).breaker.probing
  }
}
