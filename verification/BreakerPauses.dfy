/**
 Whether the circuit breaker of internal/app/imslp.go honours a pause that IMSLP asks for: over
 any run, and when whatever follows.
 */
module BreakerPauses {
  import opened Wrappers
  import opened TokenBuckets
  import opened Breakers

  predicate Paused(b: Breaker, until: real) { b.open && b.openUntil.Some? && until <= b.openUntil.value }

  // Nobody is admitted before `until`.
  ghost predicate Refuses(b: Breaker, until: real) { forall now :: now < until ==> Decision(b, now) == Refused }

  // Nobody would be admitted before `until` at any point of a run.
  ghost predicate Honoured(s: System, steps: seq<Step>, until: real, cfg: Config)
    requires cfg.Valid() && IsRun(s, steps, cfg)
    decreases |steps|
  {
    Refuses(s.breaker, until) && (steps == [] || Honoured(Next(s, steps[0], cfg), steps[1..], until, cfg))
  }

  predicate AnswersProbe(s: System, step: Step) { step.Record? && step.outcome.Answered? && IsProbe(s, step.c) }

  // A probe's request succeeds in a run.
  predicate ProbeAnswered(s: System, steps: seq<Step>, cfg: Config)
    requires cfg.Valid() && IsRun(s, steps, cfg)
    decreases |steps|
  {
    steps != [] && (AnswersProbe(s, steps[0]) || ProbeAnswered(Next(s, steps[0], cfg), steps[1..], cfg))
  }

  // The part of a run in which nobody comes at `until` or later.
  predicate ComesBefore(steps: seq<Step>, until: real) {
    forall i :: 0 <= i < |steps| && steps[i].Arrive? ==> steps[i].now < until
  }

  // Whoever is told to stay away pauses the breaker at least that long.
  lemma FailurePauses(s: System, c: CallerId, retryAfter: real, now: real, cfg: Config)
    requires cfg.Valid() && Enabled(s, Step.Record(c, Failed(retryAfter), now), cfg) && retryAfter > 0.0
    ensures Paused(Next(s, Step.Record(c, Failed(retryAfter), now), cfg).breaker, now + retryAfter)
  {
  }

  lemma StepKeepsPause(s: System, step: Step, until: real, cfg: Config)
    requires cfg.Valid() && Enabled(s, step, cfg) && Paused(s.breaker, until) && !AnswersProbe(s, step)
    ensures Paused(Next(s, step, cfg).breaker, until)
  {
  }

  lemma ClosedAdmits(b: Breaker, until: real)
    requires !b.open
    ensures !Refuses(b, until)
  {
    assert Decision(b, until - 1.0) != Refused;
  }

  // A pause is honoured all through a run exactly when no probe's request succeeds in it.
  lemma {:induction false} PauseHonouredExactlyWhen(s: System, steps: seq<Step>, until: real, cfg: Config)
    requires cfg.Valid() && IsRun(s, steps, cfg) && Paused(s.breaker, until)
    ensures Honoured(s, steps, until, cfg) <==> !ProbeAnswered(s, steps, cfg)
    decreases |steps|
  {
    if steps != [] {
      var next := Next(s, steps[0], cfg);
      if AnswersProbe(s, steps[0]) {
        ClosedAdmits(next.breaker, until);
      } else {
        StepKeepsPause(s, steps[0], until, cfg);
        PauseHonouredExactlyWhen(next, steps[1..], until, cfg);
      }
    }
  }

  // With no probe out, none is sent before the pause ends.
  lemma {:induction false} NoProbeIsSent(s: System, steps: seq<Step>, until: real, cfg: Config)
    requires cfg.Valid() && IsRun(s, steps, cfg) && Inv(s, cfg) && Paused(s.breaker, until) && !s.breaker.probing
    requires ComesBefore(steps, until)
    ensures !ProbeAnswered(s, steps, cfg)
    decreases |steps|
  {
    if steps != [] {
      assert forall i :: 0 <= i < |steps| - 1 ==> steps[1..][i] == steps[i + 1];
      StepKeepsInv(s, steps[0], cfg);
      StepKeepsPause(s, steps[0], until, cfg);
      NoProbeIsSent(Next(s, steps[0], cfg), steps[1..], until, cfg);
    }
  }

  // A probe that may still succeed: one that has not given up.
  predicate MayAnswer(s: System, c: CallerId) { IsProbe(s, c) && !s.callers[c].Leaving? }

  // A probe that has given up sends nothing, and no other comes.
  lemma {:induction false} LeavingProbeIsSilent(s: System, steps: seq<Step>, until: real, cfg: Config, c: CallerId)
    requires cfg.Valid() && IsRun(s, steps, cfg) && Inv(s, cfg) && Paused(s.breaker, until)
    requires IsProbe(s, c) && s.callers[c].Leaving? && ComesBefore(steps, until)
    ensures !ProbeAnswered(s, steps, cfg)
    decreases |steps|
  {
    if steps != [] {
      var next := Next(s, steps[0], cfg);
      assert forall i :: 0 <= i < |steps| - 1 ==> steps[1..][i] == steps[i + 1];
      StepKeepsInv(s, steps[0], cfg);
      StepKeepsPause(s, steps[0], until, cfg);
      if steps[0].c == c {
        assert forall d :: !IsProbe(next, d);
        NoProbeIsSent(next, steps[1..], until, cfg);
      } else {
        LeavingProbeIsSilent(next, steps[1..], until, cfg, c);
      }
    }
  }

  // A run of one step more that ends with the success of a probe.
  lemma {:induction false} StepBefore(s: System, step: Step, rest: seq<Step>, until: real, cfg: Config)
    requires cfg.Valid() && Enabled(s, step, cfg) && !step.Arrive?
    requires ComesBefore(rest, until) && IsRun(Next(s, step, cfg), rest, cfg) && ProbeAnswered(Next(s, step, cfg), rest, cfg)
    ensures ComesBefore([step] + rest, until) && IsRun(s, [step] + rest, cfg) && ProbeAnswered(s, [step] + rest, cfg)
  {
    FirstStep(s, step, rest, cfg);
    assert ([step] + rest)[1..] == rest;
  }

  lemma FetchingMayAnswer(s: System, until: real, cfg: Config, c: CallerId) returns (steps: seq<Step>)
    requires cfg.Valid() && IsProbe(s, c) && s.callers[c].Fetching?
    ensures ComesBefore(steps, until) && IsRun(s, steps, cfg) && ProbeAnswered(s, steps, cfg)
  {
    steps := [Record(c, Answered, 0.0)];
    assert steps[1..] == [];
  }

  lemma FreeSlotMayAnswer(s: System, until: real, cfg: Config, c: CallerId) returns (steps: seq<Step>)
    requires cfg.Valid() && IsProbe(s, c) && s.callers[c].Waiting? && |SlotHolders(s)| < cfg.concurrency
    ensures ComesBefore(steps, until) && IsRun(s, steps, cfg) && ProbeAnswered(s, steps, cfg)
  {
    var rest := FetchingMayAnswer(Next(s, TakeSlot(c), cfg), until, cfg, c);
    StepBefore(s, TakeSlot(c), rest, until, cfg);
    steps := [TakeSlot(c)] + rest;
  }

  // With all slots taken, one of them is given back.
  lemma WaitingMayAnswer(s: System, until: real, cfg: Config, c: CallerId) returns (steps: seq<Step>)
    requires cfg.Valid() && cfg.concurrency >= 1 && Inv(s, cfg) && IsProbe(s, c) && s.callers[c].Waiting?
    ensures ComesBefore(steps, until) && IsRun(s, steps, cfg) && ProbeAnswered(s, steps, cfg)
  {
    if |SlotHolders(s)| < cfg.concurrency {
      steps := FreeSlotMayAnswer(s, until, cfg, c);
    } else {
      var d :| d in SlotHolders(s);
      var recorded := s;
      if s.callers[d].Fetching? {
        assert !IsProbe(s, d);
        recorded := Next(s, Record(d, Answered, 0.0), cfg);
        assert SlotHolders(recorded) == SlotHolders(s);
      }
      assert SlotHolders(Next(recorded, FreeSlot(d), cfg)) == SlotHolders(s) - {d};
      var rest := FreeSlotMayAnswer(Next(recorded, FreeSlot(d), cfg), until, cfg, c);
      StepBefore(recorded, FreeSlot(d), rest, until, cfg);
      steps := [FreeSlot(d)] + rest;
      if s.callers[d].Fetching? {
        StepBefore(s, Record(d, Answered, 0.0), steps, until, cfg);
        steps := [Record(d, Answered, 0.0)] + steps;
      }
    }
  }

  // Late enough, an outbound token is there at once.
  function FullAt(b: Bucket, limits: Limits): real
    requires limits.Valid()
  {
    if b.last.None? then 0.0
    else b.last.value + 1.0 + if b.tokens < limits.burst then (limits.burst - b.tokens) / limits.rate else 0.0
  }

  lemma FullIsEnough(b: Bucket, limits: Limits)
    requires limits.Valid()
    ensures WaitFor(Refilled(b, FullAt(b, limits), limits), limits) == 0.0
  {
    if b.last.Some? {
      var elapsed := FullAt(b, limits) - b.last.value;
      if b.tokens < limits.burst {
        var short := limits.burst - b.tokens;
        assert elapsed == 1.0 + short / limits.rate && (short / limits.rate) * limits.rate == short;
        assert elapsed * limits.rate == limits.rate + short;
      } else {
        assert elapsed * limits.rate == limits.rate;
      }
    }
  }

  lemma ProbeMayAnswer(s: System, until: real, cfg: Config, c: CallerId) returns (steps: seq<Step>)
    requires cfg.Valid() && cfg.concurrency >= 1 && Inv(s, cfg) && MayAnswer(s, c)
    ensures ComesBefore(steps, until) && IsRun(s, steps, cfg) && ProbeAnswered(s, steps, cfg)
  {
    match s.callers[c]
    case Let(_) =>
      var step := Step.Reserve(c, FullAt(s.outbound, cfg.limits));
      FullIsEnough(s.outbound, cfg.limits);
      StepKeepsInv(s, step, cfg);
      var rest := WaitingMayAnswer(Next(s, step, cfg), until, cfg, c);
      StepBefore(s, step, rest, until, cfg);
      steps := [step] + rest;
    case Waiting(_) => steps := WaitingMayAnswer(s, until, cfg, c);
    case Fetching(_) => steps := FetchingMayAnswer(s, until, cfg, c);
  }

  ghost predicate AlwaysHonoured(s: System, until: real, cfg: Config)
    requires cfg.Valid()
  {
    forall steps :: IsRun(s, steps, cfg) && ComesBefore(steps, until) ==> Honoured(s, steps, until, cfg)
  }

  // A pause is honoured whatever follows exactly when no probe is out that may still succeed.
  lemma PauseIsSafeExactlyWhen(s: System, until: real, cfg: Config)
    requires cfg.Valid() && cfg.concurrency >= 1 && Inv(s, cfg) && Paused(s.breaker, until)
    ensures AlwaysHonoured(s, until, cfg) <==> forall c :: !MayAnswer(s, c)
    ensures !s.breaker.probing ==> AlwaysHonoured(s, until, cfg)
  {
    if c :| MayAnswer(s, c) {
      var steps := ProbeMayAnswer(s, until, cfg, c);
      PauseHonouredExactlyWhen(s, steps, until, cfg);
      assert !AlwaysHonoured(s, until, cfg);
    } else {
      forall steps | IsRun(s, steps, cfg) && ComesBefore(steps, until)
        ensures Honoured(s, steps, until, cfg)
      {
        PauseHonouredExactlyWhen(s, steps, until, cfg);
        if c :| IsProbe(s, c) {
          assert !MayAnswer(s, c);
          LeavingProbeIsSilent(s, steps, until, cfg, c);
        } else {
          NoProbeIsSent(s, steps, until, cfg);
        }
      }
    }
  }

  // A pause that IMSLP asks for is honoured whatever follows exactly when no probe that may
  // still succeed is out then: so it is whenever the probe itself is told, or none is out.
  lemma RequestedPauseIsSafeExactlyWhen(s: System, c: CallerId, retryAfter: real, now: real, cfg: Config)
    requires cfg.Valid() && cfg.concurrency >= 1 && Inv(s, cfg) && retryAfter > 0.0
    requires Enabled(s, Step.Record(c, Failed(retryAfter), now), cfg)
    ensures var paused := Next(s, Step.Record(c, Failed(retryAfter), now), cfg);
            && (AlwaysHonoured(paused, now + retryAfter, cfg) <==> forall d :: d != c ==> !MayAnswer(s, d))
            && (!s.breaker.probing || IsProbe(s, c) ==> AlwaysHonoured(paused, now + retryAfter, cfg))
  {
    hide AlwaysHonoured;
    var step := Step.Record(c, Failed(retryAfter), now);
    var paused := Next(s, step, cfg);
    StepKeepsInv(s, step, cfg);
    FailurePauses(s, c, retryAfter, now, cfg);
    PauseIsSafeExactlyWhen(paused, now + retryAfter, cfg);
    assert forall d :: MayAnswer(paused, d) <==> d != c && MayAnswer(s, d);
  }

  // The program's own settings.
  const DEFAULTS := Config(3, 60.0, Limits(5.0, 5.0), 2.0, 4)

  // A run from s to t.
  ghost predicate Leads(s: System, t: System, cfg: Config)
    requires cfg.Valid()
  {
    exists steps :: IsRun(s, steps, cfg) && After(s, steps, cfg) == t
  }

  lemma LeadsOn(s: System, step: Step, t: System, cfg: Config)
    requires cfg.Valid() && Enabled(s, step, cfg) && Leads(Next(s, step, cfg), t, cfg)
    ensures Leads(s, t, cfg)
  {
    var steps :| IsRun(Next(s, step, cfg), steps, cfg) && After(Next(s, step, cfg), steps, cfg) == t;
    FirstStep(s, step, steps, cfg);
  }

  lemma LeadsTogether(s: System, t: System, u: System, cfg: Config)
    requires cfg.Valid() && Leads(s, t, cfg) && Leads(t, u, cfg)
    ensures Leads(s, u, cfg)
  {
    var steps :| IsRun(s, steps, cfg) && After(s, steps, cfg) == t;
    RunLeadsOn(s, steps, u, cfg);
  }

  lemma {:induction false} RunLeadsOn(s: System, steps: seq<Step>, u: System, cfg: Config)
    requires cfg.Valid() && IsRun(s, steps, cfg) && Leads(After(s, steps, cfg), u, cfg)
    ensures Leads(s, u, cfg)
    decreases |steps|
  {
    if steps != [] {
      RunLeadsOn(Next(s, steps[0], cfg), steps[1..], u, cfg);
      LeadsOn(s, steps[0], u, cfg);
    }
  }

  // Caller c is admitted and sends its request.
  lemma CallerFetches(s: System, c: CallerId, now: real, t: System)
    requires c !in s.callers && Decision(s.breaker, now).Admitted? && |SlotHolders(s)| < 4
    requires var r := Refilled(s.outbound, now, DEFAULTS.limits);
             && r.tokens >= 1.0
             && t == System(AfterAdmit(s.breaker, now), Taken(r), s.callers[c := Fetching(s.breaker.open)])
    ensures Leads(s, t, DEFAULTS)
  {
    var arrived := Next(s, Arrive(c, now), DEFAULTS);
    var waiting := Next(arrived, Step.Reserve(c, now), DEFAULTS);
    assert waiting == System(t.breaker, t.outbound, s.callers[c := Waiting(s.breaker.open)]);
    assert SlotHolders(waiting) == SlotHolders(s);
    assert Next(waiting, TakeSlot(c), DEFAULTS) == t;
    assert IsRun(t, [], DEFAULTS);
    LeadsOn(waiting, TakeSlot(c), t, DEFAULTS);
    LeadsOn(arrived, Step.Reserve(c, now), t, DEFAULTS);
    LeadsOn(s, Arrive(c, now), t, DEFAULTS);
  }

  // Caller 0, admitted before the breaker opened, is told at 2.0 to stay away for a minute;
  // then the probe, caller 2, succeeds, and the next caller is admitted at once.
  ghost predicate DropsPause(s: System) {
    var late, success := Step.Record(0, Failed(60.0), 2.0), Step.Record(2, Answered, 2.0);
    && Enabled(s, late, DEFAULTS) && !IsProbe(s, 0) && IsProbe(s, 2)
    && Paused(Next(s, late, DEFAULTS).breaker, 62.0)
    && Enabled(Next(s, late, DEFAULTS), success, DEFAULTS)
    && Decision(Next(Next(s, late, DEFAULTS), success, DEFAULTS).breaker, 2.0) == Admitted(false)
  }

  // Two callers have sent their requests; then, paused and with the pause over, the probe its own.
  const TWO_OUT := System(NewBreaker, Bucket(3.0, Some(0.0)), map[0 := Fetching(false), 1 := Fetching(false)])
  const PAUSED := System(Breaker(1, true, Some(1.0), false), TWO_OUT.outbound, map[0 := Fetching(false), 1 := Recorded])
  const PROBE_OUT := System(Breaker(1, true, Some(1.0), true), Bucket(4.0, Some(1.0)), PAUSED.callers[2 := Fetching(true)])

  lemma TwoSend()
    ensures Leads(NewSystem, TWO_OUT, DEFAULTS)
  {
    var one := System(NewBreaker, Bucket(4.0, Some(0.0)), map[0 := Fetching(false)]);
    assert SlotHolders(NewSystem) == {} && SlotHolders(one) == {0};
    CallerFetches(NewSystem, 0, 0.0, one);
    CallerFetches(one, 1, 0.0, TWO_OUT);
    LeadsTogether(NewSystem, one, TWO_OUT, DEFAULTS);
  }

  lemma ProbeIsSent()
    ensures Leads(TWO_OUT, PROBE_OUT, DEFAULTS)
  {
    var pause := Step.Record(1, Failed(1.0), 0.0);
    assert TWO_OUT.callers[1 := Recorded] == PAUSED.callers;
    assert Next(TWO_OUT, pause, DEFAULTS) == PAUSED;
    assert SlotHolders(PAUSED) == {0, 1};
    CallerFetches(PAUSED, 2, 1.0, PROBE_OUT);
    LeadsOn(TWO_OUT, pause, PROBE_OUT, DEFAULTS);
  }

  // With the program's own settings, a run drops a pause that was asked for.
  lemma LatePauseIsDropped()
    ensures exists s :: Leads(NewSystem, s, DEFAULTS) && DropsPause(s)
  {
    hide Leads;
    TwoSend();
    ProbeIsSent();
    LeadsTogether(NewSystem, TWO_OUT, PROBE_OUT, DEFAULTS);
    assert DropsPause(PROBE_OUT);
  }
}
