/**
 When the circuit breaker of internal/app/imslp.go is open, in terms of what its callers
 recorded, in every interleaving.
 */
module BreakerReplies {
  import opened Breakers

  // What a caller recorded, whether it was the probe, and when.
  datatype Reply = Reply(probe: bool, outcome: Outcome, now: real)

  function AfterReply(b: Breaker, r: Reply, cfg: Config): Breaker { AfterRecord(b, r.probe, r.outcome, r.now, cfg) }

  function AfterReplies(b: Breaker, replies: seq<Reply>, cfg: Config): Breaker {
    if replies == [] then b
    else AfterReply(AfterReplies(b, replies[..|replies| - 1], cfg), replies[|replies| - 1], cfg)
  }

  predicate Closes(r: Reply) { r.probe && r.outcome.Answered? }

  predicate AsksPause(r: Reply) { r.outcome.Failed? && r.outcome.retryAfter != 0.0 }

  // The replies since the last success of a probe.
  function Since(replies: seq<Reply>): (n: nat)
    ensures n <= |replies|
  {
    if replies == [] || Closes(replies[|replies| - 1]) then |replies| else Since(replies[..|replies| - 1])
  }

  predicate FailuresInARow(replies: seq<Reply>, from: nat, n: nat) {
    from + n <= |replies| && forall i :: from <= i < from + n ==> replies[i].outcome.Failed?
  }

  // Enough failures with no answer between, or a pause asked for, since the last success of a probe.
  ghost predicate Overwhelmed(replies: seq<Reply>, threshold: nat) {
    || (exists from: nat :: Since(replies) <= from && FailuresInARow(replies, from, threshold))
    || (exists i: nat :: Since(replies) <= i < |replies| && AsksPause(replies[i]))
  }

  // A closed breaker counts the failures since the last answer.
  predicate Counts(b: Breaker, replies: seq<Reply>) {
    var n := |replies| - b.failures;
    && Since(replies) <= n <= |replies| && FailuresInARow(replies, n, b.failures)
    && (n > Since(replies) ==> replies[n - 1].outcome.Answered?)
  }

  // Whatever order probes and others record their outcomes in, a breaker is open exactly when
  // it is overwhelmed.
  lemma {:induction false} OpensOnFailuresInARow(replies: seq<Reply>, cfg: Config)
    requires cfg.threshold >= 1
    ensures var b := AfterReplies(NewBreaker, replies, cfg);
            && (b.open <==> Overwhelmed(replies, cfg.threshold))
            && (!b.open ==> Counts(b, replies))
    decreases |replies|
  {
    if replies == [] {
      assert !FailuresInARow(replies, 0, cfg.threshold);
    } else {
      var n := |replies| - 1;
      var before, last := replies[..n], replies[n];
      OpensOnFailuresInARow(before, cfg);
      var b := AfterReplies(NewBreaker, before, cfg);
      assert replies == before + [last];
      if Closes(last) {
        assert !Overwhelmed(replies, cfg.threshold);
      } else if b.open {
        StaysOverwhelmed(before, last, cfg.threshold);
      } else {
        OneMoreReply(b, before, last, cfg);
      }
    }
  }

  lemma StaysOverwhelmed(before: seq<Reply>, last: Reply, threshold: nat)
    requires !Closes(last) && Overwhelmed(before, threshold)
    ensures Overwhelmed(before + [last], threshold)
  {
    var replies := before + [last];
    assert replies[..|before|] == before;
    if from: nat :| Since(before) <= from && FailuresInARow(before, from, threshold) {
      assert FailuresInARow(replies, from, threshold);
    } else {
      var i: nat :| Since(before) <= i < |before| && AsksPause(before[i]);
      assert AsksPause(replies[i]);
    }
  }

  lemma OneMoreReply(b: Breaker, before: seq<Reply>, last: Reply, cfg: Config)
    requires cfg.threshold >= 1 && !b.open && Counts(b, before) && !Overwhelmed(before, cfg.threshold) && !Closes(last)
    ensures var replies, next := before + [last], AfterReply(b, last, cfg);
            && (next.open <==> Overwhelmed(replies, cfg.threshold))
            && (!next.open ==> Counts(next, replies))
  {
    var replies, n := before + [last], |before|;
    assert replies[..n] == before;
    if AsksPause(last) {
      assert AsksPause(replies[n]);
    } else if last.outcome.Failed? && b.failures + 1 >= cfg.threshold {
      assert FailuresInARow(replies, n + 1 - cfg.threshold, cfg.threshold);
    } else {
      forall i: nat | Since(replies) <= i < |replies|
        ensures !AsksPause(replies[i])
      {
        assert i < n ==> !AsksPause(before[i]);
      }
      forall from: nat | Since(replies) <= from
        ensures !FailuresInARow(replies, from, cfg.threshold)
      {
        assert !FailuresInARow(before, from, cfg.threshold);
      }
    }
  }

  // ---------------------------------------------------------------------------
  // What a run records
  // ---------------------------------------------------------------------------

  // What the callers of a run record, in order.
  function Replies(s: System, steps: seq<Step>, cfg: Config): seq<Reply>
    requires cfg.Valid() && IsRun(s, steps, cfg)
    decreases |steps|
  {
    if steps == [] then []
    else
      var step := steps[0];
      (if step.Record? then [Reply(s.callers[step.c].probe, step.outcome, step.now)] else [])
        + Replies(Next(s, step, cfg), steps[1..], cfg)
  }

  predicate SameCount(a: Breaker, b: Breaker) { a.failures == b.failures && a.open == b.open }

  lemma {:induction false} FirstReply(b: Breaker, r: Reply, rest: seq<Reply>, cfg: Config)
    ensures AfterReplies(b, [r] + rest, cfg) == AfterReplies(AfterReply(b, r, cfg), rest, cfg)
    decreases |rest|
  {
    var replies := [r] + rest;
    if rest == [] {
      assert replies[..0] == [];
    } else {
      var n := |rest| - 1;
      FirstReply(b, r, rest[..n], cfg);
      assert replies[..|replies| - 1] == [r] + rest[..n] && replies[|replies| - 1] == rest[n];
    }
  }

  // Admissions and abandoned probes leave the count alone.
  lemma {:induction false} RunCountsReplies(s: System, steps: seq<Step>, b: Breaker, cfg: Config)
    requires cfg.Valid() && IsRun(s, steps, cfg) && SameCount(s.breaker, b)
    ensures SameCount(After(s, steps, cfg).breaker, AfterReplies(b, Replies(s, steps, cfg), cfg))
    decreases |steps|
  {
    if steps != [] {
      var step, next := steps[0], Next(s, steps[0], cfg);
      if step.Record? {
        var r := Reply(s.callers[step.c].probe, step.outcome, step.now);
        RunCountsReplies(next, steps[1..], AfterReply(b, r, cfg), cfg);
        FirstReply(b, r, Replies(next, steps[1..], cfg), cfg);
      } else {
        RunCountsReplies(next, steps[1..], b, cfg);
        assert [] + Replies(next, steps[1..], cfg) == Replies(next, steps[1..], cfg);
      }
    }
  }

  // In every interleaving the breaker is open exactly when what was recorded since the last
  // success of a probe holds enough failures in a row, or a pause asked for.
  lemma {:induction false} OpenExactlyWhen(steps: seq<Step>, cfg: Config)
    requires cfg.Valid() && IsRun(NewSystem, steps, cfg)
    ensures After(NewSystem, steps, cfg).breaker.open <==> Overwhelmed(Replies(NewSystem, steps, cfg), cfg.threshold)
  {
    RunCountsReplies(NewSystem, steps, NewBreaker, cfg);
    OpensOnFailuresInARow(Replies(NewSystem, steps, cfg), cfg);
  }
}
