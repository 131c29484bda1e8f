/**
 The export limiter of internal/app/export_limit.go: one active export per owner, one
 export per five minutes, and idle owners dropped after ten minutes.

 The program keeps pointers: the map points to an `exportUser`, and the release function
 handed out for an active export captures that same object. Here `objects` holds every
 object ever made, `users` points into it, and `tickets` are the release functions with
 their run-once flag, so a release of an object that is no longer in the map is visible.
 */
module ExportLimiters {
  import opened Wrappers
  import opened TokenBuckets

  type Owner = string

  const EXPORT_LIMITS := Limits(1.0 / 300.0, 1.0)
  const IDLE := 600.0
  const FIVE_MINUTES := 300.0
  const MILLISECOND := 0.001

  datatype ExportUser = ExportUser(bucket: Bucket, active: bool, seen: real)

  const NewUser := ExportUser(NewBucket, false, 0.0)

  datatype Ticket = Ticket(owner: Owner, ref: nat, used: bool)

  datatype State = State(
    objects: seq<ExportUser>, users: map<Owner, nat>, nextSweep: Option<real>, tickets: seq<Ticket>)

  const NewState := State([], map[], None, [])

  datatype Reply = Granted(ticket: nat) | Retry(after: real)

  // Every pointer points at an object.
  predicate WellFormed(s: State) {
    && (forall owner :: owner in s.users ==> s.users[owner] < |s.objects|)
    && (forall k :: 0 <= k < |s.tickets| ==> s.tickets[k].ref < |s.objects|)
  }

  predicate Evictable(u: ExportUser, now: real) { !u.active && now - u.seen >= IDLE }

  function Swept(s: State, now: real): State
    requires WellFormed(s)
  {
    if s.nextSweep.None? || now >= s.nextSweep.value
    then s.(users := map o | o in s.users && !Evictable(s.objects[s.users[o]], now) :: s.users[o],
            nextSweep := Some(now + IDLE))
    else s
  }

  function Entered(s: State, owner: Owner): State {
    if owner in s.users then s
    else s.(objects := s.objects + [NewUser], users := s.users[owner := |s.objects|])
  }

  function Touched(u: ExportUser, now: real): ExportUser {
    u.(seen := now, bucket := Refilled(u.bucket, now, EXPORT_LIMITS))
  }

  function RetryDelay(u: ExportUser): real {
    if u.active then 1.0 else (1.0 - u.bucket.tokens) * FIVE_MINUTES + MILLISECOND
  }

  predicate MayStart(u: ExportUser) { !u.active && u.bucket.tokens >= 1.0 }

  // What `acquire` does to the entry of an owner who is already in the map.
  function Acquired(s: State, owner: Owner, now: real): (State, Reply)
    requires WellFormed(s) && owner in s.users
  {
    var ref := s.users[owner];
    var u := Touched(s.objects[ref], now);
    if MayStart(u)
    then (s.(objects := s.objects[ref := u.(active := true, bucket := Taken(u.bucket))],
             tickets := s.tickets + [Ticket(owner, ref, false)]),
          Granted(|s.tickets|))
    else (s.(objects := s.objects[ref := u]), Retry(RetryDelay(u)))
  }

  function Acquire(s: State, owner: Owner, now: real): (State, Reply)
    requires WellFormed(s)
  {
    Acquired(Entered(Swept(s, now), owner), owner, now)
  }

  function Release(s: State, ticket: nat, now: real): State
    requires WellFormed(s) && ticket < |s.tickets|
  {
    var t := s.tickets[ticket];
    if t.used then s
    else s.(objects := s.objects[t.ref := s.objects[t.ref].(active := false, seen := now)],
            tickets := s.tickets[ticket := t.(used := true)])
  }

  lemma RefilledTwice(b: Bucket, now: real, limits: Limits)
    ensures Refilled(Refilled(b, now, limits), now, limits) == Refilled(b, now, limits)
  {
  }

  class ExportLimiter {
    var objects: seq<ExportUser>
    var users: map<Owner, nat>
    var nextSweep: Option<real>
    var tickets: seq<Ticket>

    ghost function Contents(): State
      reads this
    {
      State(objects, users, nextSweep, tickets)
    }

    constructor ()
      ensures Contents() == NewState
    {
      objects, users, nextSweep, tickets := [], map[], None, [];
    }

    method Sweep(now: real)
      requires WellFormed(Contents())
      modifies this
      ensures Contents() == Swept(old(Contents()), now)
    {
      if nextSweep.None? || now >= nextSweep.value {
        var owners := users.Keys;
        while owners != {}
          invariant owners <= old(users.Keys)
          invariant objects == old(objects) && tickets == old(tickets) && nextSweep == old(nextSweep)
          invariant users == map o | o in old(users) && (o in owners || !Evictable(objects[old(users)[o]], now)) :: old(users)[o]
          decreases owners
        {
          var o :| o in owners;
          var u := objects[users[o]];
          if !u.active && now - u.seen >= IDLE {
            users := users - {o};
          }
          owners := owners - {o};
        }
        nextSweep := Some(now + IDLE);
      }
    }

    // The owner's entry, made if need be and marked as seen with its bucket refilled.
    method Enter(owner: Owner, now: real) returns (ref: nat)
      requires WellFormed(Contents())
      modifies this
      ensures var s := Entered(Swept(old(Contents()), now), owner);
              && ref == s.users[owner]
              && WellFormed(s)
              && Contents() == s.(objects := s.objects[ref := Touched(s.objects[ref], now)])
    {
      Sweep(now);
      if owner !in users {
        users := users[owner := |objects|];
        objects := objects + [NewUser];
      }
      ref := users[owner];
      var bucket := new TokenBucket();
      bucket.tokens, bucket.last := objects[ref].bucket.tokens, objects[ref].bucket.last;
      bucket.Refill(now, EXPORT_LIMITS);
      objects := objects[ref := objects[ref].(seen := now, bucket := Bucket(bucket.tokens, bucket.last))];
    }

    // A ticket when the owner may export now, otherwise how long to wait before retrying.
    method AcquireExport(owner: Owner, now: real) returns (reply: Reply)
      requires WellFormed(Contents())
      modifies this
      ensures WellFormed(Contents())
      ensures (Contents(), reply) == Acquire(old(Contents()), owner, now)
    {
      var ref := Enter(owner, now);
      ghost var entered := Entered(Swept(old(Contents()), now), owner);
      var u := objects[ref];
      if u.active {
        return Retry(1.0);
      }
      var bucket := new TokenBucket();
      bucket.tokens, bucket.last := u.bucket.tokens, u.bucket.last;
      RefilledTwice(entered.objects[ref].bucket, now, EXPORT_LIMITS);
      var ok := bucket.Allow(now, EXPORT_LIMITS);
      u := u.(bucket := Bucket(bucket.tokens, bucket.last));
      if !ok {
        return Retry((1.0 - bucket.tokens) * FIVE_MINUTES + MILLISECOND);
      }
      objects := objects[ref := u.(active := true)];
      assert objects == entered.objects[ref := u.(active := true)];
      tickets := tickets + [Ticket(owner, ref, false)];
      return Granted(|tickets| - 1);
    }

    method ReleaseExport(ticket: nat, now: real)
      requires WellFormed(Contents()) && ticket < |tickets|
      modifies this
      ensures WellFormed(Contents())
      ensures Contents() == Release(old(Contents()), ticket, now)
    {
      var t := tickets[ticket];
      if !t.used {
        tickets := tickets[ticket := t.(used := true)];
        objects := objects[t.ref := objects[t.ref].(active := false, seen := now)];
      }
    }
  }

  // ---------------------------------------------------------------------------
  // Runs
  // ---------------------------------------------------------------------------

  datatype Event = Start(owner: Owner, now: real) | Finish(ticket: nat, now: real)

  function Step(s: State, e: Event): State
    requires WellFormed(s)
    ensures WellFormed(Step(s, e))
  {
    match e
    case Start(owner, now) => Acquire(s, owner, now).0
    case Finish(ticket, now) => if ticket < |s.tickets| then Release(s, ticket, now) else s
  }

  // The export is running: its release function has not been called.
  predicate Running(s: State, ticket: nat) { ticket < |s.tickets| && !s.tickets[ticket].used }

  // What every run keeps. An active object is live and has exactly one release function
  // left to call, and that function captures the very object the map points to.
  ghost predicate Inv(s: State, now: real) {
    && WellFormed(s)
    && (forall o, p :: o in s.users && p in s.users && o != p ==> s.users[o] != s.users[p])
    && (forall k: nat :: Running(s, k) ==>
          var t := s.tickets[k];
          t.owner in s.users && s.users[t.owner] == t.ref && s.objects[t.ref].active)
    && (forall j: nat, k: nat :: Running(s, j) && Running(s, k) && j != k ==> s.tickets[j].ref != s.tickets[k].ref)
    && (forall i :: 0 <= i < |s.objects| && s.objects[i].active ==> exists k: nat :: Running(s, k) && s.tickets[k].ref == i)
    && (forall i :: 0 <= i < |s.objects| ==> SoundUser(s.objects[i], now))
  }

  ghost predicate SoundUser(u: ExportUser, now: real) {
    match u.bucket.last
    case None => u == NewUser
    case Some(last) => last <= u.seen <= now && 0.0 <= u.bucket.tokens <= 1.0
  }

  lemma SweepKeepsInv(s: State, before: real, now: real)
    requires Inv(s, before) && before <= now
    ensures Inv(Swept(s, now), now)
  {
    var swept := Swept(s, now);
    forall k: nat | Running(swept, k)
      ensures swept.tickets[k].owner in swept.users
    {
      assert Running(s, k);
    }
    forall i | 0 <= i < |swept.objects| && swept.objects[i].active
      ensures exists k: nat :: Running(swept, k) && swept.tickets[k].ref == i
    {
      var k: nat :| Running(s, k) && s.tickets[k].ref == i;
      assert Running(swept, k);
    }
  }

  lemma EnterKeepsInv(s: State, now: real, owner: Owner)
    requires Inv(s, now)
    ensures Inv(Entered(s, owner), now)
  {
    var s' := Entered(s, owner);
    forall k: nat | Running(s', k)
      ensures Running(s, k)
    {
    }
    forall i | 0 <= i < |s'.objects| && s'.objects[i].active
      ensures exists k: nat :: Running(s', k) && s'.tickets[k].ref == i
    {
      var k: nat :| Running(s, k) && s.tickets[k].ref == i;
      assert Running(s', k);
    }
  }

  lemma TouchIsSound(u: ExportUser, now: real)
    requires SoundUser(u, now)
    ensures SoundUser(Touched(u, now), now) && Touched(u, now).bucket.last.Some?
  {
  }

  lemma RefusedKeepsInv(s: State, now: real, ref: nat, u: ExportUser)
    requires Inv(s, now) && ref < |s.objects| && SoundUser(u, now) && u.active == s.objects[ref].active
    ensures Inv(s.(objects := s.objects[ref := u]), now)
  {
    var s' := s.(objects := s.objects[ref := u]);
    assert forall k: nat :: Running(s', k) == Running(s, k);
    forall i | 0 <= i < |s'.objects| && s'.objects[i].active
      ensures exists k: nat :: Running(s', k) && s'.tickets[k].ref == i
    {
      var k: nat :| Running(s, k) && s.tickets[k].ref == i;
      assert Running(s', k);
    }
  }

  lemma GrantedKeepsInv(s: State, now: real, owner: Owner, u: ExportUser)
    requires Inv(s, now) && owner in s.users && !s.objects[s.users[owner]].active
    requires SoundUser(u, now) && u.active
    ensures var ref := s.users[owner];
            Inv(s.(objects := s.objects[ref := u], tickets := s.tickets + [Ticket(owner, ref, false)]), now)
  {
    var ref := s.users[owner];
    var s' := s.(objects := s.objects[ref := u], tickets := s.tickets + [Ticket(owner, ref, false)]);
    forall k: nat | Running(s', k) && k < |s.tickets|
      ensures Running(s, k) && s'.tickets[k] == s.tickets[k] && s.tickets[k].ref != ref
    {
    }
    forall i | 0 <= i < |s'.objects| && s'.objects[i].active
      ensures exists k: nat :: Running(s', k) && s'.tickets[k].ref == i
    {
      if i == ref {
        assert Running(s', |s.tickets|);
      } else {
        var k: nat :| Running(s, k) && s.tickets[k].ref == i;
        assert Running(s', k);
      }
    }
  }

  lemma AcquiredKeepsInv(s: State, now: real, owner: Owner)
    requires Inv(s, now) && owner in s.users
    ensures Inv(Acquired(s, owner, now).0, now)
  {
    var ref := s.users[owner];
    var u := Touched(s.objects[ref], now);
    TouchIsSound(s.objects[ref], now);
    if MayStart(u) {
      GrantedKeepsInv(s, now, owner, u.(active := true, bucket := Taken(u.bucket)));
    } else {
      RefusedKeepsInv(s, now, ref, u);
    }
  }

  lemma AcquireKeepsInv(s: State, before: real, owner: Owner, now: real)
    requires Inv(s, before) && before <= now
    ensures Inv(Acquire(s, owner, now).0, now)
  {
    SweepKeepsInv(s, before, now);
    EnterKeepsInv(Swept(s, now), now, owner);
    AcquiredKeepsInv(Entered(Swept(s, now), owner), now, owner);
  }

  lemma ReleaseKeepsInv(s: State, before: real, ticket: nat, now: real)
    requires Inv(s, before) && before <= now && ticket < |s.tickets|
    ensures Inv(Release(s, ticket, now), now)
  {
    var s' := Release(s, ticket, now);
    forall k: nat | Running(s', k)
      ensures Running(s, k) && s'.tickets[k] == s.tickets[k]
    {
    }
    if Running(s, ticket) {
      forall i | 0 <= i < |s'.objects| && s'.objects[i].active
        ensures exists k: nat :: Running(s', k) && s'.tickets[k].ref == i
      {
        var k: nat :| Running(s, k) && s.tickets[k].ref == i;
        assert Running(s', k);
      }
    }
  }

  predicate OnClock(events: seq<Event>) {
    forall i, j :: 0 <= i < j < |events| ==> events[i].now <= events[j].now
  }

  function Run(s: State, events: seq<Event>): State
    requires WellFormed(s)
    ensures WellFormed(Run(s, events))
    decreases |events|
  {
    if events == [] then s else Run(Step(s, events[0]), events[1..])
  }

  lemma StepKeepsInv(s: State, before: real, e: Event)
    requires Inv(s, before) && before <= e.now
    ensures Inv(Step(s, e), e.now)
  {
    match e
    case Start(owner, now) => AcquireKeepsInv(s, before, owner, now);
    case Finish(ticket, now) =>
      if ticket < |s.tickets| {
        ReleaseKeepsInv(s, before, ticket, now);
      }
  }

  lemma {:induction false} RunKeepsInv(s: State, before: real, events: seq<Event>)
    requires Inv(s, before) && OnClock(events) && (events != [] ==> before <= events[0].now)
    ensures exists end :: Inv(Run(s, events), end)
    decreases |events|
  {
    if events == [] {
      assert Inv(Run(s, events), before);
    } else {
      StepKeepsInv(s, before, events[0]);
      RunKeepsInv(Step(s, events[0]), events[0].now, events[1..]);
      assert Run(s, events) == Run(Step(s, events[0]), events[1..]);
    }
  }

  // Whatever happened before, a running export's entry is the live one: its owner is still
  // in the map, at the very object the release function captured, and calling that function
  // frees the entry once; a second call changes nothing.
  lemma {:induction false} ReleaseFreesLiveEntryOnce(events: seq<Event>, ticket: nat, now: real, again: real)
    requires OnClock(events) && Running(Run(NewState, events), ticket)
    ensures var s := Run(NewState, events);
            var owner := s.tickets[ticket].owner;
            var s' := Release(s, ticket, now);
            && owner in s.users && s.objects[s.users[owner]].active
            && s'.users == s.users
            && !s'.objects[s'.users[owner]].active
            && Release(s', ticket, again) == s'
  {
    if events != [] {
      RunKeepsInv(NewState, events[0].now, events);
    }
  }

  // One owner never has two exports running.
  lemma {:induction false} OneExportPerOwner(events: seq<Event>, j: nat, k: nat)
    requires OnClock(events)
    requires Running(Run(NewState, events), j) && Running(Run(NewState, events), k)
    requires Run(NewState, events).tickets[j].owner == Run(NewState, events).tickets[k].owner
    ensures j == k
  {
    if events != [] {
      RunKeepsInv(NewState, events[0].now, events);
    }
  }

  // ---------------------------------------------------------------------------
  // Forgetting idle owners is unobservable
  // ---------------------------------------------------------------------------

  function Replies(s: State, events: seq<Event>): seq<Reply>
    requires WellFormed(s)
    decreases |events|
  {
    if events == [] then []
    else
      (if events[0].Start? then [Acquire(s, events[0].owner, events[0].now).1] else [])
        + Replies(Step(s, events[0]), events[1..])
  }

  // The reference: the same limiter without its sweep.
  function PatientStep(s: State, e: Event): State
    requires WellFormed(s)
    ensures WellFormed(PatientStep(s, e))
  {
    match e
    case Start(owner, now) => Acquired(Entered(s, owner), owner, now).0
    case Finish(ticket, now) => if ticket < |s.tickets| then Release(s, ticket, now) else s
  }

  function PatientReplies(s: State, events: seq<Event>): seq<Reply>
    requires WellFormed(s)
    decreases |events|
  {
    if events == [] then []
    else
      (if events[0].Start? then [Acquired(Entered(s, events[0].owner), events[0].owner, events[0].now).1] else [])
        + PatientReplies(PatientStep(s, events[0]), events[1..])
  }

  // `s` lacks only idle entries of `full`; objects may sit at different places.
  ghost predicate Forgot(s: State, full: State, now: real) {
    && WellFormed(s) && WellFormed(full)
    && |s.tickets| == |full.tickets|
    && (forall k :: 0 <= k < |s.tickets| ==>
          s.tickets[k].owner == full.tickets[k].owner && s.tickets[k].used == full.tickets[k].used)
    && (forall o :: o in s.users ==> o in full.users && s.objects[s.users[o]] == full.objects[full.users[o]])
    && (forall o :: o in full.users && o !in s.users ==> Evictable(full.objects[full.users[o]], now))
  }

  lemma IdleEntryIsNew(u: ExportUser, before: real, now: real)
    requires SoundUser(u, before) && before <= now && Evictable(u, now)
    ensures Touched(u, now) == Touched(NewUser, now)
  {
  }

  lemma SweepUnobservable(s: State, full: State, before: real, now: real)
    requires Inv(s, before) && Forgot(s, full, before) && before <= now
    ensures Forgot(Swept(s, now), full, now)
  {
  }

  lemma EnterUnobservable(s: State, full: State, before: real, owner: Owner, now: real)
    requires Inv(full, before) && before <= now && Forgot(s, full, now)
    ensures var s', full' := Entered(s, owner), Entered(full, owner);
            && Touched(s'.objects[s'.users[owner]], now) == Touched(full'.objects[full'.users[owner]], now)
            && (forall o :: o in s'.users && o != owner ==> o in full'.users && s'.objects[s'.users[o]] == full'.objects[full'.users[o]])
            && (forall o :: o in full'.users && o !in s'.users ==> Evictable(full'.objects[full'.users[o]], now))
  {
    if owner in full.users && owner !in s.users {
      IdleEntryIsNew(full.objects[full.users[owner]], before, now);
    }
  }

  lemma AcquireUnobservable(s: State, full: State, before: real, owner: Owner, now: real)
    requires Inv(s, before) && Inv(full, before) && before <= now && Forgot(s, full, before)
    ensures Acquire(s, owner, now).1 == Acquired(Entered(full, owner), owner, now).1
    ensures Forgot(Acquire(s, owner, now).0, Acquired(Entered(full, owner), owner, now).0, now)
  {
    var swept := Swept(s, now);
    SweepUnobservable(s, full, before, now);
    EnterUnobservable(swept, full, before, owner, now);
    SweepKeepsInv(s, before, now);
    EnterKeepsInv(swept, now, owner);
    EnterKeepsInv(full, before, owner);
    AcquiredAlike(Entered(swept, owner), Entered(full, owner), owner, now);
  }

  lemma AcquiredAlike(s: State, full: State, owner: Owner, now: real)
    requires Inv(s, now) && WellFormed(full) && owner in s.users && owner in full.users
    requires forall o, p :: o in full.users && p in full.users && o != p ==> full.users[o] != full.users[p]
    requires |s.tickets| == |full.tickets|
    requires forall k :: 0 <= k < |s.tickets| ==>
               s.tickets[k].owner == full.tickets[k].owner && s.tickets[k].used == full.tickets[k].used
    requires Touched(s.objects[s.users[owner]], now) == Touched(full.objects[full.users[owner]], now)
    requires forall o :: o in s.users && o != owner ==> o in full.users && s.objects[s.users[o]] == full.objects[full.users[o]]
    requires forall o :: o in full.users && o !in s.users ==> Evictable(full.objects[full.users[o]], now)
    ensures Acquired(s, owner, now).1 == Acquired(full, owner, now).1
    ensures Forgot(Acquired(s, owner, now).0, Acquired(full, owner, now).0, now)
  {
  }

  lemma ReleaseUnobservable(s: State, full: State, before: real, ticket: nat, now: real)
    requires Inv(s, before) && Inv(full, before) && before <= now && Forgot(s, full, before)
    requires ticket < |s.tickets|
    ensures Forgot(Release(s, ticket, now), Release(full, ticket, now), now)
  {
    if Running(s, ticket) {
      assert Running(full, ticket);
    }
  }

  lemma PatientStepKeepsInv(full: State, before: real, e: Event)
    requires Inv(full, before) && before <= e.now
    ensures Inv(PatientStep(full, e), e.now)
  {
    match e {
      case Start(owner, now) =>
        InvLater(full, before, now);
        EnterKeepsInv(full, now, owner);
        AcquiredKeepsInv(Entered(full, owner), now, owner);
      case Finish(ticket, now) =>
        if ticket < |full.tickets| {
          ReleaseKeepsInv(full, before, ticket, now);
        } else {
          InvLater(full, before, now);
        }
    }
  }

  lemma StepUnobservable(s: State, full: State, before: real, e: Event)
    requires Inv(s, before) && Inv(full, before) && Forgot(s, full, before) && before <= e.now
    ensures Forgot(Step(s, e), PatientStep(full, e), e.now)
    ensures e.Start? ==> Acquire(s, e.owner, e.now).1 == Acquired(Entered(full, e.owner), e.owner, e.now).1
  {
    match e {
      case Start(owner, now) => AcquireUnobservable(s, full, before, owner, now);
      case Finish(ticket, now) =>
        if ticket < |s.tickets| {
          ReleaseUnobservable(s, full, before, ticket, now);
        }
    }
  }

  lemma InvLater(s: State, before: real, now: real)
    requires Inv(s, before) && before <= now
    ensures Inv(s, now)
  {
  }

  lemma {:induction false} RunUnobservable(s: State, full: State, before: real, events: seq<Event>)
    requires Inv(s, before) && Inv(full, before) && Forgot(s, full, before)
    requires OnClock(events) && (events != [] ==> before <= events[0].now)
    ensures Replies(s, events) == PatientReplies(full, events)
    decreases |events|
  {
    if events != [] {
      var e := events[0];
      StepKeepsInv(s, before, e);
      PatientStepKeepsInv(full, before, e);
      StepUnobservable(s, full, before, e);
      RunUnobservable(Step(s, e), PatientStep(full, e), e.now, events[1..]);
    }
  }

  // Every reply, tickets and Retry-After included, is the one a limiter that never forgets gives.
  lemma {:induction false} ForgettingUnobservable(events: seq<Event>)
    requires OnClock(events)
    ensures Replies(NewState, events) == PatientReplies(NewState, events)
  {
    if events != [] {
      RunUnobservable(NewState, NewState, events[0].now, events);
    }
  }

  // ---------------------------------------------------------------------------
  // Is Retry-After long enough?
  // ---------------------------------------------------------------------------

  // The entry as it stands when a refusal was answered, and the same entry when the owner
  // comes back: untouched, or dropped meanwhile.
  function EntryOf(s: State, owner: Owner): Option<ExportUser>
    requires WellFormed(s)
  {
    if owner in s.users then Some(s.objects[s.users[owner]]) else None
  }

  lemma ReplyFromEntry(s: State, owner: Owner, now: real)
    requires WellFormed(s)
    ensures var u := Touched(EntryOf(Entered(Swept(s, now), owner), owner).value, now);
            Acquire(s, owner, now).1.Granted? == MayStart(u)
  {
  }

  // Refused for want of a token: waiting the given delay is always enough, and no wait
  // shorter by more than a millisecond is, unless the entry was dropped as idle.
  lemma TokenRetryIsExact(s: State, before: real, owner: Owner, now: real, later: State, t: real)
    requires Inv(s, before) && before <= now <= t && WellFormed(later)
    requires var (s', reply) := Acquire(s, owner, now);
             && reply.Retry? && !EntryOf(s', owner).value.active
             && (EntryOf(later, owner) == EntryOf(s', owner) || EntryOf(later, owner).None?)
    ensures t >= now + Acquire(s, owner, now).1.after ==> Acquire(later, owner, t).1.Granted?
    ensures t < now + Acquire(s, owner, now).1.after - MILLISECOND && EntryOf(later, owner).Some? && t < now + IDLE
            ==> Acquire(later, owner, t).1.Retry?
  {
    AcquireTouches(s, before, owner, now);
    ReplyFromEntry(later, owner, t);
  }

  // Refused because an export is running, the answer is always one second, and that is
  // enough only if the export has ended and at most a 300th of a token is missing.
  lemma BusyRetryIsExact(s: State, before: real, owner: Owner, now: real, later: State)
    requires Inv(s, before) && before <= now && WellFormed(later)
    requires var (s', reply) := Acquire(s, owner, now);
             && reply.Retry? && EntryOf(s', owner).value.active
             && EntryOf(later, owner).Some?
             && EntryOf(later, owner).value.bucket == EntryOf(s', owner).value.bucket
             && EntryOf(later, owner).value.seen >= now
    ensures Acquire(s, owner, now).1 == Retry(1.0)
    ensures Acquire(later, owner, now + 1.0).1.Granted?
            <==> !EntryOf(later, owner).value.active
                 && EntryOf(Acquire(s, owner, now).0, owner).value.bucket.tokens >= 1.0 - 1.0 / 300.0
  {
    AcquireTouches(s, before, owner, now);
    ReplyFromEntry(later, owner, now + 1.0);
    assert owner in Swept(later, now + 1.0).users;
  }

  lemma AcquireTouches(s: State, before: real, owner: Owner, now: real)
    requires Inv(s, before) && before <= now
    ensures EntryOf(Acquire(s, owner, now).0, owner).Some?
    ensures var u := EntryOf(Acquire(s, owner, now).0, owner).value;
            u.bucket.last == Some(now) && u.seen == now && 0.0 <= u.bucket.tokens <= 1.0
  {
    SweepKeepsInv(s, before, now);
    EnterKeepsInv(Swept(s, now), now, owner);
    var entered := Entered(Swept(s, now), owner);
    TouchIsSound(entered.objects[entered.users[owner]], now);
  }

  // So the one-second answer can be too short: an export that starts at 0 and ends at 1.5
  // answers a caller at 1 with one second, and refuses that caller again at 2.
  lemma BusyRetryTooShort(owner: Owner)
    ensures Replies(NewState, [Start(owner, 0.0), Start(owner, 1.0), Finish(0, 1.5), Start(owner, 2.0)])
            == [Granted(0), Retry(1.0), Retry(298.0 + MILLISECOND)]
  {
    var s1 := Step(NewState, Start(owner, 0.0));
    assert s1.objects == [ExportUser(Bucket(0.0, Some(0.0)), true, 0.0)] && s1.users == map[owner := 0];
    assert s1.tickets == [Ticket(owner, 0, false)] && s1.nextSweep == Some(IDLE);
    var s2 := Step(s1, Start(owner, 1.0));
    assert s2.objects == [ExportUser(Bucket(1.0 / 300.0, Some(1.0)), true, 1.0)] && s2.users == s1.users;
    var s3 := Step(s2, Finish(0, 1.5));
    assert s3.objects == [ExportUser(Bucket(1.0 / 300.0, Some(1.0)), false, 1.5)];
    var events := [Start(owner, 0.0), Start(owner, 1.0), Finish(0, 1.5), Start(owner, 2.0)];
    assert events[1..][1..][1..] == [Start(owner, 2.0)];
    assert Replies(s3, [Start(owner, 2.0)]) == [Retry(298.0 + MILLISECOND)];
    assert Replies(s2, events[1..][1..]) == Replies(s3, events[1..][1..][1..]);
  }
}
