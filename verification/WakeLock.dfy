/**
 The screen wake lock of the reader: web/src/app/features/reader/screen-wake-lock.ts.

 Between the lock and the browser, requests are granted or refused at any later time, the
 page is hidden and shown before the handler hears of it, and the system releases locks by
 itself. A call of release is taken to release.
 */
module WakeLocks {
  import opened Wrappers

  type Sentinel = nat

  // The fields of ScreenWakeLock.
  datatype Lock = Lock(active: bool, generation: nat, pending: Option<nat>, held: Option<Sentinel>)

  const NewLock := Lock(false, 0, None, None)

  // What a call asks of the browser: a request, and sentinels to release.
  datatype Asked = Asked(request: Option<nat>, release: set<Sentinel>)

  const Nothing := Asked(None, {})

  // throws: the browser refuses the request at once.
  function Acquired(l: Lock, visible: bool, throws: bool): (Lock, Asked) {
    if !l.active || !visible || l.held.Some? || l.pending.Some? then (l, Nothing)
    else if throws then (l.(generation := l.generation + 1), Nothing)
    else (l.(generation := l.generation + 1, pending := Some(l.generation + 1)), Asked(Some(l.generation + 1), {}))
  }

  function Dropped(l: Lock): (Lock, Asked) {
    (l.(generation := l.generation + 1, pending := None, held := None),
     Asked(None, if l.held.Some? then {l.held.value} else {}))
  }

  function Started(l: Lock, visible: bool, throws: bool): (Lock, Asked) {
    if l.active then (l, Nothing) else Acquired(l.(active := true), visible, throws)
  }

  function Stopped(l: Lock): (Lock, Asked) {
    if !l.active then (l, Nothing) else Dropped(l.(active := false))
  }

  function VisibilityChanged(l: Lock, visible: bool, throws: bool): (Lock, Asked) {
    if visible then Acquired(l, visible, throws) else Dropped(l)
  }

  function Settled(l: Lock, generation: nat): Lock {
    if l.pending == Some(generation) then l.(pending := None) else l
  }

  // listens: the sentinel accepts the listener for its release.
  function Accepted(l: Lock, generation: nat, sentinel: Sentinel, visible: bool, listens: bool): (Lock, Asked) {
    var l := Settled(l, generation);
    if generation != l.generation || !l.active || !visible || l.held.Some? || !listens then (l, Asked(None, {sentinel}))
    else (l.(held := Some(sentinel)), Nothing)
  }

  function Released(l: Lock, sentinel: Sentinel): Lock { if l.held == Some(sentinel) then l.(held := None) else l }

  class ScreenWakeLock {
    var active: bool
    var generation: nat
    var pendingGeneration: Option<nat>
    var sentinel: Option<Sentinel>

    ghost function Contents(): Lock
      reads this
    {
      Lock(active, generation, pendingGeneration, sentinel)
    }

    constructor ()
      ensures Contents() == NewLock
    {
      active, generation, pendingGeneration, sentinel := false, 0, None, None;
    }

    method Start(visible: bool, throws: bool) returns (asked: Asked)
      modifies this
      ensures (Contents(), asked) == Started(old(Contents()), visible, throws)
    {
      if active {
        return Nothing;
      }
      active := true;
      asked := Acquire(visible, throws);
    }

    method Stop() returns (asked: Asked)
      modifies this
      ensures (Contents(), asked) == Stopped(old(Contents()))
    {
      if !active {
        return Nothing;
      }
      active := false;
      InvalidatePendingRequest();
      asked := ReleaseHeldLock();
    }

    method OnVisibilityChange(visible: bool, throws: bool) returns (asked: Asked)
      modifies this
      ensures (Contents(), asked) == VisibilityChanged(old(Contents()), visible, throws)
    {
      if visible {
        asked := Acquire(visible, throws);
        return;
      }
      InvalidatePendingRequest();
      asked := ReleaseHeldLock();
    }

    method Acquire(visible: bool, throws: bool) returns (asked: Asked)
      modifies this
      ensures (Contents(), asked) == Acquired(old(Contents()), visible, throws)
    {
      if !active || !visible || sentinel.Some? || pendingGeneration.Some? {
        return Nothing;
      }
      generation := generation + 1;
      pendingGeneration := Some(generation);
      if throws {
        pendingGeneration := None;
        return Nothing;
      }
      return Asked(Some(generation), {});
    }

    // The browser refused a request.
    method Refused(request: nat)
      modifies this
      ensures Contents() == Settled(old(Contents()), request)
    {
      if pendingGeneration == Some(request) {
        pendingGeneration := None;
      }
    }

    method AcceptSentinel(request: nat, granted: Sentinel, visible: bool, listens: bool) returns (asked: Asked)
      modifies this
      ensures (Contents(), asked) == Accepted(old(Contents()), request, granted, visible, listens)
    {
      if pendingGeneration == Some(request) {
        pendingGeneration := None;
      }
      if request != generation || !active || !visible || sentinel.Some? {
        return Asked(None, {granted});
      }
      if !listens {
        return Asked(None, {granted});
      }
      sentinel := Some(granted);
      return Nothing;
    }

    // The listener for a sentinel's release.
    method OnRelease(released: Sentinel)
      modifies this
      ensures Contents() == Released(old(Contents()), released)
    {
      if sentinel != Some(released) {
        return;
      }
      sentinel := None;
    }

    method InvalidatePendingRequest()
      modifies this
      ensures Contents() == old(Contents()).(generation := old(generation) + 1, pending := None)
    {
      generation := generation + 1;
      pendingGeneration := None;
    }

    method ReleaseHeldLock() returns (asked: Asked)
      modifies this
      ensures Contents() == old(Contents()).(held := None)
      ensures asked == Asked(None, if old(sentinel).Some? then {old(sentinel).value} else {})
    {
      var held := sentinel;
      sentinel := None;
      return if held.Some? then Asked(None, {held.value}) else Nothing;
    }
  }

  // ---------------------------------------------------------------------------
  // The lock and the browser
  // ---------------------------------------------------------------------------

  // open are the requests not answered, granted the sentinels handed out, released those
  // released by the lock or the system; heard says that the handler has run since the page
  // was last shown or hidden.
  datatype System = System(lock: Lock, visible: bool, heard: bool, open: set<nat>, granted: set<Sentinel>,
                           released: set<Sentinel>)

  datatype Event =
    | Start(throws: bool)
    | Stop
    | Activity(throws: bool)
    | Flip
    | Hear(throws: bool)
    | Grant(request: nat, sentinel: Sentinel, listens: bool)
    | Refuse(request: nat)
    | SystemRelease(sentinel: Sentinel)
    | HearRelease(sentinel: Sentinel)

  predicate Enabled(s: System, e: Event) {
    match e
    case Grant(request, sentinel, _) => request in s.open && sentinel !in s.granted
    case Refuse(request) => request in s.open
    case SystemRelease(sentinel) => sentinel in s.granted
    case HearRelease(sentinel) => sentinel in s.released
    case Hear(_) => s.lock.active
    case Activity(_) => s.lock.active
    case _ => true
  }

  function Did(s: System, r: (Lock, Asked)): System {
    s.(lock := r.0, open := if r.1.request.Some? then s.open + {r.1.request.value} else s.open, released := s.released + r.1.release)
  }

  function Next(s: System, e: Event): System {
    match e
    case Start(throws) => Did(s, Started(s.lock, s.visible, throws)).(heard := if s.lock.active then s.heard else s.visible || s.heard)
    case Stop => Did(s, Stopped(s.lock))
    case Activity(throws) => Did(s, Acquired(s.lock, s.visible, throws))
    case Flip => s.(visible := !s.visible, heard := false)
    case Hear(throws) => Did(s, VisibilityChanged(s.lock, s.visible, throws)).(heard := true)
    case Grant(request, sentinel, listens) =>
      Did(s.(open := s.open - {request}, granted := s.granted + {sentinel}),
          Accepted(s.lock, request, sentinel, s.visible, listens))
    case Refuse(request) => s.(open := s.open - {request}, lock := Settled(s.lock, request))
    case SystemRelease(sentinel) => s.(released := s.released + {sentinel})
    case HearRelease(sentinel) => s.(lock := Released(s.lock, sentinel))
  }

  ghost predicate Init(s: System) { s == System(NewLock, s.visible, false, {}, {}, {}) }

  ghost predicate Inv(s: System) {
    var l := s.lock;
    // Every granted sentinel is the one held or has been released.
    && (forall g :: g in s.granted ==> l.held == Some(g) || g in s.released)
    && (l.held.Some? ==> l.held.value in s.granted && l.active && l.pending.None?)
    && (l.pending.Some? ==> l.active && l.pending.value == l.generation && l.pending.value in s.open)
    && (forall g :: g in s.open ==> g <= l.generation)
    // Once the handler for hiding has run, nothing is held or awaited while the page is hidden.
    && (s.heard && !s.visible ==> l.held.None? && l.pending.None?)
  }

  lemma StepKeepsInv(s: System, e: Event)
    requires Inv(s) && Enabled(s, e)
    ensures Inv(Next(s, e))
  {
  }

  function Run(s: System, events: seq<Event>): System
    decreases |events|
  {
    if events == [] then s else Run(Next(s, events[0]), events[1..])
  }

  ghost predicate Allowed(s: System, events: seq<Event>)
    decreases |events|
  {
    events == [] || (Enabled(s, events[0]) && Allowed(Next(s, events[0]), events[1..]))
  }

  lemma {:induction false} RunKeepsInv(s: System, events: seq<Event>)
    requires Inv(s) && Allowed(s, events)
    ensures Inv(Run(s, events))
    decreases |events|
  {
    if events != [] {
      StepKeepsInv(s, events[0]);
      RunKeepsInv(Next(s, events[0]), events[1..]);
    }
  }

  // In every run each granted sentinel is the one held or has been released, so at most one
  // keeps the screen awake; none is held once the reader has stopped, nor while the page is
  // hidden and its handler has run.
  lemma {:induction false} WakeLockNeverLeaks(s: System, events: seq<Event>)
    requires Init(s) && Allowed(s, events)
    ensures var v := Run(s, events);
            && (forall g :: g in v.granted && g !in v.released ==> v.lock.held == Some(g))
            && (!v.lock.active ==> v.granted <= v.released)
            && (v.heard && !v.visible ==> v.granted <= v.released)
  {
    RunKeepsInv(s, events);
  }

  // Stopping releases what is held, and whatever was asked for before is released when it
  // arrives.
  lemma LateGrantIsReleased(s: System, request: nat, sentinel: Sentinel, listens: bool)
    requires Inv(s) && Enabled(s, Grant(request, sentinel, listens)) && s.lock.pending != Some(request)
    requires request < s.lock.generation || !s.lock.active
    ensures sentinel in Next(s, Grant(request, sentinel, listens)).released
    ensures Next(s, Grant(request, sentinel, listens)).lock == s.lock
  {
  }
}
