/**
 Optimistic status saves: changeStatus and saveStatus in
 web/src/app/features/library/library.store.ts, for one row of the library.

 Each event of a row is one step: a choice, the next queued save starting, its request
 succeeding or failing, and the end of a save nobody queued behind. A failed request is
 taken not to have changed the server, and nothing else changes the row meanwhile.
 */
module StatusSaves {
  import opened Wrappers
  import V = LibraryViews

  // A row's pending saves: the latest choice, and the status the server is known to have.
  datatype Pending = Pending(latest: V.Status, saved: V.Status)

  // queue holds the saves not finished, the first of them sent when sending.
  datatype Row = Row(shown: V.Status, pending: Option<Pending>, queue: seq<V.Status>, sending: bool)

  datatype Event = Choose(status: V.Status) | StartSave | Succeed | Fail | Retire

  predicate Enabled(r: Row, e: Event) {
    match e
    case Choose(_) => true
    case StartSave => r.queue != [] && !r.sending
    case Succeed | Fail => r.queue != [] && r.sending && r.pending.Some?
    case Retire => r.pending.Some?
  }

  function AfterChoice(r: Row, status: V.Status): Row {
    if status == r.shown then r
    else
      var saved := if r.pending.Some? then r.pending.value.saved else r.shown;
      Row(status, Some(Pending(status, saved)), r.queue + [status], r.sending)
  }

  predicate IsLatest(r: Row, status: V.Status) { r.pending.Some? && r.pending.value.latest == status }

  // A save that is no longer wanted ends without a request.
  function AfterStart(r: Row): Row
    requires r.queue != []
  {
    if IsLatest(r, r.queue[0]) then r.(sending := true) else r.(queue := r.queue[1..])
  }

  function AfterSuccess(r: Row): Row
    requires r.queue != [] && r.pending.Some?
  {
    var status := r.queue[0];
    Row(if IsLatest(r, status) then status else r.shown, Some(r.pending.value.(saved := status)), r.queue[1..], false)
  }

  function AfterFailure(r: Row): Row
    requires r.queue != [] && r.pending.Some?
  {
    Row(if IsLatest(r, r.queue[0]) then r.pending.value.saved else r.shown, r.pending, r.queue[1..], false)
  }

  function AfterRetire(r: Row): Row { if r.queue == [] then r.(pending := None) else r }

  class StatusRow {
    var shown: V.Status
    var pending: Option<Pending>
    var queue: seq<V.Status>
    var sending: bool

    ghost function Contents(): Row
      reads this
    {
      Row(shown, pending, queue, sending)
    }

    constructor (status: V.Status)
      ensures Contents() == Row(status, None, [], false)
    {
      shown, pending, queue, sending := status, None, [], false;
    }

    method ChangeStatus(status: V.Status)
      modifies this
      ensures Contents() == AfterChoice(old(Contents()), status)
    {
      if status == shown {
        return;
      }
      var p := if pending.Some? then pending.value else Pending(status, shown);
      p := p.(latest := status);
      pending := Some(p);
      shown := status;
      queue := queue + [status];
    }

    method SaveStatus()
      requires queue != [] && !sending
      modifies this
      ensures Contents() == AfterStart(old(Contents()))
    {
      if pending.None? || pending.value.latest != queue[0] {
        queue := queue[1..];
        return;
      }
      sending := true;
    }

    method Saved()
      requires queue != [] && sending && pending.Some?
      modifies this
      ensures Contents() == AfterSuccess(old(Contents()))
    {
      var status := queue[0];
      pending := Some(pending.value.(saved := status));
      if pending.value.latest == status {
        shown := status;
      }
      queue, sending := queue[1..], false;
    }

    method Failed()
      requires queue != [] && sending && pending.Some?
      modifies this
      ensures Contents() == AfterFailure(old(Contents()))
    {
      if pending.value.latest == queue[0] {
        shown := pending.value.saved;
      }
      queue, sending := queue[1..], false;
    }

    // A save ended: forget the row unless another choice is queued behind it.
    method Done()
      modifies this
      ensures Contents() == AfterRetire(old(Contents()))
    {
      if |queue| == 0 {
        pending := None;
      }
    }
  }

  // ---------------------------------------------------------------------------
  // The row and the server
  // ---------------------------------------------------------------------------

  // chosen are the accepted choices, done how many of their saves have ended, requests the
  // choices that were sent, and kept whether the last save to end had succeeded.
  datatype System = System(row: Row, server: V.Status, chosen: seq<V.Status>, done: nat, requests: seq<nat>, kept: bool)

  function Next(s: System, e: Event): System
    requires Enabled(s.row, e)
  {
    match e
    case Choose(status) =>
      s.(row := AfterChoice(s.row, status), chosen := if status == s.row.shown then s.chosen else s.chosen + [status])
    case StartSave =>
      var row := AfterStart(s.row);
      if row.sending then s.(row := row, requests := s.requests + [s.done]) else s.(row := row, done := s.done + 1, kept := false)
    case Succeed => s.(row := AfterSuccess(s.row), server := s.row.queue[0], done := s.done + 1, kept := true)
    case Fail => s.(row := AfterFailure(s.row), done := s.done + 1, kept := false)
    case Retire => s.(row := AfterRetire(s.row))
  }

  ghost predicate Init(s: System) {
    s.row == Row(s.server, None, [], false) && s.chosen == [] && s.done == 0 && s.requests == [] && !s.kept
  }

  ghost predicate Inv(s: System) {
    var r := s.row;
    // The queue is the choices whose saves have not ended, and the last of them is wanted.
    && s.done <= |s.chosen| && r.queue == s.chosen[s.done..]
    && (r.queue != [] ==> r.pending.Some? && r.pending.value.latest == s.chosen[|s.chosen| - 1])
    // What is known to be saved is what the server has.
    && (r.pending.Some? ==> r.pending.value.saved == s.server)
    && (r.queue == [] ==> r.shown == s.server && !r.sending)
    // Requests went out in the order of the choices, and at most one is open.
    && (forall i, j :: 0 <= i < j < |s.requests| ==> s.requests[i] < s.requests[j])
    && (forall i :: 0 <= i < |s.requests| ==> s.requests[i] < if r.sending then s.done + 1 else s.done)
    && (r.sending ==> s.requests != [] && s.requests[|s.requests| - 1] == s.done && s.done < |s.chosen|)
    // A drained queue whose last save succeeded left the last choice.
    && (s.kept && s.done == |s.chosen| ==> s.done > 0 && s.server == s.chosen[|s.chosen| - 1])
  }

  lemma ChooseKeepsInv(s: System, status: V.Status)
    requires Inv(s)
    ensures Inv(Next(s, Choose(status)))
  {
    if status == s.row.shown {
      assert Next(s, Choose(status)) == s;
    } else {
      assert (s.chosen + [status])[s.done..] == s.chosen[s.done..] + [status];
    }
  }

  lemma StartKeepsInv(s: System)
    requires Inv(s) && Enabled(s.row, StartSave)
    ensures Inv(Next(s, StartSave))
  {
    assert s.chosen[s.done..][1..] == s.chosen[s.done + 1..];
  }

  // However a save ends, what is shown and saved stays true.
  lemma EndKeepsInv(s: System, e: Event)
    requires Inv(s) && Enabled(s.row, e) && (e.Succeed? || e.Fail?)
    ensures Inv(Next(s, e))
  {
  }

  lemma StepKeepsInv(s: System, e: Event)
    requires Inv(s) && Enabled(s.row, e)
    ensures Inv(Next(s, e))
  {
    match e
    case Choose(status) => ChooseKeepsInv(s, status);
    case StartSave => StartKeepsInv(s);
    case Succeed => EndKeepsInv(s, e);
    case Fail => EndKeepsInv(s, e);
    case Retire =>
  }

  ghost predicate Runs(s: System, events: seq<Event>, v: System)
    decreases |events|
  {
    if events == [] then v == s else Enabled(s.row, events[0]) && Runs(Next(s, events[0]), events[1..], v)
  }

  lemma {:induction false} RunKeepsInv(s: System, events: seq<Event>, v: System)
    requires Inv(s) && Runs(s, events, v)
    ensures Inv(v)
    decreases |events|
  {
    if events != [] {
      StepKeepsInv(s, events[0]);
      RunKeepsInv(Next(s, events[0]), events[1..], v);
    }
  }

  // For any choices and any mix of successes and failures: requests go out one at a time and
  // in the order of the choices; when the queue has drained, the row shows what the server
  // has, and that is the last choice if its save succeeded.
  lemma {:induction false} SavesConverge(s: System, events: seq<Event>, v: System)
    requires Init(s) && Runs(s, events, v)
    ensures forall i, j :: 0 <= i < j < |v.requests| ==> v.requests[i] < v.requests[j]
    ensures v.row.queue == [] ==> v.row.shown == v.server
    ensures v.row.queue == [] && v.kept ==> v.chosen != [] && v.server == v.chosen[|v.chosen| - 1]
  {
    RunKeepsInv(s, events, v);
    if v.row.queue == [] {
      assert |v.chosen[v.done..]| == 0;
    }
  }

  // The last choice is never skipped: its save always sends a request.
  lemma LastChoiceIsSent(s: System)
    requires Inv(s) && Enabled(s.row, StartSave) && s.done + 1 == |s.chosen|
    ensures Next(s, StartSave).row.sending
  {
  }

  // An open request can always end, either way.
  lemma RequestCanEnd(s: System)
    requires Inv(s) && s.row.sending
    ensures Enabled(s.row, Succeed) && Enabled(s.row, Fail)
  {
  }

  // The queue is never stuck: from any state, saves that succeed empty it, and the row and the
  // server then have the last choice.
  lemma {:induction false} QueueCanDrain(s: System) returns (events: seq<Event>, v: System)
    requires Inv(s)
    ensures Runs(s, events, v) && Inv(v) && v.row.queue == [] && v.chosen == s.chosen
    ensures s.row.queue != [] || s.kept ==> v.kept
    ensures s.row.queue != [] ==> v.row.shown == v.server == s.chosen[|s.chosen| - 1]
    decreases |s.row.queue|, !s.row.sending
  {
    if s.row.queue == [] {
      return [], s;
    }
    var e := if s.row.sending then Succeed else StartSave;
    if s.row.sending {
      RequestCanEnd(s);
    }
    StepKeepsInv(s, e);
    var rest: seq<Event>;
    rest, v := QueueCanDrain(Next(s, e));
    events := [e] + rest;
    assert events[1..] == rest;
    assert |v.chosen[v.done..]| == 0;
  }
}
