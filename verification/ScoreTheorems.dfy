/**
 What score storage promises over whole runs, from any library and under any interleaving.
 */
module ScoreTheorems {
  import opened Wrappers
  import opened Manifests
  import opened ScoreTables
  import opened ScoreInvariants
  import opened ScoreProtocol
  import opened ScoreSafety

  ghost predicate Runs(s: State, steps: seq<Step>, v: State)
    decreases |steps|
  {
    if steps == [] then v == s else Enabled(s, steps[0]) && Runs(Next(s, steps[0]), steps[1..], v)
  }

  // ---------------------------------------------------------------------------
  // Safety and conservation
  // ---------------------------------------------------------------------------

  lemma {:induction false} RunKeepsInv(s: State, steps: seq<Step>, v: State)
    requires Inv(s) && Runs(s, steps, v)
    ensures Inv(v)
    decreases |steps|
  {
    if steps != [] {
      StepKeepsInv(s, steps[0]);
      RunKeepsInv(Next(s, steps[0]), steps[1..], v);
    }
  }

  // No key held by a PDF or an asset row ever loses its file, and the row says what the
  // file is.
  lemma {:induction false} NoReferencedFileIsLost(s: State, steps: seq<Step>, v: State)
    requires Init(s) && Runs(s, steps, v)
    ensures forall p :: p in v.tables.pdfs ==> PdfStored(v.tables.pdfs[p], v.files)
    ensures forall a :: a in v.tables.assets ==> AssetStored(v.tables.assets[a], v.files)
  {
    InitHolds(s);
    RunKeepsInv(s, steps, v);
  }

  // Only a transaction changes which keys are referenced.
  lemma OtherStepsMoveNoKey(s: State, step: Step)
    requires Enabled(s, step) && !step.Transact? && !step.Commit?
    ensures Keys(Next(s, step).tables) == Keys(s.tables)
    ensures Next(s, step).saves.Keys <= s.saves.Keys + (Next(s, step).used - s.used)
  {
    var v := Next(s, step);
    assert v.tables.pdfs == s.tables.pdfs && v.tables.assets == s.tables.assets;
  }

  lemma TransactRevivesNothing(s: State, tx: Plain, now: real)
    requires Inv(s) && Enabled(s, Transact(tx, now))
    ensures Keys(Next(s, Transact(tx, now)).tables) <= Keys(s.tables)
  {
    if PlainResult(s.tables, tx, now).Done? {
      TransactionKeeps(s.tables, tx, now, s.files);
    }
  }

  lemma CommitRevivesOnlyItsKey(s: State, key: Key, now: real, reply: Reply)
    requires Inv(s) && Enabled(s, Commit(key, now, reply))
    ensures Keys(Next(s, Commit(key, now, reply)).tables) <= Keys(s.tables) + {key}
  {
    if SaveResult(s.tables, key, s.saves[key], now).Done? {
      SaveResultKeeps(s, key, now);
    }
  }

  lemma OtherStepsReviveNothing(s: State, step: Step, k: Key)
    requires Enabled(s, step) && !step.Transact? && !step.Commit? && Dead(s, k)
    ensures Dead(Next(s, step), k)
  {
    OtherStepsMoveNoKey(s, step);
  }

  lemma DeadStaysDeadOneStep(s: State, step: Step, k: Key)
    requires Inv(s) && Enabled(s, step) && Dead(s, k)
    ensures Dead(Next(s, step), k)
  {
    hide Inv, Dead;
    match step
    case Transact(tx, now) => TransactKeepsDead(s, tx, now, k);
    case Commit(key, now, reply) => CommitKeepsDead(s, key, now, reply, k);
    case _ => OtherStepsReviveNothing(s, step, k);
  }

  lemma TransactKeepsDead(s: State, tx: Plain, now: real, k: Key)
    requires Inv(s) && Enabled(s, Transact(tx, now)) && Dead(s, k)
    ensures Dead(Next(s, Transact(tx, now)), k)
  {
    hide Inv;
    TransactRevivesNothing(s, tx, now);
  }

  lemma CommitKeepsDead(s: State, key: Key, now: real, reply: Reply, k: Key)
    requires Inv(s) && Enabled(s, Commit(key, now, reply)) && Dead(s, k)
    ensures Dead(Next(s, Commit(key, now, reply)), k)
  {
    hide Inv;
    CommitRevivesOnlyItsKey(s, key, now, reply);
  }

  // A key once unreferenced and in no open transaction is never referenced again: what a
  // cleaner found unreferenced is still so when it deletes the file.
  lemma {:induction false} DeadStaysDead(s: State, steps: seq<Step>, v: State, k: Key)
    requires Inv(s) && Runs(s, steps, v) && Dead(s, k)
    ensures Dead(v, k)
    decreases |steps|
  {
    if steps != [] {
      DeadStaysDeadOneStep(s, steps[0], k);
      StepKeepsInv(s, steps[0]);
      DeadStaysDead(Next(s, steps[0]), steps[1..], v, k);
    }
  }

  // The steps that may leave a stored file behind.
  predicate Leaks(step: Step) { step.Crash? || (step.QueueObject? && !step.ok) }

  lemma {:induction false} OnlyBreakageLeaks(s: State, steps: seq<Step>, v: State)
    requires Runs(s, steps, v) && forall i :: 0 <= i < |steps| ==> !Leaks(steps[i])
    ensures v.leaked == s.leaked
    decreases |steps|
  {
    if steps != [] {
      assert !Leaks(steps[0]);
      OnlyBreakageLeaks(Next(s, steps[0]), steps[1..], v);
    }
  }

  // Without a crash or a failed queueObject, every stored file is referenced, queued for
  // deletion, or owned by a save that has not ended.
  lemma {:induction false} NothingIsForgotten(s: State, steps: seq<Step>, v: State)
    requires Init(s) && Runs(s, steps, v)
    ensures v.files.Keys <= Keys(v.tables) + v.tables.queue + v.saves.Keys + v.doomed + v.leaked
    ensures (forall i :: 0 <= i < |steps| ==> !Leaks(steps[i])) ==>
              v.files.Keys <= Keys(v.tables) + v.tables.queue + v.saves.Keys + v.doomed
  {
    InitHolds(s);
    RunKeepsInv(s, steps, v);
    if forall i :: 0 <= i < |steps| ==> !Leaks(steps[i]) {
      OnlyBreakageLeaks(s, steps, v);
    }
  }

  // In every state an open draft's manifest is valid against sources that can be read, and
  // a prepared piece still has every source of its manifest, and a PDF of as many pages.
  lemma {:induction false} EveryStateIsClosed(s: State, steps: seq<Step>, v: State)
    requires Init(s) && Runs(s, steps, v)
    ensures forall d :: d in v.tables.drafts && !v.tables.drafts[d].finalized ==>
              var sources := DraftAssets(v.tables, d, v.tables.drafts[d].owner);
              ValidManifest(v.tables.drafts[d].manifest, sources, true)
              && forall a :: a in sources ==> AssetStored(sources[a], v.files)
    ensures forall p :: p in v.tables.pieces && v.tables.pieces[p].manifest.Some? ==>
              var m, sources := v.tables.pieces[p].manifest.value, PieceAssets(v.tables, p);
              && p in v.tables.pdfs && v.tables.pdfs[p].pages == |m.pages|
              && ValidManifest(m, sources, false) && sources.Keys == SourcesIn(m)
              && forall a :: a in sources ==> AssetStored(sources[a], v.files)
    ensures Orphans(v.tables) == {}
  {
    InitHolds(s);
    RunKeepsInv(s, steps, v);
    forall d | d in v.tables.drafts && !v.tables.drafts[d].finalized
      ensures ValidManifest(v.tables.drafts[d].manifest, DraftAssets(v.tables, d, v.tables.drafts[d].owner), true)
    {
      assert DraftOk(v.tables, d, v.tables.drafts[d]);
    }
    forall p | p in v.tables.pieces && v.tables.pieces[p].manifest.Some?
      ensures PieceOk(v.tables, p, v.tables.pieces[p])
      ensures PieceAssets(v.tables, p).Keys == SourcesIn(v.tables.pieces[p].manifest.value)
    {
      PieceSourcesAreThere(v.tables, p);
    }
  }

  lemma PieceSourcesAreThere(t: Tables, p: Id)
    requires Ok(t) && p in t.pieces && t.pieces[p].manifest.Some?
    ensures PieceOk(t, p, t.pieces[p]) && PieceAssets(t, p).Keys == SourcesIn(t.pieces[p].manifest.value)
  {
  }

  // Preparing a piece again never dangles, whatever happened before.
  lemma {:induction false} AnyPieceCanBePreparedAgain(s: State, steps: seq<Step>, v: State, owner: Owner, piece: Id, drawn: Drawn, now: real)
    requires Init(s) && Runs(s, steps, v) && DrawsFresh(v, NewDraft(owner, Some(piece), drawn))
    requires Owns(v.tables, owner, piece) && |OpenDrafts(v.tables, owner, now)| < MAX_OPEN_DRAFTS
    requires piece in v.tables.pdfs ==> v.tables.pdfs[piece].pages <= MAX_PREPARED_PAGES
    ensures var r := CreateImport(v.tables, owner, Some(piece), drawn, now);
            && r.Done? && drawn.draft in r.tables.drafts
            && var d, sources := r.tables.drafts[drawn.draft], DraftAssets(r.tables, drawn.draft, owner);
            && ValidManifest(d.manifest, sources, true)
            && forall a :: a in sources ==> AssetStored(sources[a], v.files)
  {
    InitHolds(s);
    RunKeepsInv(s, steps, v);
    PreparedAgain(v.tables, owner, piece, drawn, now, v.files);
  }

  // ---------------------------------------------------------------------------
  // One publication
  // ---------------------------------------------------------------------------

  // Saving an unchanged preparation keeps the bytes of the PDF it started from, whatever
  // the browser uploaded.
  lemma UnchangedSaveKeepsBytes(s: State, key: Key, now: real, f: Finish, copied: Option<Key>)
    requires Inv(s) && Enabled(s, Commit(key, now, Reported)) && s.saves[key].request == Publish(f, copied)
    requires SaveResult(s.tables, key, s.saves[key], now).Done? && KeepsOriginal(s.tables, f)
    ensures var p := s.tables.drafts[f.draft].piece.value;
            var v := SaveResult(s.tables, key, s.saves[key], now).tables;
            p in v.pdfs && v.pdfs[p] == s.tables.pdfs[p].(key := key)
  {
    var p := s.tables.drafts[f.draft].piece.value;
    assert SaveOk(s, key) && CopyOk(s, s.saves[key]) && PdfStored(s.tables.pdfs[p], s.files);
    PublishedKey(s.tables, f, key, s.saves[key].blob, now);
  }

  // A finished draft answers a retry without changing anything.
  lemma RetryChangesNothing(t: Tables, f: Finish, key: Key, blob: Blob, now: real)
    requires Linked(t) && Readable(t, f.owner, f.draft, now)
    requires t.drafts[f.draft].finalized && t.drafts[f.draft].revision == f.revision
    ensures FinalizeImport(t, f, key, blob, now) == Unchanged
  {
  }

  // ---------------------------------------------------------------------------
  // The history of edits and publications
  // ---------------------------------------------------------------------------

  function EditsOf(history: seq<Event>, draft: Id): nat {
    if history == [] then 0
    else
      var last := history[|history| - 1];
      EditsOf(history[..|history| - 1], draft) + if last.WasEdited? && last.draft == draft then 1 else 0
  }

  // Every edit was made against the revision left by the edits before it.
  ghost predicate InOrder(history: seq<Event>) {
    forall i :: 0 <= i < |history| && history[i].WasEdited? ==> history[i].revision == EditsOf(history[..i], history[i].draft)
  }

  // No draft was published twice, and no two publications of a piece started from the same
  // content.
  ghost predicate PublishedOnce(history: seq<Event>) {
    forall i, j :: 0 <= i < j < |history| && history[i].WasPublished? && history[j].WasPublished? ==>
      && history[i].draft != history[j].draft
      && !(history[i].piece == history[j].piece && history[i].base == history[j].base)
  }

  ghost predicate Remembered(s: State, e: Event) {
    && e.draft in s.ids
    && (e.WasPublished? ==>
          && (e.draft in s.tables.drafts ==> s.tables.drafts[e.draft].finalized)
          && e.piece in s.ids && (e.piece in s.tables.pieces ==> s.tables.pieces[e.piece].content > e.base))
  }

  ghost predicate HistoryOk(s: State) {
    && InOrder(s.history) && PublishedOnce(s.history)
    && (forall i :: 0 <= i < |s.history| ==> Remembered(s, s.history[i]))
    && (forall d :: d in s.tables.drafts ==> s.tables.drafts[d].revision == EditsOf(s.history, d))
  }

  lemma {:induction false} UnseenDraftHasNoEdits(history: seq<Event>, ids: set<Id>, draft: Id)
    requires draft !in ids && forall i :: 0 <= i < |history| ==> history[i].draft in ids
    ensures EditsOf(history, draft) == 0
    decreases |history|
  {
    if history != [] {
      UnseenDraftHasNoEdits(history[..|history| - 1], ids, draft);
    }
  }

  // How a step may change draft and piece rows, given the events it records.
  ghost predicate DraftMoves(s: State, v: State, events: seq<Event>, d: Id) {
    d in v.tables.drafts ==>
      if d in s.tables.drafts then
        && (s.tables.drafts[d].finalized ==> v.tables.drafts[d].finalized)
        && v.tables.drafts[d].revision
           == s.tables.drafts[d].revision + if events != [] && events[0].WasEdited? && events[0].draft == d then 1 else 0
      else d !in s.ids && v.tables.drafts[d].revision == 0 && (events != [] ==> events[0].draft != d)
  }

  ghost predicate PieceMoves(s: State, v: State, p: Id) {
    p in v.tables.pieces ==>
      if p in s.tables.pieces then v.tables.pieces[p].content >= s.tables.pieces[p].content else p !in s.ids
  }

  ghost predicate EventFits(s: State, v: State, e: Event) {
    && e.draft in s.tables.drafts && !s.tables.drafts[e.draft].finalized
    && match e
       case WasEdited(d, revision) => s.tables.drafts[d].revision == revision
       case WasPublished(d, p, base) =>
         && (d in v.tables.drafts ==> v.tables.drafts[d].finalized)
         && (if p in s.tables.pieces then base == s.tables.pieces[p].content else p !in s.ids)
         && p in v.ids && (p in v.tables.pieces ==> v.tables.pieces[p].content > base)
  }

  ghost predicate Recorded(s: State, v: State, events: seq<Event>) {
    && v.history == s.history + events && |events| <= 1 && s.ids <= v.ids
    && (forall d :: DraftMoves(s, v, events, d)) && (forall p :: PieceMoves(s, v, p))
    && (forall i :: 0 <= i < |events| ==> EventFits(s, v, events[i]))
  }

  lemma RecordedKeepsHistory(s: State, v: State, events: seq<Event>)
    requires HistoryOk(s) && IdsDrawn(s) && Recorded(s, v, events)
    ensures HistoryOk(v)
  {
    var n := |s.history|;
    assert forall i :: 0 <= i <= n ==> v.history[..i] == s.history[..i];
    assert v.history[..n] == s.history;
    forall i | 0 <= i < |v.history|
      ensures Remembered(v, v.history[i])
    {
      if i < n {
        assert Remembered(s, s.history[i]) && v.history[i] == s.history[i];
        assert DraftMoves(s, v, events, v.history[i].draft);
        assert v.history[i].WasPublished? ==> PieceMoves(s, v, v.history[i].piece);
      } else {
        assert EventFits(s, v, events[0]);
      }
    }
    NewEventFits(s, v, events);
    forall d | d in v.tables.drafts
      ensures v.tables.drafts[d].revision == EditsOf(v.history, d)
    {
      RevisionCounts(s, v, events, d);
    }
  }

  lemma NewEventFits(s: State, v: State, events: seq<Event>)
    requires HistoryOk(s) && IdsDrawn(s) && Recorded(s, v, events)
    ensures InOrder(v.history) && PublishedOnce(v.history)
  {
    var n := |s.history|;
    assert forall i :: 0 <= i <= n ==> v.history[..i] == s.history[..i];
    assert v.history[..n] == s.history;
    if events != [] {
      assert EventFits(s, v, events[0]) && v.history[n] == events[0];
      forall i | 0 <= i < n && s.history[i].WasPublished? && events[0].WasPublished?
        ensures s.history[i].draft != events[0].draft
        ensures !(s.history[i].piece == events[0].piece && s.history[i].base == events[0].base)
      {
        assert Remembered(s, s.history[i]);
      }
    }
  }

  lemma {:induction false} RevisionCounts(s: State, v: State, events: seq<Event>, d: Id)
    requires HistoryOk(s) && IdsDrawn(s) && Recorded(s, v, events) && d in v.tables.drafts
    ensures v.tables.drafts[d].revision == EditsOf(v.history, d)
  {
    var n := |s.history|;
    assert DraftMoves(s, v, events, d) && v.history[..n] == s.history;
    if d !in s.tables.drafts {
      forall i | 0 <= i < n
        ensures s.history[i].draft in s.ids
      {
        assert Remembered(s, s.history[i]);
      }
      UnseenDraftHasNoEdits(s.history, s.ids, d);
    }
    if events == [] {
      assert v.history == s.history;
    }
  }

  // ---------------------------------------------------------------------------
  // What each step records
  // ---------------------------------------------------------------------------

  // How a transaction moves draft and piece rows: it edits at most one draft, and new rows
  // have identifiers it drew.
  ghost predicate RowsMove(t: Tables, u: Tables, edited: Option<Id>, drawn: set<Id>) {
    && (forall d :: d in u.drafts ==>
          if d in t.drafts then
            && (t.drafts[d].finalized ==> u.drafts[d].finalized)
            && u.drafts[d].revision == t.drafts[d].revision + if edited == Some(d) then 1 else 0
          else d in drawn && u.drafts[d].revision == 0)
    && (forall p :: p in u.pieces ==>
          if p in t.pieces then u.pieces[p].content >= t.pieces[p].content else p in drawn)
  }

  lemma PlainRowsMove(t: Tables, tx: Plain, now: real)
    requires tx.NewDraft? ==> |tx.drawn.pages| == MAX_PREPARED_PAGES && tx.drawn.draft !in t.drafts
    requires tx.NewPiece? ==> tx.id !in t.pieces
    ensures var r := PlainResult(t, tx, now);
            r.Done? ==> RowsMove(t, r.tables, if tx.Edit? then Some(tx.draft) else None, Drawing(tx))
  {
    match tx
    case NewDraft(owner, from, drawn) => CreateRowsMove(t, owner, from, drawn, now);
    case DropPiece(owner, id) =>
      var u := WithoutPiece(t, id);
      assert Settled(u, KeyOf(t, id)).drafts == u.drafts && Settled(u, KeyOf(t, id)).pieces == u.pieces;
    case _ =>
  }

  lemma CreateRowsMove(t: Tables, owner: Owner, from: Option<Id>, drawn: Drawn, now: real)
    requires |drawn.pages| == MAX_PREPARED_PAGES && drawn.draft !in t.drafts
    ensures var r := CreateImport(t, owner, from, drawn, now);
            r.Done? ==> RowsMove(t, r.tables, None, {drawn.draft, drawn.asset})
  {
  }

  lemma AttachRowsMove(t: Tables, a: Attachment, key: Key, blob: Blob, now: real)
    requires |a.pages| == MAX_PREPARED_PAGES
    ensures var r := AttachSource(t, a, key, blob, now);
            r.Done? ==>
              && RowsMove(t, r.tables, Some(a.draft), {}) && a.draft in t.drafts
              && !t.drafts[a.draft].finalized && t.drafts[a.draft].revision == a.revision
  {
  }

  lemma RowsMoveRecords(s: State, v: State, edited: Option<Id>, drawn: set<Id>, events: seq<Event>)
    requires RowsMove(s.tables, v.tables, edited, drawn) && drawn !! s.ids && IdsDrawn(s)
    requires v.history == s.history + events && |events| <= 1 && s.ids <= v.ids
    requires edited == (if events != [] && events[0].WasEdited? then Some(events[0].draft) else None)
    requires forall i :: 0 <= i < |events| ==> EventFits(s, v, events[i])
    ensures Recorded(s, v, events)
  {
  }

  lemma TransactRecords(s: State, tx: Plain, now: real)
    requires Inv(s) && Enabled(s, Transact(tx, now))
    ensures exists events :: Recorded(s, Next(s, Transact(tx, now)), events)
  {
    var v := Next(s, Transact(tx, now));
    if PlainResult(s.tables, tx, now).Done? {
      PlainRowsMove(s.tables, tx, now);
      RowsMoveRecords(s, v, if tx.Edit? then Some(tx.draft) else None, Drawing(tx), PlainEvents(tx));
    } else {
      NothingRecorded(s, v);
    }
  }

  lemma NothingRecorded(s: State, v: State)
    requires v.history == s.history && v.ids == s.ids && IdsDrawn(s)
    requires v.tables.drafts == s.tables.drafts && v.tables.pieces == s.tables.pieces
    ensures Recorded(s, v, [])
  {
  }

  lemma AttachRecords(s: State, key: Key, now: real, reply: Reply)
    requires Inv(s) && Enabled(s, Commit(key, now, reply)) && s.saves[key].request.Attach? && !reply.Aborted?
    requires SaveResult(s.tables, key, s.saves[key], now).Done?
    ensures Recorded(s, Next(s, Commit(key, now, reply)), SaveEvents(s.tables, s.saves[key]))
  {
    var v := Next(s, Commit(key, now, reply));
    var a := s.saves[key].request.a;
    AttachRowsMove(s.tables, a, key, s.saves[key].blob, now);
    RowsMoveRecords(s, v, Some(a.draft), {}, SaveEvents(s.tables, s.saves[key]));
  }

  lemma PublicationRowsMove(t: Tables, f: Finish, key: Key, blob: Blob, now: real)
    requires Linked(t) && f.piece !in t.pieces
    ensures var r := FinalizeImport(t, f, key, blob, now);
            r.Done? ==>
              && RowsMove(t, r.tables, None, {f.piece}) && !t.drafts[f.draft].finalized
              && f.draft in r.tables.drafts && r.tables.drafts[f.draft].finalized
              && var p, base := Target(t, f), if Target(t, f) in t.pieces then t.pieces[Target(t, f)].content else 0;
              && p in r.tables.pieces && r.tables.pieces[p].content == base + 1
              && (p !in t.pieces ==> p == f.piece)
  {
    var r := FinalizeImport(t, f, key, blob, now);
    if r.Done? {
      assert DraftLinked(t, t.drafts[f.draft]);
      var p := Target(t, f);
      var u := Published(t, f.draft, p, f.owner, Pdf(key, blob.size, blob.checksum, f.pages), now);
      assert r.tables.drafts == u.drafts && r.tables.pieces == u.pieces;
    }
  }

  lemma PublicationRecords(s: State, key: Key, now: real, reply: Reply)
    requires Inv(s) && Enabled(s, Commit(key, now, reply)) && s.saves[key].request.Publish? && !reply.Aborted?
    requires SaveResult(s.tables, key, s.saves[key], now).Done?
    ensures Recorded(s, Next(s, Commit(key, now, reply)), SaveEvents(s.tables, s.saves[key]))
  {
    var v := Next(s, Commit(key, now, reply));
    var f := s.saves[key].request.f;
    PublicationRowsMove(s.tables, f, key, s.saves[key].blob, now);
    RowsMoveRecords(s, v, None, {f.piece}, SaveEvents(s.tables, s.saves[key]));
  }

  lemma CommitRecords(s: State, key: Key, now: real, reply: Reply)
    requires Inv(s) && Enabled(s, Commit(key, now, reply))
    ensures exists events :: Recorded(s, Next(s, Commit(key, now, reply)), events)
  {
    if SaveResult(s.tables, key, s.saves[key], now).Done? && !reply.Aborted? {
      if s.saves[key].request.Publish? {
        PublicationRecords(s, key, now, reply);
      } else {
        AttachRecords(s, key, now, reply);
      }
    } else {
      NothingRecorded(s, Next(s, Commit(key, now, reply)));
    }
  }

  lemma OtherStepsRecordNothing(s: State, step: Step)
    requires Inv(s) && Enabled(s, step) && !step.Transact? && !step.Commit?
    ensures Recorded(s, Next(s, step), [])
  {
    var v := Next(s, step);
    assert v.history == s.history && v.tables.drafts == s.tables.drafts && v.tables.pieces == s.tables.pieces;
    NothingRecorded(s, v);
  }

  lemma StepRecords(s: State, step: Step)
    requires Inv(s) && Enabled(s, step)
    ensures exists events :: Recorded(s, Next(s, step), events)
  {
    match step
    case Transact(tx, now) => TransactRecords(s, tx, now);
    case Commit(key, now, reply) => CommitRecords(s, key, now, reply);
    case _ => OtherStepsRecordNothing(s, step);
  }

  lemma {:induction false} RunKeepsHistory(s: State, steps: seq<Step>, v: State)
    requires Inv(s) && HistoryOk(s) && Runs(s, steps, v)
    ensures HistoryOk(v)
    decreases |steps|
  {
    if steps != [] {
      var u := Next(s, steps[0]);
      StepRecords(s, steps[0]);
      var events :| Recorded(s, u, events);
      RecordedKeepsHistory(s, u, events);
      StepKeepsInv(s, steps[0]);
      RunKeepsHistory(u, steps[1..], v);
    }
  }

  // Accepted edits of a draft are numbered consecutively, a draft is published at most once,
  // and at most one of several drafts from the same content of a piece is published.
  lemma {:induction false} DraftsPublishOnce(s: State, steps: seq<Step>, v: State)
    requires Init(s) && Runs(s, steps, v)
    ensures InOrder(v.history) && PublishedOnce(v.history)
    ensures forall d :: d in v.tables.drafts ==> v.tables.drafts[d].revision == EditsOf(v.history, d)
  {
    InitHolds(s);
    RunKeepsHistory(s, steps, v);
  }
}
