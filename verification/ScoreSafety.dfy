/**
 Safety and conservation of score storage over whole runs: no key that a row holds ever
 loses its file, and no stored file is forgotten except by a crash or a failed queueObject.
 */
module ScoreSafety {
  import opened Manifests
  import opened ScoreTables
  import opened ScoreInvariants
  import opened ScoreProtocol

  // ---------------------------------------------------------------------------
  // Storage, step by step
  // ---------------------------------------------------------------------------

  lemma TransactKeepsStorage(s: State, v: State)
    requires Storage(s) && Keeps(s.tables, v.tables, s.files, {})
    requires v == s.(tables := v.tables, ids := v.ids, history := v.history)
    ensures Storage(v)
  {
    forall k | k in v.saves
      ensures SaveOk(v, k)
    {
      assert SaveOk(s, k);
    }
    forall c | c in v.cleaners
      ensures CleanerOk(v, v.cleaners[c])
    {
      assert CleanerOk(s, s.cleaners[c]);
    }
  }

  lemma SavesStayOk(s: State, key: Key, save: Save)
    requires Storage(s) && key !in s.used && Saveable(s, save)
    ensures var v := Next(s, SaveObject(key, save));
            forall k :: k in v.saves ==> SaveOk(v, k)
  {
    var v := Next(s, SaveObject(key, save));
    forall k | k in v.saves
      ensures SaveOk(v, k)
    {
      if k != key {
        assert SaveOk(s, k);
      }
    }
  }

  lemma SaveKeepsStorage(s: State, key: Key, save: Save)
    requires Storage(s) && key !in s.used && Saveable(s, save)
    ensures Storage(Next(s, SaveObject(key, save)))
  {
    SavesStayOk(s, key, save);
    var v := Next(s, SaveObject(key, save));
    forall c | c in v.cleaners
      ensures CleanerOk(v, v.cleaners[c])
    {
      assert CleanerOk(s, s.cleaners[c]);
    }
  }

  lemma OtherSavesStay(s: State, key: Key, v: State)
    requires Storage(s) && key in s.saves && Moves(s.tables, v.tables, {key})
    requires v == s.(tables := v.tables, ids := v.ids, history := v.history, saves := s.saves - {key}, doomed := v.doomed)
    requires v.doomed <= s.doomed + {key}
    ensures forall k :: k in v.saves ==> SaveOk(v, k)
  {
  }

  lemma CleanersStay(s: State, key: Key, v: State)
    requires Storage(s) && key in s.saves && Keys(v.tables) <= Keys(s.tables) + {key}
    requires v == s.(tables := v.tables, ids := v.ids, history := v.history, saves := s.saves - {key}, doomed := v.doomed)
    ensures forall c :: c in v.cleaners ==> CleanerOk(v, v.cleaners[c])
  {
    forall c | c in v.cleaners
      ensures CleanerOk(v, v.cleaners[c])
    {
      assert CleanerOk(s, s.cleaners[c]);
    }
  }

  // The commit takes effect: the key moves from its save to a row.
  lemma PublishKeepsStorage(s: State, key: Key, v: State)
    requires Storage(s) && key in s.saves && Keeps(s.tables, v.tables, s.files, {key})
    requires v == s.(tables := v.tables, ids := v.ids, history := v.history, saves := s.saves - {key}, doomed := v.doomed)
    requires key in Keys(v.tables) && (v.doomed == s.doomed || v.doomed == s.doomed + {key})
    ensures Storage(v)
  {
    assert SaveOk(s, key);
    OtherSavesStay(s, key, v);
    CleanersStay(s, key, v);
  }

  // Ending a save without effect: the key is left to queueObject or lost with its process.
  lemma EndingSaveKeepsStorage(s: State, key: Key, v: State)
    requires Storage(s) && (key in s.saves || key in s.doomed)
    requires v == s.(saves := s.saves - {key}, doomed := v.doomed, leaked := v.leaked)
    requires (v.doomed == s.doomed + {key} && v.leaked == s.leaked)
             || (v.doomed == s.doomed - {key} && v.leaked == s.leaked + {key})
    ensures Storage(v)
  {
    assert key in s.saves ==> SaveOk(s, key);
    forall k | k in v.saves
      ensures SaveOk(v, k)
    {
      assert SaveOk(s, k);
    }
    forall c | c in v.cleaners
      ensures CleanerOk(v, v.cleaners[c])
    {
      assert CleanerOk(s, s.cleaners[c]);
    }
  }

  lemma QueueObjectKeepsStorage(s: State, key: Key, ok: bool)
    requires Storage(s) && key in s.doomed
    ensures Storage(Next(s, QueueObject(key, ok)))
  {
    var v := Next(s, QueueObject(key, ok));
    assert Keys(v.tables) == Keys(s.tables);
    forall k | k in v.saves
      ensures SaveOk(v, k)
    {
      assert SaveOk(s, k);
    }
    forall c | c in v.cleaners
      ensures CleanerOk(v, v.cleaners[c])
    {
      assert CleanerOk(s, s.cleaners[c]);
    }
  }

  lemma ListKeepsStorage(s: State, c: nat, keys: seq<Key>)
    requires Storage(s) && Enabled(s, ListQueue(c, keys))
    ensures Storage(Next(s, ListQueue(c, keys)))
  {
    var v := Next(s, ListQueue(c, keys));
    forall k | k in keys
      ensures k !in s.saves
    {
      assert k in s.saves ==> SaveOk(s, k);
    }
    CleanerStepKeepsStorage(s, v, c);
  }

  lemma CheckKeepsStorage(s: State, c: nat)
    requires Storage(s) && Enabled(s, CheckKey(c))
    ensures Storage(Next(s, CheckKey(c)))
  {
    var v := Next(s, CheckKey(c));
    var phase := s.cleaners[c];
    assert CleanerOk(s, phase) && phase.rest[0] in phase.rest;
    assert forall k :: k in phase.rest[1..] ==> k in phase.rest;
    CleanerStepKeepsStorage(s, v, c);
  }

  // A step of one cleaner that touches neither rows nor files.
  lemma CleanerStepKeepsStorage(s: State, v: State, c: nat)
    requires Storage(s) && v == s.(cleaners := v.cleaners) && v.cleaners - {c} == s.cleaners - {c}
    requires c in v.cleaners ==> CleanerOk(s, v.cleaners[c])
    ensures Storage(v)
  {
    forall k | k in v.saves
      ensures SaveOk(v, k)
    {
      assert SaveOk(s, k);
    }
    forall e | e in v.cleaners
      ensures CleanerOk(v, v.cleaners[e])
    {
      if e != c {
        assert e in v.cleaners - {c};
        assert e in s.cleaners && s.cleaners[e] == (s.cleaners - {c})[e] == (v.cleaners - {c})[e];
        assert CleanerOk(s, s.cleaners[e]);
      } else {
        assert CleanerOk(s, v.cleaners[c]);
      }
    }
  }

  // Deleting the file of a dead key takes it from no row and no open save.
  lemma DeleteKeepsStorage(s: State, k: Key)
    requires Storage(s) && Dead(s, k)
    ensures Storage(s.(files := s.files - {k}))
  {
    var v := s.(files := s.files - {k});
    forall p | p in v.tables.pdfs
      ensures PdfStored(v.tables.pdfs[p], v.files)
    {
      assert PdfStored(s.tables.pdfs[p], s.files) && s.tables.pdfs[p].key in PdfKeys(s.tables);
    }
    forall a | a in v.tables.assets
      ensures AssetStored(v.tables.assets[a], v.files)
    {
      assert AssetStored(s.tables.assets[a], s.files) && s.tables.assets[a].key in AssetKeys(s.tables);
    }
    forall e | e in v.saves
      ensures SaveOk(v, e)
    {
      assert SaveOk(s, e);
    }
    forall c | c in v.cleaners
      ensures CleanerOk(v, v.cleaners[c])
    {
      assert CleanerOk(s, s.cleaners[c]);
    }
  }

  lemma DeleteFileKeepsStorage(s: State, c: nat, gone: bool, ok: bool)
    requires Storage(s) && Enabled(s, DeleteFile(c, gone, ok))
    ensures Storage(Next(s, DeleteFile(c, gone, ok)))
  {
    var phase := s.cleaners[c];
    assert CleanerOk(s, phase);
    if gone {
      DeleteKeepsStorage(s, phase.key);
      CleanerStepKeepsStorage(s.(files := s.files - {phase.key}), Next(s, DeleteFile(c, gone, ok)), c);
    } else {
      CleanerStepKeepsStorage(s, Next(s, DeleteFile(c, gone, ok)), c);
    }
  }

  // Only a key whose file is gone leaves the queue.
  lemma DequeueKeepsStorage(s: State, c: nat, ok: bool)
    requires Storage(s) && Enabled(s, Dequeue(c, ok))
    ensures Storage(Next(s, Dequeue(c, ok)))
  {
    var phase := s.cleaners[c];
    assert CleanerOk(s, phase);
    if ok {
      var u := WithQueue(s, s.tables.queue - {phase.key});
      assert Keys(u.tables) == Keys(s.tables);
      forall k | k in u.saves
        ensures SaveOk(u, k)
      {
        assert SaveOk(s, k);
      }
      forall e | e in u.cleaners
        ensures CleanerOk(u, u.cleaners[e])
      {
        assert CleanerOk(s, s.cleaners[e]);
      }
      CleanerStepKeepsStorage(u, Next(s, Dequeue(c, ok)), c);
    } else {
      CleanerStepKeepsStorage(s, Next(s, Dequeue(c, ok)), c);
    }
  }

  // ---------------------------------------------------------------------------
  // The invariant
  // ---------------------------------------------------------------------------

  ghost predicate IdsDrawn(s: State) {
    s.tables.pieces.Keys <= s.ids && s.tables.drafts.Keys <= s.ids && s.tables.assets.Keys <= s.ids
  }

  ghost predicate Inv(s: State) { Ok(s.tables) && Storage(s) && IdsDrawn(s) }

  // Libraries as the storage protocol found them: PDFs saved before preparation existed.
  ghost predicate Init(s: State) {
    && Linked(s.tables) && KeysApart(s.tables) && Stored(s.tables, s.files) && IdsDrawn(s)
    && s.tables.assets == map[] && s.tables.drafts == map[] && s.tables.draftSources == {} && s.tables.pieceSources == {}
    && s.tables.queue == {} && (forall p :: p in s.tables.pieces ==> s.tables.pieces[p].manifest.None?)
    && s.files.Keys == PdfKeys(s.tables) && s.files.Keys <= s.used
    && s.saves == map[] && s.doomed == {} && s.leaked == {} && s.cleaners == map[] && s.history == []
  }

  lemma InitHolds(s: State)
    requires Init(s)
    ensures Inv(s)
  {
  }

  lemma TransactionKeeps(t: Tables, tx: Plain, now: real, files: map<Key, Blob>)
    requires Ok(t) && Stored(t, files) && (tx.NewDraft? ==> |tx.drawn.pages| == MAX_PREPARED_PAGES && FreshIds(tx.drawn.pages, []))
    requires Drawing(tx) !! t.pieces.Keys && Drawing(tx) !! t.drafts.Keys && Drawing(tx) !! t.assets.Keys
    ensures PlainResult(t, tx, now).Done? ==> Keeps(t, PlainResult(t, tx, now).tables, files, {})
  {
    match tx
    case NewPiece(owner, id) => CreatePieceKeeps(t, owner, id, files);
    case NewDraft(owner, from, drawn) => CreateImportKeeps(t, owner, from, drawn, now, files);
    case Edit(owner, draft, revision, manifest, checks) =>
      UpdateImportKeeps(t, owner, draft, revision, manifest, checks, now, files);
    case DropDraft(owner, draft) => DraftsDeletedKeep(t, {draft}, files);
    case DropPiece(owner, id) => DeletePieceKeeps(t, id, files);
    case Expire => DraftsDeletedKeep(t, Expired(t, now), files);
  }

  // The rows a transaction leaves are the old ones and those it drew identifiers for.
  lemma TransactionDraws(t: Tables, tx: Plain, now: real)
    requires tx.NewDraft? ==> |tx.drawn.pages| == MAX_PREPARED_PAGES
    ensures var r := PlainResult(t, tx, now);
            r.Done? ==>
              && r.tables.pieces.Keys <= t.pieces.Keys + Drawing(tx)
              && r.tables.drafts.Keys <= t.drafts.Keys + Drawing(tx)
              && r.tables.assets.Keys <= t.assets.Keys + Drawing(tx)
  {
  }

  lemma SaveResultKeeps(s: State, key: Key, now: real)
    requires Inv(s) && Enabled(s, Commit(key, now, Reported))
    ensures var r := SaveResult(s.tables, key, s.saves[key], now);
            r.Done? ==> Keeps(s.tables, r.tables, s.files, {key}) && key in Keys(r.tables)
  {
    var t, save := s.tables, s.saves[key];
    assert SaveOk(s, key);
    match save.request
    case Attach(a) =>
      AttachSourceKeeps(t, a, key, save.blob, now, s.files);
      AttachedKey(t, a, key, save.blob, now);
    case Publish(f, copied) =>
      if SaveResult(t, key, save, now).Done? {
        SavedPages(s, key, f);
        FinalizeImportKeeps(t, f, key, save.blob, now, s.files);
        PublishedKey(t, f, key, save.blob, now);
      }
  }

  lemma AttachedKey(t: Tables, a: Attachment, key: Key, blob: Blob, now: real)
    requires |a.pages| == MAX_PREPARED_PAGES
    ensures var r := AttachSource(t, a, key, blob, now);
            r.Done? ==> key in Keys(r.tables)
  {
    var r := AttachSource(t, a, key, blob, now);
    if r.Done? {
      assert r.tables.assets[a.asset].key in AssetKeys(r.tables);
    }
  }

  lemma PublishedKey(t: Tables, f: Finish, key: Key, blob: Blob, now: real)
    ensures var r := FinalizeImport(t, f, key, blob, now);
            r.Done? ==>
              && Target(t, f) in r.tables.pdfs && key in Keys(r.tables)
              && r.tables.pdfs[Target(t, f)] == Pdf(key, blob.size, blob.checksum, f.pages)
  {
  }

  // The saved bytes are a PDF of the page count the finalisation was checked for, also when
  // they are those of the piece's current PDF.
  lemma SavedPages(s: State, key: Key, f: Finish)
    requires Inv(s) && key in s.saves && s.saves[key].request == Publish(f, Original(s.tables, f))
    requires f.draft in s.tables.drafts
    ensures s.saves[key].blob.mime == PdfFile && s.saves[key].blob.pages == f.pages
  {
  }

  lemma SaveResultDraws(t: Tables, key: Key, save: Save, now: real)
    requires Saving(save)
    ensures var r := SaveResult(t, key, save, now);
            r.Done? && Linked(t) ==>
              && r.tables.pieces.Keys <= t.pieces.Keys + SaveDraws(save)
              && r.tables.drafts.Keys <= t.drafts.Keys
              && r.tables.assets.Keys <= t.assets.Keys + SaveDraws(save)
  {
    if Linked(t) && save.request.Publish? && save.request.f.draft in t.drafts {
      assert DraftLinked(t, t.drafts[save.request.f.draft]);
    }
  }

  lemma CommitKeepsInv(s: State, key: Key, now: real, reply: Reply)
    requires Inv(s) && Enabled(s, Commit(key, now, reply))
    ensures Inv(Next(s, Commit(key, now, reply)))
  {
    var v := Next(s, Commit(key, now, reply));
    var r := SaveResult(s.tables, key, s.saves[key], now);
    if r.Done? && !reply.Aborted? {
      SaveResultKeeps(s, key, now);
      SaveResultDraws(s.tables, key, s.saves[key], now);
      PublishKeepsStorage(s, key, v);
    } else {
      EndingSaveKeepsStorage(s, key, v);
    }
  }

  lemma TransactKeepsInv(s: State, tx: Plain, now: real)
    requires Inv(s) && Enabled(s, Transact(tx, now))
    ensures Inv(Next(s, Transact(tx, now)))
  {
    if PlainResult(s.tables, tx, now).Done? {
      TransactionKeeps(s.tables, tx, now, s.files);
      TransactionDraws(s.tables, tx, now);
      TransactKeepsStorage(s, Next(s, Transact(tx, now)));
    }
  }

  lemma QueueChangeKeepsOk(s: State, v: State)
    requires Ok(s.tables) && v.tables == s.tables.(queue := v.tables.queue)
    ensures Ok(v.tables)
  {
    SameRowsOk(s.tables, v.tables);
  }

  lemma StepKeepsInv(s: State, step: Step)
    requires Inv(s) && Enabled(s, step)
    ensures Inv(Next(s, step))
  {
    match step
    case Transact(tx, now) => TransactKeepsInv(s, tx, now);
    case SaveObject(key, save) => SaveKeepsStorage(s, key, save);
    case Commit(key, now, reply) => CommitKeepsInv(s, key, now, reply);
    case QueueObject(key, ok) =>
      QueueChangeKeepsOk(s, Next(s, step));
      QueueObjectKeepsStorage(s, key, ok);
    case Crash(key) => EndingSaveKeepsStorage(s, key, Next(s, step));
    case ListQueue(c, keys) => ListKeepsStorage(s, c, keys);
    case CheckKey(c) => CheckKeepsStorage(s, c);
    case DeleteFile(c, gone, ok) => DeleteFileKeepsStorage(s, c, gone, ok);
    case Dequeue(c, ok) =>
      QueueChangeKeepsOk(s, Next(s, step));
      DequeueKeepsStorage(s, c, ok);
    case StopCleaner(c) => CleanerStepKeepsStorage(s, Next(s, step), c);
  }
}
