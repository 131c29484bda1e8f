/**
 Score storage as a protocol: uploads, finalisations and any number of cleaners interleaved
 over the score tables and the asset store (internal/app/imports.go, internal/assets/store.go).

 A step is what one process does at one moment: save a file, commit a transaction, queue
 the file of a transaction that did not report success, or one of the cleaner's list,
 check, delete and dequeue. Transactions are atomic and serialisable; a commit that reports
 an error has either taken effect or never will; keys and identifiers are never drawn twice.
 */
module ScoreProtocol {
  import opened Wrappers
  import opened Manifests
  import opened ScoreTables

  // A transaction that saves no file.
  datatype Plain =
    | NewPiece(owner: Owner, id: Id)
    | NewDraft(owner: Owner, from: Option<Id>, drawn: Drawn)
    | Edit(owner: Owner, draft: Id, revision: nat, manifest: Manifest, checks: Option<Failure>)
    | DropDraft(owner: Owner, draft: Id)
    | DropPiece(owner: Owner, id: Id)
    | Expire

  // A transaction that publishes a saved file. copied is the key whose bytes a finalisation
  // saved again in place of the uploaded ones.
  datatype Request = Attach(a: Attachment) | Publish(f: Finish, copied: Option<Key>)

  datatype Save = Save(blob: Blob, request: Request)

  // What the caller of a commit learns: success, an error although the commit took effect,
  // or an error and it never will.
  datatype Reply = Reported | Lost | Aborted

  datatype Cleaner = Listed(rest: seq<Key>) | Checked(key: Key, rest: seq<Key>) | Deleted(key: Key, rest: seq<Key>)

  datatype Event = WasEdited(draft: Id, revision: nat) | WasPublished(draft: Id, piece: Id, base: nat)

  // saves are files whose transaction has not ended, doomed those its process will queue
  // next, leaked those whose process stopped or failed to queue them.
  datatype State = State(tables: Tables, files: map<Key, Blob>, used: set<Key>, saves: map<Key, Save>, doomed: set<Key>,
                         leaked: set<Key>, cleaners: map<nat, Cleaner>, ids: set<Id>, history: seq<Event>)

  datatype Step =
    | Transact(tx: Plain, now: real)
    | SaveObject(key: Key, save: Save)
    | Commit(key: Key, now: real, reply: Reply)
    | QueueObject(key: Key, ok: bool)
    | Crash(key: Key)
    | ListQueue(cleaner: nat, keys: seq<Key>)
    | CheckKey(cleaner: nat)
    | DeleteFile(cleaner: nat, gone: bool, ok: bool)
    | Dequeue(cleaner: nat, ok: bool)
    | StopCleaner(cleaner: nat)

  // ---------------------------------------------------------------------------
  // Steps
  // ---------------------------------------------------------------------------

  ghost function PlainResult(t: Tables, tx: Plain, now: real): Outcome
    requires tx.NewDraft? ==> |tx.drawn.pages| == MAX_PREPARED_PAGES
  {
    match tx
    case NewPiece(owner, id) => CreatePiece(t, owner, id)
    case NewDraft(owner, from, drawn) => CreateImport(t, owner, from, drawn, now)
    case Edit(owner, draft, revision, manifest, checks) => UpdateImport(t, owner, draft, revision, manifest, checks, now)
    case DropDraft(owner, draft) => DeleteImport(t, owner, draft)
    case DropPiece(owner, id) => DeletePiece(t, owner, id)
    case Expire => ExpireDrafts(t, now)
  }

  // The identifiers a transaction draws, and that they are new.
  function Drawing(tx: Plain): set<Id> {
    match tx
    case NewPiece(_, id) => {id}
    case NewDraft(_, _, drawn) => {drawn.draft, drawn.asset}
    case _ => {}
  }

  ghost predicate DrawsFresh(s: State, tx: Plain) {
    && Drawing(tx) !! s.ids
    && (tx.NewDraft? ==> |tx.drawn.pages| == MAX_PREPARED_PAGES && FreshIds(tx.drawn.pages, []))
  }

  function PlainEvents(tx: Plain): seq<Event> { if tx.Edit? then [WasEdited(tx.draft, tx.revision)] else [] }

  ghost function AfterTransact(s: State, tx: Plain, now: real): State
    requires DrawsFresh(s, tx)
  {
    var r := PlainResult(s.tables, tx, now);
    if r.Done? then s.(tables := r.tables, ids := s.ids + Drawing(tx), history := s.history + PlainEvents(tx)) else s
  }

  // The bytes a finalisation saves are a valid PDF of the page count it was checked for,
  // or those of the file it copies.
  predicate Saveable(s: State, save: Save) {
    match save.request
    case Attach(a) => |a.pages| == MAX_PREPARED_PAGES
    case Publish(f, copied) =>
      if copied.Some? then copied.value in s.files && s.files[copied.value] == save.blob
      else save.blob.mime == PdfFile && save.blob.pages == f.pages
  }

  // What committing the transaction of a save does to the tables, if it takes effect.
  ghost function SaveResult(t: Tables, key: Key, save: Save, now: real): Outcome
    requires save.request.Attach? ==> |save.request.a.pages| == MAX_PREPARED_PAGES
  {
    match save.request
    case Attach(a) => AttachSource(t, a, key, save.blob, now)
    case Publish(f, copied) =>
      // The choice of bytes was made inside the transaction.
      if copied == Original(t, f) then FinalizeImport(t, f, key, save.blob, now) else Failed(Invalid)
  }

  function Original(t: Tables, f: Finish): Option<Key> {
    if f.draft in t.drafts && KeepsOriginal(t, f) then KeyOf(t, t.drafts[f.draft].piece.value) else None
  }

  function SaveDraws(save: Save): set<Id> {
    match save.request
    case Attach(a) => {a.asset}
    case Publish(f, _) => {f.piece}
  }

  ghost predicate SaveDrawsFresh(s: State, save: Save) {
    && SaveDraws(save) !! s.ids
    && (save.request.Attach? && save.request.a.draft in s.tables.drafts ==>
          FreshIds(save.request.a.pages, s.tables.drafts[save.request.a.draft].manifest.pages))
  }

  function SaveEvents(t: Tables, save: Save): seq<Event> {
    match save.request
    case Attach(a) => [WasEdited(a.draft, a.revision)]
    case Publish(f, _) =>
      if f.draft in t.drafts then
        var piece := Target(t, f);
        [WasPublished(f.draft, piece, if piece in t.pieces then t.pieces[piece].content else 0)]
      else []
  }

  ghost function AfterCommit(s: State, key: Key, now: real, reply: Reply): State
    requires key in s.saves && (s.saves[key].request.Attach? ==> |s.saves[key].request.a.pages| == MAX_PREPARED_PAGES)
  {
    var save := s.saves[key];
    var r := SaveResult(s.tables, key, save, now);
    var s1 := s.(saves := s.saves - {key});
    if r.Done? && !reply.Aborted? then
      s1.(tables := r.tables, ids := s.ids + SaveDraws(save), history := s.history + SaveEvents(s.tables, save),
          doomed := if reply.Lost? then s.doomed + {key} else s.doomed)
    else s1.(doomed := s.doomed + {key})
  }

  function WithQueue(s: State, queue: set<Key>): State { s.(tables := s.tables.(queue := queue)) }

  function WithCleaner(s: State, c: nat, phase: Cleaner): State { s.(cleaners := s.cleaners[c := phase]) }

  ghost predicate Enabled(s: State, step: Step) {
    match step
    case Transact(tx, _) => DrawsFresh(s, tx)
    case SaveObject(key, save) => key !in s.used && Saveable(s, save)
    case Commit(key, _, _) => key in s.saves && Saving(s.saves[key]) && SaveDrawsFresh(s, s.saves[key])
    case QueueObject(key, _) => key in s.doomed
    case Crash(key) => key in s.saves || key in s.doomed
    case ListQueue(c, keys) => c !in s.cleaners && |keys| <= 100 && forall k :: k in keys ==> k in s.tables.queue
    case CheckKey(c) => c in s.cleaners && s.cleaners[c].Listed? && s.cleaners[c].rest != []
    case DeleteFile(c, gone, ok) => c in s.cleaners && s.cleaners[c].Checked? && (ok ==> gone)
    case Dequeue(c, _) => c in s.cleaners && s.cleaners[c].Deleted?
    case StopCleaner(c) => c in s.cleaners
  }

  predicate Saving(save: Save) { save.request.Attach? ==> |save.request.a.pages| == MAX_PREPARED_PAGES }

  ghost function Next(s: State, step: Step): State
    requires Enabled(s, step)
  {
    match step
    case Transact(tx, now) => AfterTransact(s, tx, now)
    case SaveObject(key, save) =>
      s.(files := s.files[key := save.blob], used := s.used + {key}, saves := s.saves[key := save])
    case Commit(key, now, reply) => AfterCommit(s, key, now, reply)
    case QueueObject(key, ok) =>
      var s := s.(doomed := s.doomed - {key});
      if ok then WithQueue(s, s.tables.queue + {key}) else s.(leaked := s.leaked + {key})
    case Crash(key) => s.(saves := s.saves - {key}, doomed := s.doomed - {key}, leaked := s.leaked + {key})
    case ListQueue(c, keys) => WithCleaner(s, c, Listed(keys))
    case CheckKey(c) =>
      var k, rest := s.cleaners[c].rest[0], s.cleaners[c].rest[1..];
      WithCleaner(s, c, if k in Keys(s.tables) then Listed(rest) else Checked(k, rest))
    case DeleteFile(c, gone, ok) =>
      var k, rest := s.cleaners[c].key, s.cleaners[c].rest;
      WithCleaner(if gone then s.(files := s.files - {k}) else s, c, if ok then Deleted(k, rest) else Listed(rest))
    case Dequeue(c, ok) =>
      if ok then WithCleaner(WithQueue(s, s.tables.queue - {s.cleaners[c].key}), c, Listed(s.cleaners[c].rest))
      else s.(cleaners := s.cleaners - {c})
    case StopCleaner(c) => s.(cleaners := s.cleaners - {c})
  }

  // ---------------------------------------------------------------------------
  // What every step keeps
  // ---------------------------------------------------------------------------

  // Never to be referenced again: drawn, not referenced and in no open transaction.
  ghost predicate Dead(s: State, k: Key) { k in s.used && k !in Keys(s.tables) && k !in s.saves }

  // A cleaner only holds keys that were queued, and what it deletes is dead.
  ghost predicate CleanerOk(s: State, phase: Cleaner) {
    && (forall k :: k in phase.rest ==> k in s.used && k !in s.saves)
    && (!phase.Listed? ==> Dead(s, phase.key))
    && (phase.Deleted? ==> phase.key !in s.files)
  }

  // A file whose transaction is open is there, and nothing else knows its key.
  ghost predicate SaveOk(s: State, key: Key) {
    && key in s.saves && key in s.files && s.files[key] == s.saves[key].blob
    && key !in Keys(s.tables) && key !in s.tables.queue && key !in s.doomed && key !in s.leaked
    && Saving(s.saves[key]) && CopyOk(s, s.saves[key])
  }

  ghost predicate CopyOk(s: State, save: Save) {
    save.request.Publish? ==>
      var copied, f := save.request.copied, save.request.f;
      if copied.Some? then copied.value in s.used && (copied.value in s.files ==> s.files[copied.value] == save.blob)
      else save.blob.mime == PdfFile && save.blob.pages == f.pages
  }

  ghost predicate WasDrawn(s: State) {
    && Keys(s.tables) <= s.used && s.files.Keys <= s.used && s.tables.queue <= s.used
    && s.saves.Keys <= s.used && s.doomed <= s.used && s.leaked <= s.used
  }

  // Every stored file is referenced, queued for deletion, or owed to an unfinished or
  // broken save.
  ghost predicate Conserved(s: State) {
    s.files.Keys <= Keys(s.tables) + s.tables.queue + s.saves.Keys + s.doomed + s.leaked
  }

  ghost predicate Storage(s: State) {
    && Stored(s.tables, s.files) && WasDrawn(s) && Conserved(s)
    && (forall k :: k in s.saves ==> SaveOk(s, k))
    && (forall c :: c in s.cleaners ==> CleanerOk(s, s.cleaners[c]))
    && (forall k :: k in s.doomed ==> k !in s.saves)
  }
}
