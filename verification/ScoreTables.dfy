/**
 The score tables and every transaction that writes them: internal/app/imports.go, and
 CreatePiece and DeletePiece in internal/app/service.go. Foreign keys and cascades are
 those of migrations/000001_binder.up.sql and migrations/000004_score_intake.up.sql.

 A transaction is a function from the tables it finds to the tables it commits, or the
 error it ends with. `Ok` is what every transaction keeps, `Moves` how it may move file
 keys between being referenced and being queued for deletion.
 */
module ScoreTables {
  import opened Wrappers
  import opened Manifests

  const MAX_OPEN_DRAFTS := 20
  const MAX_SOURCE_BYTES := 0xc80_0000
  const DRAFT_LIFETIME := 604800.0

  datatype Piece = Piece(owner: Owner, content: nat, manifest: Option<Manifest>)

  datatype Pdf = Pdf(key: Key, size: nat, checksum: string, pages: nat)

  datatype Draft = Draft(owner: Owner, piece: Option<Id>, base: nat, revision: nat, manifest: Manifest,
                         initial: Manifest, finalized: bool, updated: real)

  // draftSources and pieceSources pair a draft or a piece with an asset.
  datatype Tables = Tables(pieces: map<Id, Piece>, pdfs: map<Id, Pdf>, assets: map<Id, Asset>, drafts: map<Id, Draft>,
                           draftSources: set<(Id, Id)>, pieceSources: set<(Id, Id)>, queue: set<Key>)

  // A stored file, as far as rows describe it.
  datatype Blob = Blob(mime: Mime, size: nat, checksum: string, pages: nat)

  datatype Failure = NotFound | Conflict | PieceChanged | DraftLimit | SizeLimit | TooManyPages | Invalid

  datatype Outcome = Done(tables: Tables) | Unchanged | Failed(failure: Failure)

  // ---------------------------------------------------------------------------
  // What the tables say
  // ---------------------------------------------------------------------------

  function PdfKeys(t: Tables): set<Key> { set p | p in t.pdfs :: t.pdfs[p].key }

  function AssetKeys(t: Tables): set<Key> { set a | a in t.assets :: t.assets[a].key }

  function Keys(t: Tables): set<Key> { PdfKeys(t) + AssetKeys(t) }

  function Seconds(pairs: set<(Id, Id)>): set<Id> { set s | s in pairs :: s.1 }

  function Orphans(t: Tables): set<Id> {
    set a | a in t.assets && a !in Seconds(t.draftSources) && a !in Seconds(t.pieceSources)
  }

  // The sources of a draft, joined with its owner's assets.
  function DraftAssets(t: Tables, draft: Id, owner: Owner): map<Id, Asset> {
    map a | a in t.assets && (draft, a) in t.draftSources && t.assets[a].owner == owner :: t.assets[a]
  }

  function PieceAssets(t: Tables, piece: Id): map<Id, Asset> {
    map a | a in t.assets && (piece, a) in t.pieceSources :: t.assets[a]
  }

  function Pairs(id: Id, sources: set<Id>): set<(Id, Id)> { set a | a in sources :: (id, a) }

  function Without(pairs: set<(Id, Id)>, gone: set<Id>): set<(Id, Id)> { set s | s in pairs && s.0 !in gone }

  predicate Owns(t: Tables, owner: Owner, piece: Id) { piece in t.pieces && t.pieces[piece].owner == owner }

  predicate Live(d: Draft, now: real) { d.updated > now - DRAFT_LIFETIME }

  // The draft can be read: it exists, belongs to the owner and has not expired.
  predicate Readable(t: Tables, owner: Owner, draft: Id, now: real) {
    draft in t.drafts && t.drafts[draft].owner == owner && Live(t.drafts[draft], now)
  }

  function OpenDrafts(t: Tables, owner: Owner, now: real): set<Id> {
    set d | d in t.drafts && t.drafts[d].owner == owner && !t.drafts[d].finalized && Live(t.drafts[d], now)
  }

  // The asset row a saved PDF becomes when its piece is prepared again.
  function SavedAsset(owner: Owner, pdf: Pdf): Asset {
    Asset(owner, pdf.key, PdfFile, pdf.size, pdf.checksum, pdf.pages)
  }

  ghost function AssetWith(t: Tables, k: Key): (a: Id)
    requires k in AssetKeys(t)
    ensures a in t.assets && t.assets[a].key == k
  {
    var a :| a in t.assets && t.assets[a].key == k;
    a
  }

  // The bytes of a draft's sources together.
  ghost function SizeOf(sources: map<Id, Asset>): nat
    decreases |sources|
  {
    if sources == map[] then 0
    else
      var a :| a in sources;
      sources[a].size + SizeOf(sources - {a})
  }

  // ---------------------------------------------------------------------------
  // Parts of transactions
  // ---------------------------------------------------------------------------

  // Deletes the assets no draft or piece names and queues the keys no PDF shares.
  function Collected(t: Tables): Tables {
    var orphans := Orphans(t);
    t.(assets := t.assets - orphans,
       queue := t.queue + ((set a | a in orphans :: t.assets[a].key) - PdfKeys(t)))
  }

  function Queued(t: Tables, k: Key): Tables {
    if k in Keys(t) then t else t.(queue := t.queue + {k})
  }

  // How every transaction that drops references ends.
  function Settled(t: Tables, dropped: Option<Key>): Tables {
    var t := Collected(t);
    if dropped.Some? then Queued(t, dropped.value) else t
  }

  function WithDraft(t: Tables, id: Id, d: Draft, sources: set<Id>): Tables {
    t.(drafts := t.drafts[id := d], draftSources := t.draftSources + Pairs(id, sources))
  }

  function WithoutDrafts(t: Tables, gone: set<Id>): Tables {
    t.(drafts := t.drafts - gone, draftSources := Without(t.draftSources, gone))
  }

  function DraftsOf(t: Tables, piece: Id): set<Id> { set d | d in t.drafts && t.drafts[d].piece == Some(piece) }

  function WithoutPiece(t: Tables, piece: Id): Tables {
    WithoutDrafts(t, DraftsOf(t, piece)).(
      pieces := t.pieces - {piece}, pdfs := t.pdfs - {piece}, pieceSources := Without(t.pieceSources, {piece}))
  }

  function KeyOf(t: Tables, piece: Id): Option<Key> {
    if piece in t.pdfs then Some(t.pdfs[piece].key) else None
  }

  // The rows a finalisation of draft writes for its piece, before orphans are collected.
  function Published(t: Tables, draft: Id, piece: Id, owner: Owner, pdf: Pdf, now: real): Tables
    requires draft in t.drafts
  {
    var d := t.drafts[draft];
    var content := if piece in t.pieces then t.pieces[piece].content else 0;
    t.(pieces := t.pieces[piece := Piece(owner, content + 1, Some(d.manifest))],
       pdfs := t.pdfs[piece := pdf],
       pieceSources := Without(t.pieceSources, {piece}) + Pairs(piece, SourcesIn(d.manifest)),
       drafts := t.drafts[draft := d.(finalized := true, piece := Some(piece), updated := now)],
       draftSources := Without(t.draftSources, {draft}))
  }

  // ---------------------------------------------------------------------------
  // Transactions
  // ---------------------------------------------------------------------------

  function CreatePiece(t: Tables, owner: Owner, id: Id): Outcome {
    Done(t.(pieces := t.pieces[id := Piece(owner, 0, None)]))
  }

  // The identifiers a CreateImport draws, one page identifier for each page it may add.
  datatype Drawn = Drawn(draft: Id, asset: Id, pages: seq<PageId>)

  ghost function CreateImport(t: Tables, owner: Owner, piece: Option<Id>, drawn: Drawn, now: real): Outcome
    requires |drawn.pages| == MAX_PREPARED_PAGES
  {
    if |OpenDrafts(t, owner, now)| >= MAX_OPEN_DRAFTS then Failed(DraftLimit)
    else if piece.None? then
      Done(WithDraft(t, drawn.draft, Draft(owner, None, 0, 0, EmptyManifest, EmptyManifest, false, now), {}))
    else if !Owns(t, owner, piece.value) then Failed(NotFound)
    else
      var p := t.pieces[piece.value];
      var d := Draft(owner, piece, p.content, 0, EmptyManifest, EmptyManifest, false, now);
      if p.manifest.Some? then
        if |p.manifest.value.pages| > MAX_PREPARED_PAGES then Failed(TooManyPages)
        else
          var m := p.manifest.value;
          Done(WithDraft(t, drawn.draft, d.(manifest := m, initial := m), SourcesIn(m)))
      else if piece.value !in t.pdfs then Done(WithDraft(t, drawn.draft, d, {}))
      else
        var pdf := t.pdfs[piece.value];
        if pdf.pages > MAX_PREPARED_PAGES then Failed(TooManyPages)
        else
          var a := SourceFor(t, drawn.asset, pdf);
          var m := Appended(EmptyManifest, a, drawn.pages[..pdf.pages]);
          Done(WithDraft(WithSource(t, owner, drawn.asset, pdf), drawn.draft, d.(manifest := m, initial := m), {a}))
  }

  // The asset that holds a saved PDF: the one with its key, or the fresh one inserted for it.
  ghost function SourceFor(t: Tables, id: Id, pdf: Pdf): Id {
    if pdf.key in AssetKeys(t) then AssetWith(t, pdf.key) else id
  }

  function WithSource(t: Tables, owner: Owner, id: Id, pdf: Pdf): Tables {
    if pdf.key in AssetKeys(t) then t else t.(assets := t.assets[id := SavedAsset(owner, pdf)])
  }

  // A draft that may be edited at this revision, or why not.
  function Edits(t: Tables, owner: Owner, draft: Id, revision: nat, now: real): Option<Failure> {
    if !Readable(t, owner, draft, now) then Some(NotFound)
    else if t.drafts[draft].finalized || t.drafts[draft].revision != revision then Some(Conflict)
    else None
  }

  function Edited(d: Draft, m: Manifest, now: real): Draft {
    d.(manifest := m, revision := d.revision + 1, updated := now)
  }

  // checks is what the checks on metadata say.
  function UpdateImport(t: Tables, owner: Owner, draft: Id, revision: nat, m: Manifest, checks: Option<Failure>, now: real):
    Outcome
  {
    var refusal := Edits(t, owner, draft, revision, now);
    if refusal.Some? then Failed(refusal.value)
    else if !ValidManifest(m, DraftAssets(t, draft, owner), true) then Failed(Invalid)
    else if checks.Some? then Failed(checks.value)
    else Done(t.(drafts := t.drafts[draft := Edited(t.drafts[draft], m, now)]))
  }

  // An upload waiting to be attached: its file is saved under key. pages holds the fresh
  // page identifiers it may use.
  datatype Attachment = Attachment(owner: Owner, draft: Id, revision: nat, asset: Id, pages: seq<PageId>)

  function AssetFor(owner: Owner, key: Key, blob: Blob): Asset {
    Asset(owner, key, blob.mime, blob.size, blob.checksum, blob.pages)
  }

  // How many of a source's pages fit in a manifest.
  function Added(m: Manifest, pages: nat): (n: nat)
    ensures n <= MAX_PREPARED_PAGES
  {
    var room := if |m.pages| < MAX_PREPARED_PAGES then MAX_PREPARED_PAGES - |m.pages| else 0;
    if pages < room then pages else room
  }

  ghost function AttachSource(t: Tables, a: Attachment, key: Key, blob: Blob, now: real): Outcome
    requires |a.pages| == MAX_PREPARED_PAGES
  {
    var refusal := Edits(t, a.owner, a.draft, a.revision, now);
    if refusal.Some? then Failed(refusal.value)
    else if SizeOf(DraftAssets(t, a.draft, a.owner)) + blob.size > MAX_SOURCE_BYTES then Failed(SizeLimit)
    else
      var d := t.drafts[a.draft];
      var m := Appended(d.manifest, a.asset, a.pages[..Added(d.manifest, blob.pages)]);
      Done(WithDraft(t.(assets := t.assets[a.asset := AssetFor(a.owner, key, blob)]), a.draft, Edited(d, m, now), {a.asset}))
  }

  // A finalisation: the uploaded PDF has `pages` pages; checks and merge are what the
  // checks on metadata and upload, and the metadata merge with the current piece, say.
  datatype Finish = Finish(owner: Owner, draft: Id, revision: nat, pages: nat, piece: Id, checks: Option<Failure>,
                           merge: Option<Failure>)

  // The piece a finalisation writes, once its draft may be finalised.
  function Target(t: Tables, f: Finish): Id
    requires f.draft in t.drafts
  {
    if t.drafts[f.draft].piece.Some? then t.drafts[f.draft].piece.value else f.piece
  }

  // An unchanged preparation of an unchanged page count keeps the saved PDF's bytes.
  predicate KeepsOriginal(t: Tables, f: Finish)
    requires f.draft in t.drafts
  {
    var d := t.drafts[f.draft];
    d.piece.Some? && d.piece.value in t.pdfs && t.pdfs[d.piece.value].pages == f.pages && d.manifest == d.initial
  }

  function FinishRefusal(t: Tables, f: Finish, now: real): Option<Failure>
    requires Readable(t, f.owner, f.draft, now)
  {
    var d := t.drafts[f.draft];
    if !ValidManifest(d.manifest, DraftAssets(t, f.draft, f.owner), false) then Some(Invalid)
    else if f.checks.Some? then f.checks
    else if f.pages != |d.manifest.pages| then Some(Invalid)
    else if d.piece.None? then None
    else if !Owns(t, f.owner, d.piece.value) then Some(NotFound)
    else if t.pieces[d.piece.value].content != d.base then Some(PieceChanged)
    else f.merge
  }

  function FinalizeImport(t: Tables, f: Finish, key: Key, blob: Blob, now: real): Outcome {
    if !Readable(t, f.owner, f.draft, now) then Failed(NotFound)
    else
      var d := t.drafts[f.draft];
      if d.revision != f.revision then Failed(Conflict)
      else if d.finalized && d.piece.Some? then
        if Owns(t, f.owner, d.piece.value) then Unchanged else Failed(NotFound)
      else
        var refusal := FinishRefusal(t, f, now);
        if refusal.Some? then Failed(refusal.value)
        else
          var piece := Target(t, f);
          var pdf := Pdf(key, blob.size, blob.checksum, f.pages);
          Done(Settled(Published(t, f.draft, piece, f.owner, pdf, now), KeyOf(t, piece)))
  }

  function DeleteImport(t: Tables, owner: Owner, draft: Id): Outcome {
    if draft !in t.drafts || t.drafts[draft].owner != owner then Failed(NotFound)
    else if t.drafts[draft].finalized then Failed(Conflict)
    else Done(Settled(WithoutDrafts(t, {draft}), None))
  }

  function DeletePiece(t: Tables, owner: Owner, piece: Id): Outcome {
    if !Owns(t, owner, piece) then Failed(NotFound)
    else Done(Settled(WithoutPiece(t, piece), KeyOf(t, piece)))
  }

  function Expired(t: Tables, now: real): set<Id> {
    set d | d in t.drafts && t.drafts[d].updated < now - DRAFT_LIFETIME
  }

  function ExpireDrafts(t: Tables, now: real): Outcome { Done(Settled(WithoutDrafts(t, Expired(t, now)), None)) }

  // ---------------------------------------------------------------------------
  // What every transaction keeps
  // ---------------------------------------------------------------------------

  ghost predicate DraftLinked(t: Tables, d: Draft) {
    && (d.piece.Some? ==> Owns(t, d.owner, d.piece.value))
    && (d.finalized ==> d.piece.Some?)
  }

  ghost predicate DraftSourceLinked(t: Tables, s: (Id, Id)) {
    && s.0 in t.drafts && !t.drafts[s.0].finalized && s.1 in t.assets && t.assets[s.1].owner == t.drafts[s.0].owner
  }

  ghost predicate PieceSourceLinked(t: Tables, s: (Id, Id)) {
    s.0 in t.pieces && s.1 in t.assets && t.assets[s.1].owner == t.pieces[s.0].owner
  }

  // References lead to rows of the same owner.
  ghost predicate Linked(t: Tables) {
    && (forall p :: p in t.pdfs ==> p in t.pieces)
    && (forall d :: d in t.drafts ==> DraftLinked(t, t.drafts[d]))
    && (forall s :: s in t.draftSources ==> DraftSourceLinked(t, s))
    && (forall s :: s in t.pieceSources ==> PieceSourceLinked(t, s))
  }

  // Storage keys are unique in each table, and an asset that shares a PDF's key is its row.
  ghost predicate KeysApart(t: Tables) {
    && (forall p, q :: p in t.pdfs && q in t.pdfs && t.pdfs[p].key == t.pdfs[q].key ==> p == q)
    && (forall a, b :: a in t.assets && b in t.assets && t.assets[a].key == t.assets[b].key ==> a == b)
    && (forall p, a :: p in t.pdfs && p in t.pieces && a in t.assets && t.pdfs[p].key == t.assets[a].key ==>
                         t.assets[a] == SavedAsset(t.pieces[p].owner, t.pdfs[p]))
  }

  // An open draft's manifest passes validation against the draft's own sources.
  ghost predicate DraftOk(t: Tables, id: Id, d: Draft) {
    !d.finalized ==> ValidManifest(d.manifest, DraftAssets(t, id, d.owner), true)
  }

  // A prepared piece keeps exactly its manifest's sources, and its PDF has the manifest's
  // page count. A piece that was never prepared has no sources.
  ghost predicate PieceOk(t: Tables, id: Id, p: Piece) {
    && (p.manifest.None? ==> forall a :: (id, a) !in t.pieceSources)
    && (p.manifest.Some? ==>
          && id in t.pdfs && t.pdfs[id].pages == |p.manifest.value.pages|
          && ValidManifest(p.manifest.value, PieceAssets(t, id), false)
          && forall a :: (id, a) in t.pieceSources <==> a in SourcesIn(p.manifest.value))
  }

  ghost predicate Closed(t: Tables) {
    && (forall d :: d in t.drafts ==> DraftOk(t, d, t.drafts[d]))
    && (forall p :: p in t.pieces ==> PieceOk(t, p, t.pieces[p]))
  }

  ghost predicate Sound(t: Tables) { Linked(t) && KeysApart(t) && Closed(t) }

  ghost predicate Ok(t: Tables) { Sound(t) && Orphans(t) == {} }

  // Rows describe the files they name.
  ghost predicate Stored(t: Tables, files: map<Key, Blob>) {
    && (forall p :: p in t.pdfs ==> PdfStored(t.pdfs[p], files))
    && (forall a :: a in t.assets ==> AssetStored(t.assets[a], files))
  }

  ghost predicate PdfStored(pdf: Pdf, files: map<Key, Blob>) {
    pdf.key in files && files[pdf.key] == Blob(PdfFile, pdf.size, pdf.checksum, pdf.pages)
  }

  ghost predicate AssetStored(a: Asset, files: map<Key, Blob>) {
    a.key in files && files[a.key] == Blob(a.mime, a.size, a.checksum, a.pages)
  }

  // A key comes to be referenced only through a reference or as a new file; a key that
  // loses its last reference is queued; nothing else is queued.
  ghost predicate Moves(t: Tables, u: Tables, added: set<Key>) {
    && Keys(u) <= Keys(t) + added
    && Keys(t) <= Keys(u) + u.queue
    && t.queue <= u.queue <= t.queue + (Keys(t) - Keys(u))
  }

  // ---------------------------------------------------------------------------
  // Collecting orphans
  // ---------------------------------------------------------------------------

  lemma CollectedIsSound(t: Tables)
    requires Sound(t)
    ensures Ok(Collected(t))
  {
    CollectedIsLinked(t);
    CollectedIsClosed(t);
    assert Orphans(Collected(t)) == {};
  }

  lemma CollectedIsLinked(t: Tables)
    requires Linked(t)
    ensures Linked(Collected(t))
  {
  }

  lemma CollectedIsClosed(t: Tables)
    requires Closed(t)
    ensures Closed(Collected(t))
  {
    var u := Collected(t);
    forall d | d in u.drafts
      ensures DraftOk(u, d, u.drafts[d])
    {
      assert DraftOk(t, d, t.drafts[d]);
      CollectedKeepsDraftAssets(t, d, t.drafts[d].owner);
    }
    forall p | p in u.pieces
      ensures PieceOk(u, p, u.pieces[p])
    {
      assert PieceOk(t, p, t.pieces[p]);
      CollectedKeepsPieceAssets(t, p);
    }
  }

  lemma CollectedKeepsDraftAssets(t: Tables, d: Id, owner: Owner)
    ensures DraftAssets(Collected(t), d, owner) == DraftAssets(t, d, owner)
  {
  }

  lemma CollectedKeepsPieceAssets(t: Tables, p: Id)
    ensures PieceAssets(Collected(t), p) == PieceAssets(t, p)
  {
  }

  lemma SettledIsOk(t: Tables, dropped: Option<Key>, files: map<Key, Blob>)
    requires Sound(t) && Stored(t, files)
    ensures Ok(Settled(t, dropped)) && Stored(Settled(t, dropped), files)
  {
    CollectedIsSound(t);
    if dropped.Some? {
      QueuedIsOk(Collected(t), dropped.value);
    }
  }

  lemma QueuedIsOk(t: Tables, k: Key)
    requires Ok(t)
    ensures Ok(Queued(t, k))
  {
    SameRowsOk(t, Queued(t, k));
  }

  // Ok does not depend on the queue.
  lemma SameRowsOk(t: Tables, u: Tables)
    requires Ok(t) && u == t.(queue := u.queue)
    ensures Ok(u)
  {
    assert forall d, owner :: DraftAssets(u, d, owner) == DraftAssets(t, d, owner);
    assert forall p :: PieceAssets(u, p) == PieceAssets(t, p);
    forall d | d in u.drafts
      ensures DraftLinked(u, u.drafts[d]) && DraftOk(u, d, u.drafts[d])
    {
      assert DraftLinked(t, t.drafts[d]) && DraftOk(t, d, t.drafts[d]);
    }
    forall p | p in u.pieces
      ensures PieceOk(u, p, u.pieces[p])
    {
      assert PieceOk(t, p, t.pieces[p]);
    }
    forall s | s in u.draftSources
      ensures DraftSourceLinked(u, s)
    {
      assert DraftSourceLinked(t, s);
    }
    forall s | s in u.pieceSources
      ensures PieceSourceLinked(u, s)
    {
      assert PieceSourceLinked(t, s);
    }
  }

  lemma CollectedMoves(t: Tables)
    requires KeysApart(t)
    ensures Moves(t, Collected(t), {}) && PdfKeys(Collected(t)) == PdfKeys(t)
  {
    var u := Collected(t);
    assert u.pdfs == t.pdfs;
    forall k | k in Keys(t)
      ensures k in Keys(u) + u.queue
    {
      if k !in PdfKeys(t) {
        var a :| a in t.assets && t.assets[a].key == k;
        assert a in u.assets || a in Orphans(t);
      }
    }
    forall k | k in u.queue && k !in t.queue
      ensures k in Keys(t) && k !in Keys(u)
    {
      var a :| a in Orphans(t) && t.assets[a].key == k;
    }
  }

  // Dropping references and then settling: `dropped` is the one PDF key that may have
  // lost its row.
  lemma SettledMoves(t: Tables, u: Tables, dropped: Option<Key>, added: set<Key>)
    requires KeysApart(u) && u.queue == t.queue && Keys(u) <= Keys(t) + added && added <= PdfKeys(u)
    requires forall k :: k in Keys(t) && k !in Keys(u) ==> dropped == Some(k)
    requires dropped.Some? ==> dropped.value in Keys(t)
    ensures Moves(t, Settled(u, dropped), added)
  {
    CollectedMoves(u);
    var v, w := Collected(u), Settled(u, dropped);
    assert Keys(w) == Keys(v);
    forall k | k in w.queue && k !in t.queue
      ensures k in Keys(t) && k !in Keys(w)
    {
      if k !in v.queue {
        assert dropped == Some(k);
      }
    }
  }
}
