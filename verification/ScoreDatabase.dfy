/**
 The transactions of internal/app/imports.go and internal/app/service.go written as the
 program runs them: statement by statement on rows staged in `tx`, with its loops and early
 returns, and published by one commit. Each is proved to do what its function in
 ScoreTables says, whether or not the commit takes effect.
 */
module ScoreDatabases {
  import opened Wrappers
  import opened Manifests
  import opened ScoreTables

  // What a caller is told: nothing changed, an error, or that the commit was asked for.
  datatype Answer = Asked | Kept | Refused(failure: Failure)

  function AnswerTo(o: Outcome): Answer {
    match o
    case Done(_) => Asked
    case Unchanged => Kept
    case Failed(failure) => Refused(failure)
  }

  // The tables after a transaction whose commit takes effect or not.
  function Committed(t: Tables, o: Outcome, commit: bool): Tables {
    if o.Done? && commit then o.tables else t
  }

  ghost predicate DistinctKeys(t: Tables) {
    forall a, b :: a in t.assets && b in t.assets && t.assets[a].key == t.assets[b].key ==> a == b
  }

  predicate DistinctIds(sources: seq<(Id, Asset)>) {
    forall i, j :: 0 <= i < j < |sources| ==> sources[i].0 != sources[j].0
  }

  // ---------------------------------------------------------------------------
  // Sources
  // ---------------------------------------------------------------------------

  lemma {:induction false} ByIdOneMore(sources: seq<(Id, Asset)>, last: (Id, Asset))
    ensures ById(sources + [last]) == ById(sources)[last.0 := last.1]
  {
  }

  lemma {:induction false} ByIdHas(sources: seq<(Id, Asset)>, id: Id)
    ensures id in ById(sources) <==> exists i :: 0 <= i < |sources| && sources[i].0 == id
    decreases |sources|
  {
    if sources != [] {
      ByIdHas(sources[..|sources| - 1], id);
    }
  }

  // The bytes of all sources are those of any one and of the others.
  lemma {:induction false} SizeOfRemoved(m: map<Id, Asset>, a: Id)
    requires a in m
    ensures SizeOf(m) == m[a].size + SizeOf(m - {a})
    decreases |m|
  {
    var b :| b in m && SizeOf(m) == m[b].size + SizeOf(m - {b});
    if a != b {
      SizeOfRemoved(m - {b}, a);
      assert |m - {a}| < |m| by {
        assert (m - {a}).Keys == m.Keys - {a};
      }
      SizeOfRemoved(m - {a}, b);
      assert m - {b} - {a} == m - {a} - {b};
    }
  }

  lemma SizeOfOneMore(m: map<Id, Asset>, a: Id, asset: Asset)
    requires a !in m
    ensures SizeOf(m[a := asset]) == SizeOf(m) + asset.size
  {
    SizeOfRemoved(m[a := asset], a);
    assert m[a := asset] - {a} == m;
  }

  lemma NoRowsRead(joined: map<Id, Asset>)
    ensures ById([]) == joined - joined.Keys && DistinctIds([])
  {
  }

  // One row more is read of those a query joined.
  lemma {:induction false} RowMoves(sources: seq<(Id, Asset)>, joined: map<Id, Asset>, rows: set<Id>, a: Id)
    requires DistinctIds(sources) && rows <= joined.Keys && ById(sources) == joined - rows && a in rows
    requires forall i :: 0 <= i < |sources| ==> sources[i].0 !in rows
    ensures var more := sources + [(a, joined[a])];
            && DistinctIds(more) && ById(more) == joined - (rows - {a})
            && forall i :: 0 <= i < |more| ==> more[i].0 !in rows - {a}
  {
    ByIdOneMore(sources, (a, joined[a]));
    assert (joined - rows)[a := joined[a]] == joined - (rows - {a});
  }

  class ScoreDatabase {
    var tables: Tables

    constructor (tables: Tables)
      ensures this.tables == tables
    {
      this.tables := tables;
    }

    // Reads an owned, unexpired draft and its sources.
    static method DraftTx(tx: Tables, owner: Owner, id: Id, now: real)
      returns (d: Option<Draft>, sources: seq<(Id, Asset)>)
      ensures d == if Readable(tx, owner, id, now) then Some(tx.drafts[id]) else None
      ensures d.Some? ==> ById(sources) == DraftAssets(tx, id, owner) && DistinctIds(sources)
    {
      sources := [];
      if id !in tx.drafts || tx.drafts[id].owner != owner || !Live(tx.drafts[id], now) {
        return None, sources;
      }
      hide ById, DistinctIds, DraftAssets;
      var joined := DraftAssets(tx, id, owner);
      var rows := joined.Keys;
      NoRowsRead(joined);
      while rows != {}
        invariant rows <= joined.Keys && DistinctIds(sources)
        invariant forall i :: 0 <= i < |sources| ==> sources[i].0 !in rows
        invariant ById(sources) == joined - rows
        decreases |rows|
      {
        var a :| a in rows;
        RowMoves(sources, joined, rows, a);
        sources := sources + [(a, joined[a])];
        rows := rows - {a};
      }
      assert joined - rows == joined;
      return Some(tx.drafts[id]), sources;
    }

    static method SourceBytes(sources: seq<(Id, Asset)>) returns (total: nat)
      requires DistinctIds(sources)
      ensures total == SizeOf(ById(sources))
    {
      total := 0;
      for i := 0 to |sources|
        invariant total == SizeOf(ById(sources[..i]))
      {
        ByIdHas(sources[..i], sources[i].0);
        SizeOfOneMore(ById(sources[..i]), sources[i].0, sources[i].1);
        assert sources[..i + 1] == sources[..i] + [sources[i]];
        ByIdOneMore(sources[..i], sources[i]);
        total := total + sources[i].1.size;
      }
      assert sources[..|sources|] == sources;
    }

    // Appends plain pages of source id while the manifest has room.
    static method AppendPages(m: Manifest, id: Id, pages: nat, ids: seq<PageId>) returns (r: Manifest)
      requires |ids| == MAX_PREPARED_PAGES
      ensures r == Appended(m, id, ids[..Added(m, pages)])
    {
      r := m;
      var n := 0;
      while n < pages && |r.pages| < MAX_PREPARED_PAGES
        invariant n <= Added(m, pages)
        invariant r == Appended(m, id, ids[..n])
      {
        r := r.(pages := r.pages + [PlainPage(ids[n], id, n)]);
        assert PagesOf(id, ids[..n + 1]) == PagesOf(id, ids[..n]) + [PlainPage(ids[n], id, n)];
        n := n + 1;
      }
    }

    static method InsertDraftSources(tx: Tables, draft: Id, sources: seq<Id>) returns (r: Tables)
      ensures r == tx.(draftSources := tx.draftSources + Pairs(draft, set i | 0 <= i < |sources| :: sources[i]))
    {
      r := tx;
      for i := 0 to |sources|
        invariant r == tx.(draftSources := r.draftSources)
        invariant r.draftSources == tx.draftSources + Pairs(draft, set k | 0 <= k < i :: sources[k])
      {
        r := r.(draftSources := r.draftSources + {(draft, sources[i])});
      }
    }

    method CreateImport(owner: Owner, piece: Option<Id>, drawn: Drawn, now: real, commit: bool) returns (answer: Answer)
      requires |drawn.pages| == MAX_PREPARED_PAGES && DistinctKeys(tables)
      modifies this
      ensures var o := ScoreTables.CreateImport(old(tables), owner, piece, drawn, now);
              answer == AnswerTo(o) && tables == Committed(old(tables), o, commit)
    {
      var tx := tables;
      if |OpenDrafts(tx, owner, now)| >= MAX_OPEN_DRAFTS {
        return Refused(DraftLimit);
      }
      var d := Draft(owner, None, 0, 0, EmptyManifest, EmptyManifest, false, now);
      var sources: seq<Id> := [];
      if piece.Some? {
        d := d.(piece := piece);
        if piece.value !in tx.pieces || tx.pieces[piece.value].owner != owner {
          return Refused(NotFound);
        }
        var saved := tx.pieces[piece.value];
        d := d.(base := saved.content);
        if saved.manifest.Some? {
          d := d.(manifest := saved.manifest.value);
          if |d.manifest.pages| > MAX_PREPARED_PAGES {
            return Refused(TooManyPages);
          }
          for i := 0 to |d.manifest.pages|
            invariant |sources| == i && forall k :: 0 <= k < i ==> sources[k] == d.manifest.pages[k].source
          {
            sources := sources + [d.manifest.pages[i].source];
          }
          assert (set i | 0 <= i < |sources| :: sources[i]) == SourcesIn(d.manifest);
        } else if piece.value in tx.pdfs {
          var pdf := tx.pdfs[piece.value];
          if pdf.pages > MAX_PREPARED_PAGES {
            return Refused(TooManyPages);
          }
          // The insert returns the row that already holds the key, if one does.
          var a := drawn.asset;
          if pdf.key in AssetKeys(tx) {
            a :| a in tx.assets && tx.assets[a].key == pdf.key;
          } else {
            tx := tx.(assets := tx.assets[a := SavedAsset(owner, pdf)]);
          }
          sources := sources + [a];
          assert sources == [a];
          assert (set i | 0 <= i < |sources| :: sources[i]) == {a} by {
            assert sources[0] == a;
          }
          var m := AppendPages(d.manifest, a, pdf.pages, drawn.pages);
          d := d.(manifest := m);
        }
      }
      d := d.(initial := d.manifest);
      tx := tx.(drafts := tx.drafts[drawn.draft := d]);
      tx := InsertDraftSources(tx, drawn.draft, sources);
      if commit {
        tables := tx;
      }
      return Asked;
    }

    method UpdateImport(owner: Owner, draft: Id, revision: nat, m: Manifest, checks: Option<Failure>, now: real, commit: bool)
      returns (answer: Answer)
      modifies this
      ensures var o := ScoreTables.UpdateImport(old(tables), owner, draft, revision, m, checks, now);
              answer == AnswerTo(o) && tables == Committed(old(tables), o, commit)
    {
      var tx := tables;
      var d, sources := DraftTx(tx, owner, draft, now);
      if d.None? {
        return Refused(NotFound);
      }
      if d.value.finalized || d.value.revision != revision {
        return Refused(Conflict);
      }
      var valid := ValidateManifest(m, sources, true);
      if !valid {
        return Refused(Invalid);
      }
      if checks.Some? {
        return Refused(checks.value);
      }
      tx := tx.(drafts := tx.drafts[draft := d.value.(manifest := m, revision := d.value.revision + 1, updated := now)]);
      if commit {
        tables := tx;
      }
      return Asked;
    }

    // The upload is already saved under key when its rows are written.
    method AttachSource(a: Attachment, key: Key, blob: Blob, now: real, commit: bool) returns (answer: Answer)
      requires |a.pages| == MAX_PREPARED_PAGES
      modifies this
      ensures var o := ScoreTables.AttachSource(old(tables), a, key, blob, now);
              answer == AnswerTo(o) && tables == Committed(old(tables), o, commit)
    {
      var tx := tables;
      var d, sources := DraftTx(tx, a.owner, a.draft, now);
      if d.None? {
        return Refused(NotFound);
      }
      if d.value.finalized || d.value.revision != a.revision {
        return Refused(Conflict);
      }
      var total := SourceBytes(sources);
      if total + blob.size > MAX_SOURCE_BYTES {
        return Refused(SizeLimit);
      }
      tx := tx.(assets := tx.assets[a.asset := Asset(a.owner, key, blob.mime, blob.size, blob.checksum, blob.pages)]);
      tx := tx.(draftSources := tx.draftSources + {(a.draft, a.asset)});
      var m := AppendPages(d.value.manifest, a.asset, blob.pages, a.pages);
      tx := tx.(drafts := tx.drafts[a.draft := d.value.(manifest := m, revision := d.value.revision + 1, updated := now)]);
      assert Pairs(a.draft, {a.asset}) == {(a.draft, a.asset)};
      if commit {
        tables := tx;
      }
      return Asked;
    }

    // The rows of a finalisation whose checks have passed.
    static method PublishRows(tx: Tables, draft: Id, piece: Id, owner: Owner, pdf: Pdf, now: real) returns (r: Tables)
      requires draft in tx.drafts && (tx.drafts[draft].piece.Some? ==> Owns(tx, owner, piece))
      requires tx.drafts[draft].piece.None? ==> piece !in tx.pieces
      ensures r == Published(tx, draft, piece, owner, pdf, now)
    {
      r := tx;
      var d := tx.drafts[draft];
      if d.piece.None? {
        r := r.(pieces := r.pieces[piece := Piece(owner, 0, None)]);
      }
      var p := r.pieces[piece];
      r := r.(pieces := r.pieces[piece := p.(manifest := Some(d.manifest), content := p.content + 1)]);
      r := r.(pdfs := r.pdfs[piece := pdf]);
      r := r.(pieceSources := Without(r.pieceSources, {piece}));
      for i := 0 to |d.manifest.pages|
        invariant r == tx.(pieces := r.pieces, pdfs := r.pdfs, pieceSources := r.pieceSources)
        invariant r.pieces == tx.pieces[piece := Piece(owner, p.content + 1, Some(d.manifest))]
        invariant r.pdfs == tx.pdfs[piece := pdf]
        invariant r.pieceSources
                  == Without(tx.pieceSources, {piece}) + Pairs(piece, set k | 0 <= k < i :: d.manifest.pages[k].source)
      {
        r := r.(pieceSources := r.pieceSources + {(piece, d.manifest.pages[i].source)});
      }
      r := r.(drafts := r.drafts[draft := d.(finalized := true, piece := Some(piece), updated := now)]);
      r := r.(draftSources := Without(r.draftSources, {draft}));
    }

    // The PDF to publish is already saved under key when its rows are written.
    method FinalizeImport(f: Finish, key: Key, blob: Blob, now: real, commit: bool) returns (answer: Answer)
      requires f.piece !in tables.pieces
      modifies this
      ensures var o := ScoreTables.FinalizeImport(old(tables), f, key, blob, now);
              answer == AnswerTo(o) && tables == Committed(old(tables), o, commit)
    {
      var tx := tables;
      var d, sources := DraftTx(tx, f.owner, f.draft, now);
      if d.None? {
        return Refused(NotFound);
      }
      if d.value.revision != f.revision {
        return Refused(Conflict);
      }
      if d.value.finalized && d.value.piece.Some? {
        return if Owns(tx, f.owner, d.value.piece.value) then Kept else Refused(NotFound);
      }
      var valid := ValidateManifest(d.value.manifest, sources, false);
      if !valid {
        return Refused(Invalid);
      }
      if f.checks.Some? {
        return Refused(f.checks.value);
      }
      if f.pages != |d.value.manifest.pages| {
        return Refused(Invalid);
      }
      var piece := f.piece;
      var previous := None;
      if d.value.piece.Some? {
        piece := d.value.piece.value;
        if !Owns(tx, f.owner, piece) {
          return Refused(NotFound);
        }
        if tx.pieces[piece].content != d.value.base {
          return Refused(PieceChanged);
        }
        if f.merge.Some? {
          return Refused(f.merge.value);
        }
      }
      if piece in tx.pdfs {
        previous := Some(tx.pdfs[piece].key);
      }
      tx := PublishRows(tx, f.draft, piece, f.owner, Pdf(key, blob.size, blob.checksum, f.pages), now);
      tx := Collected(tx);
      if previous.Some? {
        tx := Queued(tx, previous.value);
      }
      if commit {
        tables := tx;
      }
      return Asked;
    }

    method DeleteImport(owner: Owner, draft: Id, commit: bool) returns (answer: Answer)
      modifies this
      ensures var o := ScoreTables.DeleteImport(old(tables), owner, draft);
              answer == AnswerTo(o) && tables == Committed(old(tables), o, commit)
    {
      var tx := tables;
      if draft !in tx.drafts || tx.drafts[draft].owner != owner {
        return Refused(NotFound);
      }
      if tx.drafts[draft].finalized {
        return Refused(Conflict);
      }
      tx := WithoutDrafts(tx, {draft});
      tx := Collected(tx);
      if commit {
        tables := tx;
      }
      return Asked;
    }

    method DeletePiece(owner: Owner, piece: Id, commit: bool) returns (answer: Answer)
      modifies this
      ensures var o := ScoreTables.DeletePiece(old(tables), owner, piece);
              answer == AnswerTo(o) && tables == Committed(old(tables), o, commit)
    {
      var tx := tables;
      if !Owns(tx, owner, piece) {
        return Refused(NotFound);
      }
      var key := if piece in tx.pdfs then Some(tx.pdfs[piece].key) else None;
      tx := WithoutPiece(tx, piece);
      tx := Collected(tx);
      if key.Some? {
        tx := Queued(tx, key.value);
      }
      if commit {
        tables := tx;
      }
      return Asked;
    }

    // One cleanup pass with nothing in between, over the files of the asset store. deletes
    // says which deletions the store reports as done; a failed one leaves the file.
    method CleanupImports(now: real, listed: seq<Key>, files: set<Key>, deletes: Key -> bool) returns (left: set<Key>)
      requires |listed| <= 100
      requires forall k :: k in listed ==> k in ScoreTables.ExpireDrafts(tables, now).tables.queue
      modifies this
      ensures var t := ScoreTables.ExpireDrafts(old(tables), now).tables;
              var gone := set k | k in listed && k !in Keys(t) && deletes(k);
              tables == t.(queue := t.queue - gone) && left == files - gone
    {
      tables := Collected(WithoutDrafts(tables, Expired(tables, now)));
      left := files;
      ghost var t := tables;
      for i := 0 to |listed|
        invariant tables == t.(queue := tables.queue)
        invariant tables.queue == t.queue - set k | k in listed[..i] && k !in Keys(t) && deletes(k)
        invariant left == files - set k | k in listed[..i] && k !in Keys(t) && deletes(k)
      {
        var k := listed[i];
        assert listed[..i + 1] == listed[..i] + [k];
        assert Keys(tables) == Keys(t);
        if k in Keys(tables) {
          continue;
        }
        if !deletes(k) {
          continue;
        }
        left := left - {k};
        tables := tables.(queue := tables.queue - {k});
      }
      assert listed[..|listed|] == listed;
    }
  }
}
