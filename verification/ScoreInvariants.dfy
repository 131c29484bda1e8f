/**
 Every transaction on the score tables keeps them sound, closed and free of orphans, moves
 file keys as `Moves` says, and leaves every row describing its file.
 */
module ScoreInvariants {
  import opened Wrappers
  import opened Manifests
  import opened ScoreTables

  // What a transaction guarantees: `added` are the keys of the files it publishes.
  ghost predicate Keeps(t: Tables, u: Tables, files: map<Key, Blob>, added: set<Key>) {
    Ok(u) && Stored(u, files) && Moves(t, u, added)
  }

  // ---------------------------------------------------------------------------
  // Writing one draft
  // ---------------------------------------------------------------------------

  lemma WithDraftIsSound(t: Tables, id: Id, d: Draft, sources: set<Id>)
    requires Sound(t) && (id in t.drafts ==> t.drafts[id].owner == d.owner)
    requires !d.finalized && DraftLinked(t, d)
    requires forall a :: a in sources ==> a in t.assets && t.assets[a].owner == d.owner
    requires ValidManifest(d.manifest, DraftAssets(WithDraft(t, id, d, sources), id, d.owner), true)
    ensures Sound(WithDraft(t, id, d, sources))
  {
    var u := WithDraft(t, id, d, sources);
    forall s | s in u.draftSources
      ensures DraftSourceLinked(u, s)
    {
      if s in t.draftSources {
        assert DraftSourceLinked(t, s);
      }
    }
    forall s | s in u.pieceSources
      ensures PieceSourceLinked(u, s)
    {
      assert PieceSourceLinked(t, s);
    }
    forall e | e in u.drafts
      ensures DraftLinked(u, u.drafts[e]) && DraftOk(u, e, u.drafts[e])
    {
      if e != id {
        assert DraftLinked(t, t.drafts[e]) && DraftOk(t, e, t.drafts[e]);
        OtherDraftAssets(t, u, e, t.drafts[e].owner);
      }
    }
    forall p | p in u.pieces
      ensures PieceOk(u, p, u.pieces[p])
    {
      assert PieceOk(t, p, t.pieces[p]) && PieceAssets(u, p) == PieceAssets(t, p);
    }
  }

  // A draft whose rows in draftSources are the same has the same sources.
  lemma OtherDraftAssets(t: Tables, u: Tables, d: Id, owner: Owner)
    requires u.assets == t.assets && forall a :: (d, a) in u.draftSources <==> (d, a) in t.draftSources
    ensures DraftAssets(u, d, owner) == DraftAssets(t, d, owner)
  {
  }

  lemma WithDraftKeepsSources(t: Tables, id: Id, d: Draft, sources: set<Id>, a: Id)
    requires a in Seconds(t.draftSources) || a in sources
    ensures a in Seconds(WithDraft(t, id, d, sources).draftSources)
  {
    var u := WithDraft(t, id, d, sources);
    if a in sources {
      assert (id, a) in u.draftSources;
      assert (id, a).1 in Seconds(u.draftSources);
    } else {
      var s :| s in t.draftSources && s.1 == a;
      assert s in u.draftSources;
    }
  }

  // A draft row written over Ok tables, with the sources its manifest names.
  lemma WithDraftKeeps(t: Tables, id: Id, d: Draft, sources: set<Id>, files: map<Key, Blob>)
    requires Ok(t) && Stored(t, files) && Sound(WithDraft(t, id, d, sources))
    ensures Keeps(t, WithDraft(t, id, d, sources), files, {})
  {
    var u := WithDraft(t, id, d, sources);
    WithDraftOrphansNothing(t, id, d, sources);
    assert u.pdfs == t.pdfs && u.assets == t.assets;
    assert Keys(u) == Keys(t);
  }

  lemma WithDraftOrphansNothing(t: Tables, id: Id, d: Draft, sources: set<Id>)
    requires Orphans(t) == {}
    ensures Orphans(WithDraft(t, id, d, sources)) == {}
  {
    var u := WithDraft(t, id, d, sources);
    forall a | a in u.assets
      ensures a !in Orphans(u)
    {
      assert a !in Orphans(t);
      if a in Seconds(t.draftSources) {
        WithDraftKeepsSources(t, id, d, sources, a);
      }
    }
  }

  // ---------------------------------------------------------------------------
  // Adding an asset
  // ---------------------------------------------------------------------------

  lemma AddedAssetIsSound(t: Tables, id: Id, a: Asset)
    requires Sound(t) && id !in t.assets && a.key !in AssetKeys(t)
    requires forall p :: p in t.pdfs && t.pdfs[p].key == a.key ==> Owns(t, a.owner, p) && a == SavedAsset(a.owner, t.pdfs[p])
    ensures Sound(t.(assets := t.assets[id := a]))
  {
    assert forall b :: b in t.assets ==> t.assets[b].key in AssetKeys(t);
    AddedAssetIsLinked(t, id, a);
    AddedAssetIsClosed(t, id, a);
  }

  lemma AddedAssetIsLinked(t: Tables, id: Id, a: Asset)
    requires Linked(t) && id !in t.assets
    ensures Linked(t.(assets := t.assets[id := a]))
  {
  }

  lemma AddedAssetIsClosed(t: Tables, id: Id, a: Asset)
    requires Linked(t) && Closed(t) && id !in t.assets
    ensures Closed(t.(assets := t.assets[id := a]))
  {
    var u := t.(assets := t.assets[id := a]);
    forall d | d in u.drafts
      ensures DraftOk(u, d, u.drafts[d])
    {
      assert DraftOk(t, d, t.drafts[d]);
      UnnamedAsset(t, d, id);
      assert DraftAssets(u, d, u.drafts[d].owner) == DraftAssets(t, d, u.drafts[d].owner);
    }
    forall p | p in u.pieces
      ensures PieceOk(u, p, u.pieces[p])
    {
      assert PieceOk(t, p, t.pieces[p]);
      UnnamedAsset(t, p, id);
      assert PieceAssets(u, p) == PieceAssets(t, p);
    }
  }

  // No row names an asset that is not there.
  lemma UnnamedAsset(t: Tables, id: Id, a: Id)
    requires Linked(t) && a !in t.assets
    ensures (id, a) !in t.draftSources && (id, a) !in t.pieceSources
  {
  }

  lemma AddedAssetKeys(t: Tables, id: Id, a: Asset)
    requires id !in t.assets
    ensures Keys(t.(assets := t.assets[id := a])) == Keys(t) + {a.key}
  {
    var u := t.(assets := t.assets[id := a]);
    forall k | k in Keys(t) + {a.key}
      ensures k in Keys(u)
    {
      if k == a.key {
        assert u.assets[id].key == k;
      } else if k in AssetKeys(t) {
        var b :| b in t.assets && t.assets[b].key == k;
        assert b in u.assets && u.assets[b].key == k;
      }
    }
  }

  // An asset and the draft that names it.
  lemma SourceAndDraftKeep(t: Tables, a: Id, asset: Asset, id: Id, d: Draft, files: map<Key, Blob>)
    requires Ok(t) && Stored(t, files) && AssetStored(asset, files) && a !in t.assets
    requires var u := WithDraft(t.(assets := t.assets[a := asset]), id, d, {a}); Sound(u)
    ensures var u := WithDraft(t.(assets := t.assets[a := asset]), id, d, {a});
            Keeps(t, u, files, {asset.key})
  {
    var v := t.(assets := t.assets[a := asset]);
    var u := WithDraft(v, id, d, {a});
    AddedAssetKeys(t, a, asset);
    assert u.pdfs == v.pdfs && u.assets == v.assets;
    assert Keys(u) == Keys(v);
    SourceIsNoOrphan(t, a, asset, id, d);
    forall b | b in u.assets
      ensures AssetStored(u.assets[b], files)
    {
      assert b == a || AssetStored(t.assets[b], files);
    }
    assert Moves(t, u, {asset.key});
  }

  lemma SourceIsNoOrphan(t: Tables, a: Id, asset: Asset, id: Id, d: Draft)
    requires Orphans(t) == {}
    ensures Orphans(WithDraft(t.(assets := t.assets[a := asset]), id, d, {a})) == {}
  {
    var v := t.(assets := t.assets[a := asset]);
    var u := WithDraft(v, id, d, {a});
    forall b | b in u.assets
      ensures b !in Orphans(u)
    {
      assert b == a || b !in Orphans(t);
      if b == a || b in Seconds(t.draftSources) {
        WithDraftKeepsSources(v, id, d, {a}, b);
      }
    }
  }

  // ---------------------------------------------------------------------------
  // The transactions that add
  // ---------------------------------------------------------------------------

  lemma CreatePieceKeeps(t: Tables, owner: Owner, id: Id, files: map<Key, Blob>)
    requires Ok(t) && Stored(t, files) && id !in t.pieces
    ensures Keeps(t, CreatePiece(t, owner, id).tables, files, {})
  {
    NewPieceIsLinked(t, owner, id);
    NewPieceIsClosed(t, owner, id);
    NewPieceMovesNoKey(t, owner, id, files);
  }

  lemma NewPieceMovesNoKey(t: Tables, owner: Owner, id: Id, files: map<Key, Blob>)
    requires Linked(t) && KeysApart(t) && Stored(t, files) && id !in t.pieces
    ensures var u := CreatePiece(t, owner, id).tables;
            KeysApart(u) && Stored(u, files) && Orphans(u) == Orphans(t) && Keys(u) == Keys(t)
  {
  }

  lemma NewPieceIsLinked(t: Tables, owner: Owner, id: Id)
    requires Linked(t) && id !in t.pieces
    ensures Linked(CreatePiece(t, owner, id).tables)
  {
  }

  lemma NewPieceIsClosed(t: Tables, owner: Owner, id: Id)
    requires Linked(t) && Closed(t) && id !in t.pieces
    ensures Closed(CreatePiece(t, owner, id).tables)
  {
  }

  lemma UpdateImportKeeps(t: Tables, owner: Owner, draft: Id, revision: nat, m: Manifest, checks: Option<Failure>,
                          now: real, files: map<Key, Blob>)
    requires Ok(t) && Stored(t, files)
    ensures var r := UpdateImport(t, owner, draft, revision, m, checks, now);
            r.Done? ==> Keeps(t, r.tables, files, {})
  {
    var r := UpdateImport(t, owner, draft, revision, m, checks, now);
    if r.Done? {
      var d := Edited(t.drafts[draft], m, now);
      assert DraftLinked(t, t.drafts[draft]);
      var u := WithDraft(t, draft, d, {});
      assert u == r.tables by {
        assert Pairs(draft, {}) == {};
      }
      OtherDraftAssets(t, u, draft, owner);
      WithDraftIsSound(t, draft, d, {});
      WithDraftKeeps(t, draft, d, {}, files);
    }
  }

  // Attaching an upload to an open draft appends as many of its pages as fit.
  lemma AttachSourceKeeps(t: Tables, a: Attachment, key: Key, blob: Blob, now: real, files: map<Key, Blob>)
    requires Ok(t) && Stored(t, files) && |a.pages| == MAX_PREPARED_PAGES
    requires a.asset !in t.assets && key !in Keys(t) && key in files && files[key] == blob
    requires a.draft in t.drafts ==> FreshIds(a.pages, t.drafts[a.draft].manifest.pages)
    ensures var r := AttachSource(t, a, key, blob, now);
            r.Done? ==> Keeps(t, r.tables, files, {key})
  {
    var r := AttachSource(t, a, key, blob, now);
    if r.Done? {
      var d, asset := t.drafts[a.draft], AssetFor(a.owner, key, blob);
      var ids := a.pages[..Added(d.manifest, blob.pages)];
      var e := Edited(d, Appended(d.manifest, a.asset, ids), now);
      AttachedIsSound(t, a, asset, e, ids);
      SourceAndDraftKeep(t, a.asset, asset, a.draft, e, files);
    }
  }

  lemma AttachedIsSound(t: Tables, a: Attachment, asset: Asset, e: Draft, ids: seq<PageId>)
    requires Ok(t) && a.draft in t.drafts && a.asset !in t.assets && |a.pages| == MAX_PREPARED_PAGES
    requires asset.key !in Keys(t)
    requires var d := t.drafts[a.draft];
             && !d.finalized && d.owner == a.owner == asset.owner
             && ids == a.pages[..Added(d.manifest, asset.pages)] && FreshIds(a.pages, d.manifest.pages)
             && e == Edited(d, Appended(d.manifest, a.asset, ids), e.updated)
    ensures Sound(WithDraft(t.(assets := t.assets[a.asset := asset]), a.draft, e, {a.asset}))
  {
    var v := t.(assets := t.assets[a.asset := asset]);
    assert forall p :: p in t.pdfs ==> t.pdfs[p].key in PdfKeys(t);
    AddedAssetIsSound(t, a.asset, asset);
    AttachedManifestIsValid(t, a, asset, e, ids);
    assert DraftLinked(t, t.drafts[a.draft]);
    WithDraftIsSound(v, a.draft, e, {a.asset});
  }

  // The sources of a draft once one more is attached.
  lemma AttachedAssets(t: Tables, a: Attachment, asset: Asset, e: Draft)
    requires a.asset !in t.assets && asset.owner == a.owner
    ensures var u := WithDraft(t.(assets := t.assets[a.asset := asset]), a.draft, e, {a.asset});
            DraftAssets(u, a.draft, a.owner) == DraftAssets(t, a.draft, a.owner)[a.asset := asset]
  {
    var u := WithDraft(t.(assets := t.assets[a.asset := asset]), a.draft, e, {a.asset});
    assert (a.draft, a.asset) in u.draftSources;
  }

  lemma AttachedManifestIsValid(t: Tables, a: Attachment, asset: Asset, e: Draft, ids: seq<PageId>)
    requires Ok(t) && a.draft in t.drafts && a.asset !in t.assets && |a.pages| == MAX_PREPARED_PAGES
    requires var d := t.drafts[a.draft];
             && !d.finalized && d.owner == a.owner == asset.owner == e.owner
             && ids == a.pages[..Added(d.manifest, asset.pages)] && FreshIds(a.pages, d.manifest.pages)
             && e.manifest == Appended(d.manifest, a.asset, ids)
    ensures var v := t.(assets := t.assets[a.asset := asset]);
            ValidManifest(e.manifest, DraftAssets(WithDraft(v, a.draft, e, {a.asset}), a.draft, a.owner), true)
  {
    var d := t.drafts[a.draft];
    var u := WithDraft(t.(assets := t.assets[a.asset := asset]), a.draft, e, {a.asset});
    var sources, after := DraftAssets(t, a.draft, a.owner), DraftAssets(u, a.draft, a.owner);
    assert DraftOk(t, a.draft, d);
    AttachedAssets(t, a, asset, e);
    StaysValid(d.manifest, sources, after, true);
    AppendedIsValid(d.manifest, after, true, a.asset, ids);
  }

  // ---------------------------------------------------------------------------
  // Starting a preparation
  // ---------------------------------------------------------------------------

  // A saved manifest is valid again against the sources its piece kept.
  lemma SavedManifestIsValid(t: Tables, p: Id, id: Id, d: Draft)
    requires Ok(t) && p in t.pieces && t.pieces[p].manifest.Some? && id !in t.drafts
    requires d.manifest == t.pieces[p].manifest.value && d.owner == t.pieces[p].owner
    ensures forall a :: a in SourcesIn(d.manifest) ==> a in t.assets && t.assets[a].owner == d.owner
    ensures ValidManifest(d.manifest, DraftAssets(WithDraft(t, id, d, SourcesIn(d.manifest)), id, d.owner), false)
  {
    var sources := SourcesIn(d.manifest);
    var u := WithDraft(t, id, d, sources);
    assert PieceOk(t, p, t.pieces[p]);
    forall a | a in sources
      ensures a in t.assets && t.assets[a].owner == d.owner && (id, a) in u.draftSources
    {
      assert PieceSourceLinked(t, (p, a));
    }
    StaysValid(d.manifest, PieceAssets(t, p), DraftAssets(u, id, d.owner), false);
  }

  lemma CreateFromManifestKeeps(t: Tables, p: Id, id: Id, d: Draft, files: map<Key, Blob>)
    requires Ok(t) && Stored(t, files) && p in t.pieces && t.pieces[p].manifest.Some? && id !in t.drafts
    requires d.manifest == t.pieces[p].manifest.value && d.owner == t.pieces[p].owner
    requires d.piece == Some(p) && !d.finalized
    ensures Keeps(t, WithDraft(t, id, d, SourcesIn(d.manifest)), files, {})
  {
    SavedManifestIsValid(t, p, id, d);
    WithDraftIsSound(t, id, d, SourcesIn(d.manifest));
    WithDraftKeeps(t, id, d, SourcesIn(d.manifest), files);
  }

  lemma CreateEmptyKeeps(t: Tables, id: Id, d: Draft, files: map<Key, Blob>)
    requires Ok(t) && Stored(t, files) && id !in t.drafts && d.manifest == EmptyManifest
    requires !d.finalized && DraftLinked(t, d)
    ensures Keeps(t, WithDraft(t, id, d, {}), files, {})
  {
    WithDraftIsSound(t, id, d, {});
    WithDraftKeeps(t, id, d, {}, files);
  }

  // The asset a saved PDF is prepared from describes that PDF and belongs to its owner.
  lemma SourceForPdf(t: Tables, p: Id, id: Id)
    requires Ok(t) && p in t.pdfs && id !in t.assets
    ensures p in t.pieces
    ensures var u := WithSource(t, t.pieces[p].owner, id, t.pdfs[p]);
            && Sound(u) && SourceFor(t, id, t.pdfs[p]) in u.assets
            && u.assets[SourceFor(t, id, t.pdfs[p])] == SavedAsset(t.pieces[p].owner, t.pdfs[p])
  {
    assert p in t.pieces;
    if t.pdfs[p].key !in AssetKeys(t) {
      AddedAssetIsSound(t, id, SavedAsset(t.pieces[p].owner, t.pdfs[p]));
    }
  }

  lemma FirstManifestIsValid(u: Tables, id: Id, d: Draft, a: Id, ids: seq<PageId>)
    requires a in u.assets && u.assets[a].owner == d.owner && |ids| <= u.assets[a].pages
    requires |ids| <= MAX_PREPARED_PAGES && FreshIds(ids, []) && d.manifest == Appended(EmptyManifest, a, ids)
    ensures ValidManifest(d.manifest, DraftAssets(WithDraft(u, id, d, {a}), id, d.owner), true)
  {
    var after := DraftAssets(WithDraft(u, id, d, {a}), id, d.owner);
    assert (id, a) in Pairs(id, {a}) && a in after;
    AppendedIsValid(EmptyManifest, after, true, a, ids);
  }

  lemma CreateFromPdfKeeps(t: Tables, p: Id, asset: Id, id: Id, d: Draft, ids: seq<PageId>, files: map<Key, Blob>)
    requires Ok(t) && Stored(t, files) && p in t.pdfs && asset !in t.assets && id !in t.drafts && Owns(t, d.owner, p)
    requires |ids| == t.pdfs[p].pages <= MAX_PREPARED_PAGES && FreshIds(ids, [])
    requires d.manifest == Appended(EmptyManifest, SourceFor(t, asset, t.pdfs[p]), ids)
    requires d.piece == Some(p) && !d.finalized
    ensures var u := WithSource(t, d.owner, asset, t.pdfs[p]);
            Keeps(t, WithDraft(u, id, d, {SourceFor(t, asset, t.pdfs[p])}), files, {})
  {
    var pdf, a := t.pdfs[p], SourceFor(t, asset, t.pdfs[p]);
    var u := WithSource(t, d.owner, asset, pdf);
    SourceForPdf(t, p, asset);
    FirstManifestIsValid(u, id, d, a, ids);
    WithDraftIsSound(u, id, d, {a});
    if pdf.key in AssetKeys(t) {
      WithDraftKeeps(t, id, d, {a}, files);
    } else {
      assert PdfStored(pdf, files);
      assert pdf.key in PdfKeys(t);
      SourceAndDraftKeep(t, asset, SavedAsset(d.owner, pdf), id, d, files);
    }
  }

  lemma CreateImportKeeps(t: Tables, owner: Owner, piece: Option<Id>, drawn: Drawn, now: real, files: map<Key, Blob>)
    requires Ok(t) && Stored(t, files) && |drawn.pages| == MAX_PREPARED_PAGES && FreshIds(drawn.pages, [])
    requires drawn.draft !in t.drafts && drawn.asset !in t.assets
    ensures var r := CreateImport(t, owner, piece, drawn, now);
            r.Done? ==> Keeps(t, r.tables, files, {})
  {
    var r := CreateImport(t, owner, piece, drawn, now);
    if r.Done? {
      if piece.None? {
        CreateEmptyKeeps(t, drawn.draft, r.tables.drafts[drawn.draft], files);
      } else {
        var d := r.tables.drafts[drawn.draft];
        if t.pieces[piece.value].manifest.Some? {
          CreateFromManifestKeeps(t, piece.value, drawn.draft, d, files);
        } else if piece.value !in t.pdfs {
          CreateEmptyKeeps(t, drawn.draft, d, files);
        } else {
          CreateFromPdfKeeps(t, piece.value, drawn.asset, drawn.draft, d, drawn.pages[..t.pdfs[piece.value].pages], files);
        }
      }
    }
  }

  // What a preparation of a saved piece starts from.
  lemma PreparationStarts(t: Tables, owner: Owner, piece: Id, drawn: Drawn, now: real)
    requires Ok(t) && |drawn.pages| == MAX_PREPARED_PAGES
    requires |OpenDrafts(t, owner, now)| < MAX_OPEN_DRAFTS && Owns(t, owner, piece)
    requires piece in t.pdfs ==> t.pdfs[piece].pages <= MAX_PREPARED_PAGES
    ensures var r := CreateImport(t, owner, Some(piece), drawn, now);
            && r.Done? && drawn.draft in r.tables.drafts
            && var d := r.tables.drafts[drawn.draft];
            && d.owner == owner && !d.finalized && d.piece == Some(piece) && d.base == t.pieces[piece].content
            && (t.pieces[piece].manifest.Some? ==> d.manifest == t.pieces[piece].manifest.value)
            && |d.manifest.pages| == if piece in t.pdfs then t.pdfs[piece].pages else 0
  {
    assert PieceOk(t, piece, t.pieces[piece]);
  }

  // A saved piece of at most ten pages can always be prepared again: the draft starts from
  // its last manifest or the pages of its PDF, with every source and its file at hand.
  lemma PreparedAgain(t: Tables, owner: Owner, piece: Id, drawn: Drawn, now: real, files: map<Key, Blob>)
    requires Ok(t) && Stored(t, files) && |drawn.pages| == MAX_PREPARED_PAGES && FreshIds(drawn.pages, [])
    requires drawn.draft !in t.drafts && drawn.asset !in t.assets
    requires |OpenDrafts(t, owner, now)| < MAX_OPEN_DRAFTS && Owns(t, owner, piece)
    requires piece in t.pdfs ==> t.pdfs[piece].pages <= MAX_PREPARED_PAGES
    ensures var r := CreateImport(t, owner, Some(piece), drawn, now);
            && r.Done? && drawn.draft in r.tables.drafts
            && var d, sources := r.tables.drafts[drawn.draft], DraftAssets(r.tables, drawn.draft, owner);
            && ValidManifest(d.manifest, sources, true)
            && |d.manifest.pages| == (if piece in t.pdfs then t.pdfs[piece].pages else 0)
            && forall a :: a in sources ==> AssetStored(sources[a], files)
  {
    CreateImportKeeps(t, owner, Some(piece), drawn, now, files);
    PreparationStarts(t, owner, piece, drawn, now);
    ReadableSources(CreateImport(t, owner, Some(piece), drawn, now).tables, drawn.draft, files);
  }

  lemma ReadableSources(t: Tables, draft: Id, files: map<Key, Blob>)
    requires Ok(t) && Stored(t, files) && draft in t.drafts && !t.drafts[draft].finalized
    ensures var d := t.drafts[draft];
            var sources := DraftAssets(t, draft, d.owner);
            ValidManifest(d.manifest, sources, true) && forall a :: a in sources ==> AssetStored(sources[a], files)
  {
  }

  // ---------------------------------------------------------------------------
  // The transactions that drop references
  // ---------------------------------------------------------------------------

  lemma WithoutDraftsIsSound(t: Tables, gone: set<Id>)
    requires Sound(t)
    ensures Sound(WithoutDrafts(t, gone))
  {
    var u := WithoutDrafts(t, gone);
    forall s | s in u.draftSources
      ensures DraftSourceLinked(u, s)
    {
      assert DraftSourceLinked(t, s);
    }
    forall s | s in u.pieceSources
      ensures PieceSourceLinked(u, s)
    {
      assert PieceSourceLinked(t, s);
    }
    forall d | d in u.drafts
      ensures DraftLinked(u, u.drafts[d]) && DraftOk(u, d, u.drafts[d])
    {
      assert DraftLinked(t, t.drafts[d]) && DraftOk(t, d, t.drafts[d]);
      assert forall a :: (d, a) in u.draftSources <==> (d, a) in t.draftSources && (d, a).0 !in gone;
      OtherDraftAssets(t, u, d, u.drafts[d].owner);
    }
    forall p | p in u.pieces
      ensures PieceOk(u, p, u.pieces[p])
    {
      assert PieceOk(t, p, t.pieces[p]) && PieceAssets(u, p) == PieceAssets(t, p);
    }
  }

  // Deleting drafts and settling, as deleting or expiring them does.
  lemma DraftsDeletedKeep(t: Tables, gone: set<Id>, files: map<Key, Blob>)
    requires Ok(t) && Stored(t, files)
    ensures Keeps(t, Settled(WithoutDrafts(t, gone), None), files, {})
  {
    var u := WithoutDrafts(t, gone);
    WithoutDraftsIsSound(t, gone);
    SettledIsOk(u, None, files);
    SettledMoves(t, u, None, {});
  }

  // Once the drafts of a piece are gone, nothing but its own rows names it.
  lemma PieceRowsAreSound(t: Tables, piece: Id)
    requires Sound(t) && DraftsOf(t, piece) == {}
    ensures Sound(t.(pieces := t.pieces - {piece}, pdfs := t.pdfs - {piece}, pieceSources := Without(t.pieceSources, {piece})))
  {
    var u := t.(pieces := t.pieces - {piece}, pdfs := t.pdfs - {piece}, pieceSources := Without(t.pieceSources, {piece}));
    forall s | s in u.draftSources
      ensures DraftSourceLinked(u, s)
    {
      assert DraftSourceLinked(t, s);
    }
    forall s | s in u.pieceSources
      ensures PieceSourceLinked(u, s)
    {
      assert PieceSourceLinked(t, s);
    }
    forall d | d in u.drafts
      ensures DraftLinked(u, u.drafts[d]) && DraftOk(u, d, u.drafts[d])
    {
      assert DraftLinked(t, t.drafts[d]) && DraftOk(t, d, t.drafts[d]) && d !in DraftsOf(t, piece);
      OtherDraftAssets(t, u, d, u.drafts[d].owner);
    }
    forall p | p in u.pieces
      ensures PieceOk(u, p, u.pieces[p])
    {
      assert PieceOk(t, p, t.pieces[p]);
      assert forall a :: (p, a) in u.pieceSources <==> (p, a) in t.pieceSources && (p, a).0 != piece;
      assert PieceAssets(u, p) == PieceAssets(t, p);
    }
  }

  lemma WithoutPieceIsSound(t: Tables, piece: Id)
    requires Sound(t)
    ensures Sound(WithoutPiece(t, piece))
  {
    var u := WithoutDrafts(t, DraftsOf(t, piece));
    WithoutDraftsIsSound(t, DraftsOf(t, piece));
    assert DraftsOf(u, piece) == {};
    PieceRowsAreSound(u, piece);
  }

  // Replacing or deleting the PDF row of a piece loses at most that row's key.
  lemma LostKeys(t: Tables, u: Tables, piece: Id)
    requires t.assets == u.assets && forall p :: p in t.pdfs && p != piece ==> p in u.pdfs && u.pdfs[p] == t.pdfs[p]
    ensures forall k :: k in Keys(t) && k !in Keys(u) ==> KeyOf(t, piece) == Some(k)
  {
  }

  lemma DeletePieceKeeps(t: Tables, piece: Id, files: map<Key, Blob>)
    requires Ok(t) && Stored(t, files)
    ensures Keeps(t, Settled(WithoutPiece(t, piece), KeyOf(t, piece)), files, {})
  {
    WithoutPieceIsSound(t, piece);
    SettledIsOk(WithoutPiece(t, piece), KeyOf(t, piece), files);
    DeletedPieceMoves(t, piece);
  }

  lemma DeletedPieceMoves(t: Tables, piece: Id)
    requires Ok(t)
    ensures Moves(t, Settled(WithoutPiece(t, piece), KeyOf(t, piece)), {})
  {
    var u := WithoutPiece(t, piece);
    WithoutPieceIsSound(t, piece);
    LostKeys(t, u, piece);
    SettledMoves(t, u, KeyOf(t, piece), {});
  }

  // ---------------------------------------------------------------------------
  // Publishing
  // ---------------------------------------------------------------------------

  // A draft that may be published as this PDF under this piece.
  ghost predicate Publishable(t: Tables, draft: Id, piece: Id, pdf: Pdf) {
    && draft in t.drafts
    && var d := t.drafts[draft];
    && !d.finalized && pdf.key !in Keys(t) && pdf.pages == |d.manifest.pages|
    && ValidManifest(d.manifest, DraftAssets(t, draft, d.owner), false)
    && (d.piece == Some(piece) || (d.piece.None? && piece !in t.pieces))
  }

  lemma PublishedIsSound(t: Tables, draft: Id, piece: Id, pdf: Pdf, now: real)
    requires Sound(t) && Publishable(t, draft, piece, pdf)
    ensures Sound(Published(t, draft, piece, t.drafts[draft].owner, pdf, now))
  {
    PublishedIsLinked(t, draft, piece, pdf, now);
    PublishedIsClosed(t, draft, piece, pdf, now);
    PublishedKeysApart(t, draft, piece, pdf, now);
  }

  // The sources a published manifest names are the owner's assets.
  lemma PublishedSources(t: Tables, draft: Id, a: Id)
    requires Sound(t) && draft in t.drafts
    requires ValidManifest(t.drafts[draft].manifest, DraftAssets(t, draft, t.drafts[draft].owner), false)
    requires a in SourcesIn(t.drafts[draft].manifest)
    ensures (draft, a) in t.draftSources && a in t.assets && t.assets[a].owner == t.drafts[draft].owner
  {
  }

  lemma PublishedIsLinked(t: Tables, draft: Id, piece: Id, pdf: Pdf, now: real)
    requires Sound(t) && Publishable(t, draft, piece, pdf)
    ensures Linked(Published(t, draft, piece, t.drafts[draft].owner, pdf, now))
  {
    var d := t.drafts[draft];
    var u := Published(t, draft, piece, d.owner, pdf, now);
    assert DraftLinked(t, d);
    forall s | s in u.draftSources
      ensures DraftSourceLinked(u, s)
    {
      assert DraftSourceLinked(t, s);
    }
    forall s | s in u.pieceSources
      ensures PieceSourceLinked(u, s)
    {
      if s in t.pieceSources {
        assert PieceSourceLinked(t, s);
      } else {
        PublishedSources(t, draft, s.1);
      }
    }
    forall e | e in u.drafts
      ensures DraftLinked(u, u.drafts[e])
    {
      assert DraftLinked(t, t.drafts[e]);
    }
  }

  lemma PublishedIsClosed(t: Tables, draft: Id, piece: Id, pdf: Pdf, now: real)
    requires Sound(t) && Publishable(t, draft, piece, pdf)
    ensures Closed(Published(t, draft, piece, t.drafts[draft].owner, pdf, now))
  {
    PublishedDraftsAreOk(t, draft, piece, pdf, now);
    PublishedPiecesAreOk(t, draft, piece, pdf, now);
  }

  lemma PublishedDraftsAreOk(t: Tables, draft: Id, piece: Id, pdf: Pdf, now: real)
    requires Sound(t) && Publishable(t, draft, piece, pdf)
    ensures var u := Published(t, draft, piece, t.drafts[draft].owner, pdf, now);
            forall e :: e in u.drafts ==> DraftOk(u, e, u.drafts[e])
  {
    var d := t.drafts[draft];
    var u := Published(t, draft, piece, d.owner, pdf, now);
    forall e | e in u.drafts
      ensures DraftOk(u, e, u.drafts[e])
    {
      if e != draft {
        assert DraftOk(t, e, t.drafts[e]);
        assert forall a :: (e, a) in u.draftSources <==> (e, a) in t.draftSources && (e, a).0 != draft;
        OtherDraftAssets(t, u, e, u.drafts[e].owner);
      }
    }
  }

  lemma PublishedPiecesAreOk(t: Tables, draft: Id, piece: Id, pdf: Pdf, now: real)
    requires Sound(t) && Publishable(t, draft, piece, pdf)
    ensures var u := Published(t, draft, piece, t.drafts[draft].owner, pdf, now);
            forall p :: p in u.pieces ==> PieceOk(u, p, u.pieces[p])
  {
    var d := t.drafts[draft];
    var u := Published(t, draft, piece, d.owner, pdf, now);
    forall p | p in u.pieces
      ensures PieceOk(u, p, u.pieces[p])
    {
      PublishedPieceSources(t, draft, piece, pdf, now, p);
      if p == piece {
        PublishedPieceIsOk(t, draft, piece, pdf, now);
      } else {
        assert PieceOk(t, p, t.pieces[p]) && PieceAssets(u, p) == PieceAssets(t, p);
      }
    }
  }

  lemma PublishedPieceSources(t: Tables, draft: Id, piece: Id, pdf: Pdf, now: real, p: Id)
    requires draft in t.drafts
    ensures var d := t.drafts[draft];
            var u := Published(t, draft, piece, d.owner, pdf, now);
            && (p == piece ==> forall a :: (p, a) in u.pieceSources <==> a in SourcesIn(d.manifest))
            && (p != piece ==> forall a :: (p, a) in u.pieceSources <==> (p, a) in t.pieceSources)
  {
    forall a: Id
      ensures (p, a).0 == p
    {
    }
  }

  lemma PublishedPieceIsOk(t: Tables, draft: Id, piece: Id, pdf: Pdf, now: real)
    requires Sound(t) && Publishable(t, draft, piece, pdf)
    ensures var u := Published(t, draft, piece, t.drafts[draft].owner, pdf, now);
            PieceOk(u, piece, u.pieces[piece])
  {
    var d := t.drafts[draft];
    var u := Published(t, draft, piece, d.owner, pdf, now);
    forall a
      ensures (piece, a) in u.pieceSources <==> a in SourcesIn(d.manifest)
    {
      assert (piece, a).0 == piece;
    }
    forall a | a in SourcesIn(d.manifest)
      ensures a in PieceAssets(u, piece) && PieceAssets(u, piece)[a] == t.assets[a]
    {
      PublishedSources(t, draft, a);
    }
    StaysValid(d.manifest, DraftAssets(t, draft, d.owner), PieceAssets(u, piece), false);
  }

  lemma PublishedKeysApart(t: Tables, draft: Id, piece: Id, pdf: Pdf, now: real)
    requires Sound(t) && Publishable(t, draft, piece, pdf)
    ensures KeysApart(Published(t, draft, piece, t.drafts[draft].owner, pdf, now))
  {
    var u := Published(t, draft, piece, t.drafts[draft].owner, pdf, now);
    assert forall p :: p in t.pdfs ==> t.pdfs[p].key in PdfKeys(t);
    PublishedSharesNoKey(t, draft, piece, pdf, now);
    forall p, q | p in u.pdfs && q in u.pdfs && u.pdfs[p].key == u.pdfs[q].key
      ensures p == q
    {
      assert p != piece ==> u.pdfs[p] == t.pdfs[p];
      assert q != piece ==> u.pdfs[q] == t.pdfs[q];
    }
  }

  lemma PublishedSharesNoKey(t: Tables, draft: Id, piece: Id, pdf: Pdf, now: real)
    requires KeysApart(t) && Linked(t) && draft in t.drafts && pdf.key !in Keys(t)
    ensures var u := Published(t, draft, piece, t.drafts[draft].owner, pdf, now);
            forall p, a :: p in u.pdfs && p in u.pieces && a in u.assets && u.pdfs[p].key == u.assets[a].key ==>
                             u.assets[a] == SavedAsset(u.pieces[p].owner, u.pdfs[p])
  {
  }

  lemma PublishedKeys(t: Tables, draft: Id, piece: Id, owner: Owner, pdf: Pdf, now: real)
    requires draft in t.drafts
    ensures var u := Published(t, draft, piece, owner, pdf, now);
            && Keys(u) <= Keys(t) + {pdf.key} && pdf.key in PdfKeys(u)
            && forall k :: k in Keys(t) && k !in Keys(u) ==> KeyOf(t, piece) == Some(k)
  {
    var u := Published(t, draft, piece, owner, pdf, now);
    assert u.pdfs[piece].key in PdfKeys(u);
    LostKeys(t, u, piece);
    forall k | k in PdfKeys(u) && k != pdf.key
      ensures k in PdfKeys(t)
    {
      var p :| p in u.pdfs && u.pdfs[p].key == k;
      assert t.pdfs[p].key == k;
    }
  }

  lemma FinalizeImportKeeps(t: Tables, f: Finish, key: Key, blob: Blob, now: real, files: map<Key, Blob>)
    requires Ok(t) && Stored(t, files) && f.piece !in t.pieces
    requires key !in Keys(t) && key in files && files[key] == blob && blob.mime == PdfFile && blob.pages == f.pages
    ensures var r := FinalizeImport(t, f, key, blob, now);
            r.Done? ==> Keeps(t, r.tables, files, {key})
  {
    var r := FinalizeImport(t, f, key, blob, now);
    if r.Done? {
      var d, piece, pdf := t.drafts[f.draft], Target(t, f), Pdf(key, blob.size, blob.checksum, f.pages);
      assert DraftLinked(t, d);
      PublishedIsSound(t, f.draft, piece, pdf, now);
      var u := Published(t, f.draft, piece, f.owner, pdf, now);
      assert PdfStored(pdf, files);
      SettledIsOk(u, KeyOf(t, piece), files);
      PublishedKeys(t, f.draft, piece, f.owner, pdf, now);
      SettledMoves(t, u, KeyOf(t, piece), {key});
    }
  }
}
