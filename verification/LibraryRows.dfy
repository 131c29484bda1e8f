/**
 The metadata of pieces and its derived columns: validatePiece and searchText in
 internal/app/validation.go, CreatePiece and UpdatePiece in internal/app/service.go, the
 metadata of drafts in internal/app/imports.go, MergeComposers and RepairComposerKeys in
 internal/app/composers.go, and the rebuild of all search texts in internal/app/search.go, as
 transactions over the rows of a library.

 How a text is normalised and a sort key is computed are parameters; lengths and links are
 checked by a flag of each request.
 */
module LibraryRows {
  import opened Wrappers
  import opened SearchStrings
  import opened SearchFolds
  import opened SearchIndexes
  import V = LibraryViews

  type Id = string

  // The metadata a draft can change.
  datatype Fields = Fields(title: string, composer: string, source: string, listening: string, notes: string, favorite: bool)

  // The rest of what a person can enter about a piece.
  datatype Details = Details(aliases: string, opus: string, key: string)

  datatype Row = Row(owner: string, fields: Fields, details: Details, status: V.Status, search: string, sort: string,
                     sortSource: string, sortVersion: nat)

  // How the program normalises a text before it folds it, and its composer sort key.
  datatype Rules = Rules(normalise: string -> Text, sortKey: string -> string)

  const KEY_VERSION := 1
  const REPAIR_BATCH := 250

  // ---------------------------------------------------------------------------
  // Validation and derived columns
  // ---------------------------------------------------------------------------

  function TrimFields(f: Fields): Fields {
    Fields(TrimSpace(f.title), TrimSpace(f.composer), TrimSpace(f.source), TrimSpace(f.listening), TrimSpace(f.notes), f.favorite)
  }

  function TrimDetails(d: Details): Details { Details(TrimSpace(d.aliases), TrimSpace(d.opus), TrimSpace(d.key)) }

  // What is left of a valid piece; fits says that its lengths and links pass.
  function Validated(f: Fields, fits: bool): Option<Fields> {
    var f := TrimFields(f);
    if f.title == "" || !fits then None else Some(f)
  }

  // The texts a search looks at.
  function Searched(rules: Rules, f: Fields, d: Details): (texts: seq<Text>) {
    [rules.normalise(f.title), rules.normalise(f.composer), rules.normalise(d.aliases), rules.normalise(f.notes),
     rules.normalise(d.opus), rules.normalise(d.key)]
  }

  function SearchText(rules: Rules, f: Fields, d: Details): string { SearchIndex(Searched(rules, f, d)) }

  // A row with its derived columns written from what it holds.
  function Filled(rules: Rules, owner: string, f: Fields, d: Details, status: V.Status): Row {
    Row(owner, f, d, status, SearchText(rules, f, d), rules.sortKey(f.composer), f.composer, KEY_VERSION)
  }

  // mergeDraftMetadata: the fields a draft changed from its base, and the current others.
  function Picked(current: string, base: string, draft: string): string { if draft != base then draft else current }

  function Merged(current: Fields, base: Fields, draft: Fields): Fields {
    Fields(Picked(current.title, base.title, draft.title), Picked(current.composer, base.composer, draft.composer),
           Picked(current.source, base.source, draft.source), Picked(current.listening, base.listening, draft.listening),
           Picked(current.notes, base.notes, draft.notes),
           if draft.favorite != base.favorite then draft.favorite else current.favorite)
  }

  // ---------------------------------------------------------------------------
  // Transactions
  // ---------------------------------------------------------------------------

  // A draft's metadata: the piece it prepares with the fields it started from, if recorded.
  datatype Draft = Draft(piece: Option<Id>, base: Option<Fields>, fields: Fields)

  datatype Library = Library(rows: map<Id, Row>, drafts: map<Id, Draft>)

  // A patch of a piece: the values it sets.
  datatype Patch = Patch(title: Option<string>, composer: Option<string>, source: Option<string>, listening: Option<string>,
                         notes: Option<string>, favorite: Option<bool>, aliases: Option<string>, opus: Option<string>,
                         key: Option<string>, status: Option<V.Status>)

  function Or<T>(o: Option<T>, other: T): T { if o.Some? then o.value else other }

  function PatchedFields(p: Patch, f: Fields): Fields {
    Fields(Or(p.title, f.title), Or(p.composer, f.composer), Or(p.source, f.source), Or(p.listening, f.listening),
           Or(p.notes, f.notes), Or(p.favorite, f.favorite))
  }

  function PatchedDetails(p: Patch, d: Details): Details {
    Details(Or(p.aliases, d.aliases), Or(p.opus, d.opus), Or(p.key, d.key))
  }

  datatype Change =
    | Create(id: Id, owner: string, fields: Fields, details: Details, status: Option<V.Status>, fits: bool)
    | Update(id: Id, patch: Patch, fits: bool)
    | Start(draft: Id, piece: Option<Id>, initial: Fields)
    | EditDraft(draft: Id, fields: Fields)
    | Finalize(draft: Id, newPiece: Id, owner: string, fits: bool)
    | Merge(owner: string, spellings: set<string>, target: string)
    | Repair(batch: set<Id>)
    | Reindex
    | OldWrite(id: Id, composer: string)
    | Delete(id: Id)

  function Created(rules: Rules, c: Change): Option<Row>
    requires c.Create?
  {
    var f := Validated(c.fields, c.fits);
    if f.None? then None
    else Some(Filled(rules, c.owner, f.value, TrimDetails(c.details), Or(c.status, V.Playing)))
  }

  function Updated(rules: Rules, row: Row, p: Patch, fits: bool): Option<Row> {
    var f := Validated(PatchedFields(p, row.fields), fits);
    if f.None? then None
    else Some(Filled(rules, row.owner, f.value, TrimDetails(PatchedDetails(p, row.details)), Or(p.status, row.status)))
  }

  // The fields a finalisation saves for a piece, or None when it is refused.
  function FinalFields(row: Row, d: Draft, fits: bool): Option<Fields> {
    var draft := Validated(d.fields, fits);
    if draft.None? then None
    else if d.base.Some? then Validated(Merged(row.fields, d.base.value, draft.value), fits)
    else if draft.value != row.fields then None
    else draft
  }

  function Finalized(rules: Rules, row: Row, d: Draft, fits: bool): Option<Row> {
    var f := FinalFields(row, d, fits);
    if f.None? then None else Some(Filled(rules, row.owner, f.value, row.details, row.status))
  }

  // A new piece a draft becomes.
  function Published(rules: Rules, owner: string, d: Draft, fits: bool): Option<Row> {
    var f := Validated(d.fields, fits);
    if f.None? then None else Some(Filled(rules, owner, f.value, Details("", "", ""), V.Playing))
  }

  // The pieces a merge of these spellings shows in its preview and changes.
  function Selected(rows: map<Id, Row>, owner: string, spellings: set<string>): set<Id> {
    set id | id in rows && rows[id].owner == owner && rows[id].fields.composer in spellings
  }

  function WithComposer(rules: Rules, row: Row, target: string): Row {
    Filled(rules, row.owner, row.fields.(composer := target), row.details, row.status)
  }

  function Stale(rows: map<Id, Row>): set<Id> {
    set id | id in rows && (rows[id].sortVersion != KEY_VERSION || rows[id].sortSource != rows[id].fields.composer)
  }

  function Repaired(rules: Rules, row: Row): Row {
    row.(sort := rules.sortKey(row.fields.composer), sortSource := row.fields.composer, sortVersion := KEY_VERSION)
  }

  function Reindexed(rules: Rules, row: Row): Row { row.(search := SearchText(rules, row.fields, row.details)) }

  function Put(l: Library, id: Id, row: Option<Row>): Library {
    if row.None? then l else l.(rows := l.rows[id := row.value])
  }

  predicate Enabled(l: Library, c: Change) {
    match c
    case Create(id, _, _, _, _, _) => id !in l.rows
    case Finalize(_, piece, _, _) => piece !in l.rows
    case Merge(_, _, target) => target != "" && TrimSpace(target) == target
    case Repair(batch) => batch <= Stale(l.rows) && |batch| <= REPAIR_BATCH
    case OldWrite(_, composer) => TrimSpace(composer) == composer
    case _ => true
  }

  function Next(rules: Rules, l: Library, c: Change): Library {
    match c
    case Create(id, _, _, _, _, _) => Put(l, id, Created(rules, c))
    case Update(id, p, fits) => if id in l.rows then Put(l, id, Updated(rules, l.rows[id], p, fits)) else l
    case Start(draft, piece, initial) =>
      if piece.None? then l.(drafts := l.drafts[draft := Draft(None, None, initial)])
      else if piece.value !in l.rows then l
      else l.(drafts := l.drafts[draft := Draft(piece, Some(l.rows[piece.value].fields), l.rows[piece.value].fields)])
    case EditDraft(draft, fields) =>
      if draft in l.drafts then l.(drafts := l.drafts[draft := l.drafts[draft].(fields := fields)]) else l
    case Finalize(draft, piece, owner, fits) =>
      if draft !in l.drafts then l
      else
        var d := l.drafts[draft];
        if d.piece.None? then Put(l, piece, Published(rules, owner, d, fits))
        else if d.piece.value in l.rows then Put(l, d.piece.value, Finalized(rules, l.rows[d.piece.value], d, fits))
        else l
    case Merge(owner, spellings, target) =>
      var selected := Selected(l.rows, owner, spellings);
      l.(rows := map id | id in l.rows :: if id in selected then WithComposer(rules, l.rows[id], target) else l.rows[id])
    case Repair(batch) =>
      l.(rows := map id | id in l.rows :: if id in batch then Repaired(rules, l.rows[id]) else l.rows[id])
    case Reindex => l.(rows := map id | id in l.rows :: Reindexed(rules, l.rows[id]))
    case OldWrite(id, composer) =>
      if id in l.rows then l.(rows := l.rows[id := l.rows[id].(fields := l.rows[id].fields.(composer := composer))]) else l
    case Delete(id) => l.(rows := l.rows - {id})
  }

  // ---------------------------------------------------------------------------
  // Nothing is lost
  // ---------------------------------------------------------------------------

  predicate Trimmed(f: Fields) { TrimFields(f) == f }

  // The texts of a piece that a draft can change.
  datatype Name = Title | Composer | Source | Listening | Notes

  function Get(f: Fields, n: Name): string {
    match n
    case Title => f.title
    case Composer => f.composer
    case Source => f.source
    case Listening => f.listening
    case Notes => f.notes
  }

  // A finalised piece has the draft's value where the draft changed it, and its own elsewhere;
  // without a base nothing tells who changed what, and it stays as it is.
  ghost predicate NothingLost(saved: Fields, current: Fields, d: Draft) {
    if d.base.None? then saved == current
    else
      var base := d.base.value;
      && (forall n :: Get(saved, n) == if TrimSpace(Get(d.fields, n)) != Get(base, n) then TrimSpace(Get(d.fields, n))
                                       else Get(current, n))
      && saved.favorite == if d.fields.favorite != base.favorite then d.fields.favorite else current.favorite
  }

  lemma {:induction false} TrimLeftTwice(s: string)
    ensures TrimSpaceLeft(TrimSpaceLeft(s)) == TrimSpaceLeft(s)
    decreases |s|
  {
    if s != "" && IsSpace(s[0]) {
      TrimLeftTwice(s[1..]);
    }
  }

  // Trimming on the left keeps a tidy right end.
  lemma {:induction false} TrimKeepsEnd(s: string)
    requires s == "" || !IsSpace(s[|s| - 1])
    ensures TrimSpaceLeft(s) == "" || !IsSpace(TrimSpaceLeft(s)[|TrimSpaceLeft(s)| - 1])
    decreases |s|
  {
    if s != "" && IsSpace(s[0]) {
      TrimKeepsEnd(s[1..]);
    }
  }

  lemma {:induction false} TrimRightEnds(s: string)
    ensures TrimSpaceRight(s) == "" || !IsSpace(TrimSpaceRight(s)[|TrimSpaceRight(s)| - 1])
    decreases |s|
  {
    if s != "" && IsSpace(s[|s| - 1]) {
      TrimRightEnds(s[..|s| - 1]);
    }
  }

  lemma TrimTwice(s: string)
    ensures TrimSpace(TrimSpace(s)) == TrimSpace(s)
  {
    TrimRightEnds(s);
    TrimKeepsEnd(TrimSpaceRight(s));
    TrimLeftTwice(TrimSpaceRight(s));
  }

  lemma TrimFieldsTwice(f: Fields)
    ensures Trimmed(TrimFields(f))
  {
    TrimTwice(f.title);
    TrimTwice(f.composer);
    TrimTwice(f.source);
    TrimTwice(f.listening);
    TrimTwice(f.notes);
  }

  lemma TrimmedFields(f: Fields)
    ensures Trimmed(f) <==> forall n :: TrimSpace(Get(f, n)) == Get(f, n)
  {
    hide TrimSpace;
    if forall n :: TrimSpace(Get(f, n)) == Get(f, n) {
      assert TrimSpace(Get(f, Title)) == f.title && TrimSpace(Get(f, Composer)) == f.composer;
      assert TrimSpace(Get(f, Source)) == f.source && TrimSpace(Get(f, Listening)) == f.listening;
      assert TrimSpace(Get(f, Notes)) == f.notes;
    }
  }

  // Between a piece and a recorded base that are trimmed, no change is lost.
  lemma NothingIsLost(row: Row, d: Draft, fits: bool)
    requires (d.base.Some? ==> Trimmed(d.base.value)) && Trimmed(row.fields) && FinalFields(row, d, fits).Some?
    ensures NothingLost(FinalFields(row, d, fits).value, row.fields, d)
  {
    hide TrimSpace;
    TrimFieldsTwice(d.fields);
    if d.base.Some? {
      var draft, saved := TrimFields(d.fields), FinalFields(row, d, fits).value;
      TrimmedFields(draft);
      TrimmedFields(row.fields);
      forall n
        ensures Get(saved, n) == Picked(Get(row.fields, n), Get(d.base.value, n), Get(draft, n))
      {
        assert Get(saved, n) == TrimSpace(Picked(Get(row.fields, n), Get(d.base.value, n), Get(draft, n)));
      }
      assert forall n :: Get(draft, n) == TrimSpace(Get(d.fields, n));
    }
  }

  // A patch changes what it sets and nothing else.
  lemma PatchKeepsTheRest(rules: Rules, row: Row, p: Patch, fits: bool)
    requires Trimmed(row.fields) && TrimDetails(row.details) == row.details && Updated(rules, row, p, fits).Some?
    ensures var v := Updated(rules, row, p, fits).value;
            && v.owner == row.owner && v.status == Or(p.status, row.status) && v.fields.favorite == Or(p.favorite, row.fields.favorite)
            && (p.title.None? ==> v.fields.title == row.fields.title)
            && (p.composer.None? ==> v.fields.composer == row.fields.composer)
            && (p.source.None? ==> v.fields.source == row.fields.source)
            && (p.listening.None? ==> v.fields.listening == row.fields.listening)
            && (p.notes.None? ==> v.fields.notes == row.fields.notes)
            && (p.aliases.None? ==> v.details.aliases == row.details.aliases)
            && (p.opus.None? ==> v.details.opus == row.details.opus) && (p.key.None? ==> v.details.key == row.details.key)
  {
  }

  // For any base: a text the draft left alone keeps what the piece has now exactly when the
  // base was trimmed there or the piece still has the same but for white space.
  lemma UntouchedFieldKeptExactlyWhen(row: Row, d: Draft, fits: bool, n: Name)
    requires d.base.Some? && Get(d.fields, n) == Get(d.base.value, n) && FinalFields(row, d, fits).Some?
    ensures Get(FinalFields(row, d, fits).value, n) == TrimSpace(Get(row.fields, n))
            <==> TrimSpace(Get(d.base.value, n)) == Get(d.base.value, n)
                 || TrimSpace(Get(row.fields, n)) == TrimSpace(Get(d.base.value, n))
  {
    var current, base := Get(row.fields, n), Get(d.base.value, n);
    TrimTwice(base);
    hide TrimSpace;
    assert Get(FinalFields(row, d, fits).value, n) == TrimSpace(Picked(current, base, TrimSpace(base)));
  }

  // A draft that changed nothing puts back a composer it never touched.
  lemma UntouchedFieldIsLost(row: Row)
    requires row.fields == Fields("T", "Y", "", "", "", false)
    ensures var base := Fields("T", " X", "", "", "", false);
            FinalFields(row, Draft(Some("p"), Some(base), base), true) == Some(Fields("T", "X", "", "", "", false))
  {
    assert TrimSpaceRight(" X") == " X" && TrimSpaceLeft(" X") == TrimSpaceLeft("X");
  }

  // ---------------------------------------------------------------------------
  // No stale column
  // ---------------------------------------------------------------------------

  // The search text is the index of the row as it is.
  ghost predicate IndexFresh(rules: Rules, row: Row) { row.search == SearchText(rules, row.fields, row.details) }

  // A key of the current version is the key of the composer it was computed from.
  ghost predicate KeyHonest(rules: Rules, row: Row) {
    row.sortVersion == KEY_VERSION ==> row.sort == rules.sortKey(row.sortSource)
  }

  ghost predicate RowsFresh(rules: Rules, l: Library) { forall id :: id in l.rows ==> IndexFresh(rules, l.rows[id]) }

  ghost predicate KeysHonest(rules: Rules, l: Library) { forall id :: id in l.rows ==> KeyHonest(rules, l.rows[id]) }

  // Rows, and the bases drafts started from, hold trimmed texts.
  ghost predicate AllTrimmed(l: Library) {
    && (forall id :: id in l.rows ==> Trimmed(l.rows[id].fields))
    && (forall id :: id in l.drafts && l.drafts[id].base.Some? ==> Trimmed(l.drafts[id].base.value))
  }

  lemma ValidatedIsTrimmed(f: Fields, fits: bool)
    ensures Validated(f, fits).Some? ==> Trimmed(Validated(f, fits).value)
  {
    TrimFieldsTwice(f);
  }

  lemma FinalIsTrimmed(row: Row, d: Draft, fits: bool)
    ensures FinalFields(row, d, fits).Some? ==> Trimmed(FinalFields(row, d, fits).value)
  {
    ValidatedIsTrimmed(d.fields, fits);
    if Validated(d.fields, fits).Some? && d.base.Some? {
      ValidatedIsTrimmed(Merged(row.fields, d.base.value, Validated(d.fields, fits).value), fits);
    }
  }

  lemma PutKeepsTrimmed(l: Library, id: Id, row: Option<Row>)
    requires AllTrimmed(l) && (row.Some? ==> Trimmed(row.value.fields))
    ensures AllTrimmed(Put(l, id, row))
  {
  }

  lemma TrimmedWithComposer(f: Fields, composer: string)
    requires Trimmed(f) && TrimSpace(composer) == composer
    ensures Trimmed(f.(composer := composer))
  {
    hide TrimSpace;
  }

  lemma FinalizeKeepsTrimmed(rules: Rules, l: Library, c: Change)
    requires AllTrimmed(l) && c.Finalize? && c.draft in l.drafts
    ensures AllTrimmed(Next(rules, l, c))
  {
    hide TrimSpace, SearchText, AllTrimmed;
    var d := l.drafts[c.draft];
    ValidatedIsTrimmed(d.fields, c.fits);
    if d.piece.None? {
      PutKeepsTrimmed(l, c.newPiece, Published(rules, c.owner, d, c.fits));
    } else if d.piece.value in l.rows {
      FinalIsTrimmed(l.rows[d.piece.value], d, c.fits);
      PutKeepsTrimmed(l, d.piece.value, Finalized(rules, l.rows[d.piece.value], d, c.fits));
    }
  }

  // Every write, also that of an old replica, leaves trimmed texts.
  lemma StepKeepsTrimmed(rules: Rules, l: Library, c: Change)
    requires AllTrimmed(l) && Enabled(l, c)
    ensures AllTrimmed(Next(rules, l, c))
  {
    hide TrimSpace, TrimFields, SearchText;
    match c
    case Create(id, _, f, _, _, fits) =>
      ValidatedIsTrimmed(f, fits);
      PutKeepsTrimmed(l, id, Created(rules, c));
    case Update(id, p, fits) =>
      if id in l.rows {
        ValidatedIsTrimmed(PatchedFields(p, l.rows[id].fields), fits);
        PutKeepsTrimmed(l, id, Updated(rules, l.rows[id], p, fits));
      }
    case Finalize(draft, _, _, _) =>
      if draft in l.drafts {
        FinalizeKeepsTrimmed(rules, l, c);
      }
    case Merge(_, _, target) =>
      forall id | id in l.rows
        ensures Trimmed(l.rows[id].fields.(composer := target))
      {
        TrimmedWithComposer(l.rows[id].fields, target);
      }
    case OldWrite(id, composer) =>
      if id in l.rows {
        TrimmedWithComposer(l.rows[id].fields, composer);
      }
    case _ =>
  }

  // Every write but that of an old replica writes the search text of what it leaves.
  lemma StepKeepsFresh(rules: Rules, l: Library, c: Change)
    requires RowsFresh(rules, l) && !c.OldWrite?
    ensures RowsFresh(rules, Next(rules, l, c))
  {
    hide SearchText, TrimSpace, TrimFields, TrimDetails;
  }

  // Old replicas included, no key ever claims to be what it is not.
  lemma StepKeepsKeysHonest(rules: Rules, l: Library, c: Change)
    requires KeysHonest(rules, l)
    ensures KeysHonest(rules, Next(rules, l, c))
  {
    hide SearchText, TrimSpace, TrimFields, TrimDetails;
  }

  function Run(rules: Rules, l: Library, changes: seq<Change>): Library
    decreases |changes|
  {
    if changes == [] then l else Run(rules, Next(rules, l, changes[0]), changes[1..])
  }

  ghost predicate Allowed(rules: Rules, l: Library, changes: seq<Change>)
    decreases |changes|
  {
    changes == [] || (Enabled(l, changes[0]) && Allowed(rules, Next(rules, l, changes[0]), changes[1..]))
  }

  lemma {:induction false} RunKeepsTrimmed(rules: Rules, l: Library, changes: seq<Change>)
    requires AllTrimmed(l) && Allowed(rules, l, changes)
    ensures AllTrimmed(Run(rules, l, changes))
    decreases |changes|
  {
    hide AllTrimmed, Next, Enabled;
    if changes != [] {
      StepKeepsTrimmed(rules, l, changes[0]);
      RunKeepsTrimmed(rules, Next(rules, l, changes[0]), changes[1..]);
    }
  }

  // Over any run, whoever wrote in between, a finalisation loses no change.
  lemma {:induction false} FinalisingLosesNothing(rules: Rules, l: Library, changes: seq<Change>, c: Change)
    requires AllTrimmed(l) && Allowed(rules, l, changes) && c.Finalize?
    requires var r := Run(rules, l, changes);
             && c.draft in r.drafts && r.drafts[c.draft].piece.Some? && r.drafts[c.draft].piece.value in r.rows
             && FinalFields(r.rows[r.drafts[c.draft].piece.value], r.drafts[c.draft], c.fits).Some?
    ensures var r := Run(rules, l, changes);
            var d := r.drafts[c.draft];
            NothingLost(Next(rules, r, c).rows[d.piece.value].fields, r.rows[d.piece.value].fields, d)
  {
    hide NothingLost, SearchText, TrimFields;
    RunKeepsTrimmed(rules, l, changes);
    var r := Run(rules, l, changes);
    var d := r.drafts[c.draft];
    NothingIsLost(r.rows[d.piece.value], d, c.fits);
  }

  // Over any run without writes of old replicas no search text is stale; and none is after the
  // rebuild of all of them, whoever wrote before.
  lemma {:induction false} RunKeepsFresh(rules: Rules, l: Library, changes: seq<Change>)
    requires (RowsFresh(rules, l) || (changes != [] && changes[0].Reindex?))
    requires forall i :: 0 <= i < |changes| ==> !changes[i].OldWrite?
    ensures RowsFresh(rules, Run(rules, l, changes))
    decreases |changes|
  {
    hide Next, RowsFresh;
    if changes != [] {
      assert !changes[0].OldWrite?;
      if changes[0].Reindex? {
        ReindexFreshens(rules, l);
      } else {
        StepKeepsFresh(rules, l, changes[0]);
      }
      RunKeepsFresh(rules, Next(rules, l, changes[0]), changes[1..]);
    }
  }

  lemma ReindexFreshens(rules: Rules, l: Library)
    ensures RowsFresh(rules, Next(rules, l, Reindex))
  {
    hide SearchText;
  }

  lemma {:induction false} RunKeepsKeysHonest(rules: Rules, l: Library, changes: seq<Change>)
    requires KeysHonest(rules, l)
    ensures KeysHonest(rules, Run(rules, l, changes))
    decreases |changes|
  {
    hide KeysHonest, Next;
    if changes != [] {
      StepKeepsKeysHonest(rules, l, changes[0]);
      RunKeepsKeysHonest(rules, Next(rules, l, changes[0]), changes[1..]);
    }
  }

  // ---------------------------------------------------------------------------
  // Merging and repairing composers
  // ---------------------------------------------------------------------------

  // A merge changes exactly the pieces its preview shows: they get the target and fresh
  // columns, and keep every other field.
  lemma MergeChangesItsPreview(rules: Rules, l: Library, owner: string, spellings: set<string>, target: string, id: Id)
    requires id in l.rows
    ensures var v, row := Next(rules, l, Merge(owner, spellings, target)), l.rows[id];
            && v.rows.Keys == l.rows.Keys && v.drafts == l.drafts
            && (id !in Selected(l.rows, owner, spellings) ==> v.rows[id] == row)
            && (id in Selected(l.rows, owner, spellings) ==>
                  && v.rows[id].fields == row.fields.(composer := target)
                  && v.rows[id].details == row.details && v.rows[id].status == row.status
                  && IndexFresh(rules, v.rows[id]) && id !in Stale(v.rows))
            && (target !in spellings ==> Selected(v.rows, owner, spellings) == {})
  {
    var v := Next(rules, l, Merge(owner, spellings, target));
    assert v.rows.Keys == l.rows.Keys;
  }

  predicate OnlyKeyChanged(row: Row, after: Row) {
    after == row.(sort := after.sort, sortSource := after.sortSource, sortVersion := after.sortVersion)
  }

  // A repair makes exactly its batch fresh and touches derived columns only; when the batch
  // is not full, no stale key is left.
  lemma RepairShrinksStale(rules: Rules, l: Library, batch: set<Id>)
    requires Enabled(l, Repair(batch))
    ensures var v := Next(rules, l, Repair(batch));
            && Stale(v.rows) == Stale(l.rows) - batch
            && (forall id :: id in l.rows ==> id in v.rows && OnlyKeyChanged(l.rows[id], v.rows[id]))
            && (batch == Stale(l.rows) ==> Stale(v.rows) == {})
  {
  }
}
