/**
 The composer list and its maintenance: ListComposers, RepairComposerKeys and MergeComposers
 in internal/app/composers.go, loop by loop, proved against the rows of LibraryRows.

 A fingerprint stands for what it is a digest of: the owner, the target, the selected
 spellings, and the pieces they select with their names.
 */
module Composers {
  import opened Wrappers
  import opened LibraryRows
  import S = SearchStrings

  // ---------------------------------------------------------------------------
  // Order
  // ---------------------------------------------------------------------------

  // strings.Compare(a, b) < 0.
  predicate Less(a: string, b: string) {
    b != "" && (a == "" || a[0] < b[0] || (a[0] == b[0] && Less(a[1..], b[1..])))
  }

  lemma {:induction false} LessIsTotal(a: string, b: string)
    ensures Less(a, b) || Less(b, a) || a == b
    ensures a == b ==> !Less(a, b)
    decreases |a|
  {
    if a != "" && b != "" && a[0] == b[0] {
      LessIsTotal(a[1..], b[1..]);
      assert a == [a[0]] + a[1..] && b == [b[0]] + b[1..];
    }
  }

  lemma {:induction false} LessIsStrict(a: string, b: string)
    requires Less(a, b)
    ensures !Less(b, a)
    decreases |a|
  {
    if a != "" && a[0] == b[0] {
      LessIsStrict(a[1..], b[1..]);
    }
  }

  lemma {:induction false} LessIsTransitive(a: string, b: string, c: string)
    requires Less(a, b) && Less(b, c)
    ensures Less(a, c)
    decreases |a|
  {
    if a != "" && a[0] == b[0] == c[0] {
      LessIsTransitive(a[1..], b[1..], c[1..]);
    }
  }

  // ---------------------------------------------------------------------------
  // The list
  // ---------------------------------------------------------------------------

  datatype Piece = Piece(id: Id, title: string, composer: string, hasPdf: bool)

  // A row as the list reads it.
  datatype Read = Read(piece: Piece, sort: string, sortSource: string, sortVersion: nat)

  datatype Entry = Entry(name: string, key: string, group: string, count: nat, pieces: seq<Piece>)

  // What stands before the first space of a key.
  function Group(key: string): string {
    if key == "" || key[0] == ' ' then "" else [key[0]] + Group(key[1..])
  }

  predicate Before(a: Entry, b: Entry) {
    if (a.group == "") != (b.group == "") then b.group == ""
    else Less(a.key, b.key) || (a.key == b.key && Less(a.name, b.name))
  }

  lemma BeforeIsTotal(a: Entry, b: Entry)
    ensures a.name != b.name ==> Before(a, b) || Before(b, a)
  {
    LessIsTotal(a.key, b.key);
    LessIsTotal(a.name, b.name);
  }

  lemma BeforeIsTransitive(a: Entry, b: Entry, c: Entry)
    requires Before(a, b) && Before(b, c)
    ensures Before(a, c)
  {
    if (a.group == "") == (b.group == "") == (c.group == "") {
      if Less(a.key, b.key) && Less(b.key, c.key) {
        LessIsTransitive(a.key, b.key, c.key);
      } else if a.key == b.key == c.key {
        LessIsTransitive(a.name, b.name, c.name);
      }
    }
  }

  function PiecesOf(rows: seq<Read>, name: string): seq<Piece> {
    if rows == [] then []
    else
      var last := rows[|rows| - 1];
      PiecesOf(rows[..|rows| - 1], name) + if last.piece.composer == name then [last.piece] else []
  }

  predicate Names(rows: seq<Read>, name: string) { exists i :: 0 <= i < |rows| && rows[i].piece.composer == name }

  // The entry computed fresh from the rows.
  function Fresh(rules: Rules, rows: seq<Read>, name: string): Entry {
    var key, pieces := rules.sortKey(name), PiecesOf(rows, name);
    Entry(name, key, Group(key), |pieces|, pieces)
  }

  predicate Honest(rules: Rules, r: Read) { r.sortVersion == KEY_VERSION ==> r.sort == rules.sortKey(r.sortSource) }

  predicate Listed(entries: seq<Entry>, name: string) { exists i :: 0 <= i < |entries| && entries[i].name == name }

  // One fresh entry for each composer.
  ghost predicate AllFresh(rules: Rules, rows: seq<Read>, entries: seq<Entry>) {
    && (forall i :: 0 <= i < |entries| ==> entries[i] == Fresh(rules, rows, entries[i].name))
    && (forall i, j :: 0 <= i < j < |entries| ==> entries[i].name != entries[j].name)
    && (forall name :: Listed(entries, name) <==> Names(rows, name))
  }

  ghost predicate Indexed(entries: seq<Entry>, indexes: map<string, nat>) {
    && (forall name :: name in indexes ==> indexes[name] < |entries| && entries[indexes[name]].name == name)
    && (forall i :: 0 <= i < |entries| ==> entries[i].name in indexes && indexes[entries[i].name] == i)
  }

  // One row more changes the entry of its composer only.
  lemma FreshWithOneMore(rules: Rules, rows: seq<Read>, r: Read, name: string)
    ensures name != r.piece.composer ==> Fresh(rules, rows + [r], name) == Fresh(rules, rows, name)
    ensures name == r.piece.composer ==>
              var e := Fresh(rules, rows, name);
              Fresh(rules, rows + [r], name) == e.(count := e.count + 1, pieces := e.pieces + [r.piece])
    ensures Names(rows + [r], name) <==> Names(rows, name) || name == r.piece.composer
  {
  }

  lemma {:induction false} UnnamedHasNoPieces(rows: seq<Read>, name: string)
    requires !Names(rows, name)
    ensures PiecesOf(rows, name) == []
    decreases |rows|
  {
    if rows != [] {
      assert !Names(rows[..|rows| - 1], name);
      UnnamedHasNoPieces(rows[..|rows| - 1], name);
      assert rows[|rows| - 1].piece.composer != name;
    }
  }

  // The entries after one more row, when its composer has an entry and when it has none.
  lemma RowAddsToEntry(rules: Rules, rows: seq<Read>, r: Read, entries: seq<Entry>, next: seq<Entry>, i: nat)
    requires AllFresh(rules, rows, entries) && i < |entries| && entries[i].name == r.piece.composer
    requires next == entries[i := entries[i].(count := entries[i].count + 1, pieces := entries[i].pieces + [r.piece])]
    ensures AllFresh(rules, rows + [r], next)
  {
    hide Fresh, Names;
    forall j | 0 <= j < |next|
      ensures next[j] == Fresh(rules, rows + [r], next[j].name)
    {
      FreshWithOneMore(rules, rows, r, entries[j].name);
    }
    assert forall j :: 0 <= j < |next| ==> next[j].name == entries[j].name;
    forall name
      ensures Listed(next, name) <==> Names(rows + [r], name)
    {
      FreshWithOneMore(rules, rows, r, name);
      assert Listed(entries, name) <==> Names(rows, name);
    }
  }

  lemma RowAddsEntry(rules: Rules, rows: seq<Read>, r: Read, entries: seq<Entry>, next: seq<Entry>)
    requires AllFresh(rules, rows, entries) && !Listed(entries, r.piece.composer)
    requires var key := rules.sortKey(r.piece.composer);
             next == entries + [Entry(r.piece.composer, key, Group(key), 1, [r.piece])]
    ensures AllFresh(rules, rows + [r], next)
  {
    var name := r.piece.composer;
    UnnamedHasNoPieces(rows, name);
    FirstOfComposer(rules, rows, r);
    hide Fresh, Names, Group;
    assert forall j :: 0 <= j < |entries| ==> next[j] == entries[j];
    forall j | 0 <= j < |next|
      ensures next[j] == Fresh(rules, rows + [r], next[j].name)
    {
      FreshWithOneMore(rules, rows, r, next[j].name);
    }
    forall other
      ensures Listed(next, other) <==> Names(rows + [r], other)
    {
      FreshWithOneMore(rules, rows, r, other);
      assert Listed(entries, other) <==> Names(rows, other);
      assert next[|entries|].name == name;
    }
  }

  lemma {:induction false} FirstOfComposer(rules: Rules, rows: seq<Read>, r: Read)
    requires PiecesOf(rows, r.piece.composer) == []
    ensures var key := rules.sortKey(r.piece.composer);
            Fresh(rules, rows + [r], r.piece.composer) == Entry(r.piece.composer, key, Group(key), 1, [r.piece])
  {
  }

  ghost predicate SortedEntries(entries: seq<Entry>) {
    forall i, j :: 0 <= i < j < |entries| ==> Before(entries[i], entries[j])
  }

  ghost predicate Distinct(entries: seq<Entry>) {
    forall i, j :: 0 <= i < j < |entries| ==> entries[i].name != entries[j].name
  }

  // The built-in sort, on entries of distinct names.
  function InsertEntry(entries: seq<Entry>, e: Entry): (r: seq<Entry>)
    requires SortedEntries(entries) && forall i :: 0 <= i < |entries| ==> entries[i].name != e.name
    ensures SortedEntries(r) && |r| == |entries| + 1 && forall x :: x in r <==> x in entries || x == e
  {
    if entries == [] then [e]
    else
      var init, last := entries[..|entries| - 1], entries[|entries| - 1];
      assert forall x :: x in entries <==> x in init || x == last;
      if Before(last, e) then
        assert forall i :: 0 <= i < |init| ==> Before(init[i], e) by {
          forall i | 0 <= i < |init|
            ensures Before(init[i], e)
          {
            BeforeIsTransitive(init[i], last, e);
          }
        }
        entries + [e]
      else
        BeforeIsTotal(last, e);
        var rest := InsertEntry(init, e);
        assert forall i :: 0 <= i < |rest| ==> rest[i] in rest;
        assert forall x :: x in init ==> Before(x, last);
        rest + [last]
  }

  function SortEntries(entries: seq<Entry>): (r: seq<Entry>)
    requires Distinct(entries)
    ensures SortedEntries(r) && |r| == |entries| && forall x :: x in r <==> x in entries
  {
    if entries == [] then []
    else
      var init, last := entries[..|entries| - 1], entries[|entries| - 1];
      assert forall x :: x in entries <==> x in init || x == last;
      var sorted := SortEntries(init);
      assert forall i :: 0 <= i < |sorted| ==> sorted[i] in init;
      InsertEntry(sorted, last)
  }

  method GroupByComposer(rules: Rules, rows: seq<Read>) returns (entries: seq<Entry>)
    requires forall k :: 0 <= k < |rows| ==> Honest(rules, rows[k])
    ensures AllFresh(rules, rows, entries)
  {
    hide AllFresh;
    entries := [];
    var indexes: map<string, nat> := map[];
    assert AllFresh(rules, [], []) by {
      NoRowsNoEntries(rules);
    }
    for k := 0 to |rows|
      invariant AllFresh(rules, rows[..k], entries) && Indexed(entries, indexes)
    {
      var r := rows[k];
      assert rows[..k + 1] == rows[..k] + [r] && Honest(rules, r);
      var key := r.sort;
      if r.sortVersion != KEY_VERSION || r.sortSource != r.piece.composer {
        key := rules.sortKey(r.piece.composer);
      }
      ghost var before := entries;
      if r.piece.composer !in indexes {
        indexes := indexes[r.piece.composer := |entries|];
        entries := entries + [Entry(r.piece.composer, key, Group(key), 0, [])];
        var i := indexes[r.piece.composer];
        entries := entries[i := entries[i].(count := entries[i].count + 1, pieces := entries[i].pieces + [r.piece])];
        assert [] + [r.piece] == [r.piece];
        assert entries == before + [Entry(r.piece.composer, key, Group(key), 1, [r.piece])];
        RowAddsEntry(rules, rows[..k], r, before, entries);
      } else {
        var i := indexes[r.piece.composer];
        entries := entries[i := entries[i].(count := entries[i].count + 1, pieces := entries[i].pieces + [r.piece])];
        RowAddsToEntry(rules, rows[..k], r, before, entries, i);
      }
    }
    assert rows[..|rows|] == rows;
  }

  lemma NoRowsNoEntries(rules: Rules)
    ensures AllFresh(rules, [], [])
  {
  }

  lemma SortedIsFresh(rules: Rules, rows: seq<Read>, entries: seq<Entry>, sorted: seq<Entry>)
    requires AllFresh(rules, rows, entries) && SortedEntries(sorted) && forall x :: x in sorted <==> x in entries
    ensures AllFresh(rules, rows, sorted)
  {
    forall i | 0 <= i < |sorted|
      ensures sorted[i] == Fresh(rules, rows, sorted[i].name)
    {
      assert sorted[i] in entries;
    }
    SortedNamesApart(rules, rows, sorted);
    forall name
      ensures Listed(sorted, name) <==> Listed(entries, name)
    {
      if i :| 0 <= i < |entries| && entries[i].name == name {
        assert entries[i] in sorted;
      }
      if i :| 0 <= i < |sorted| && sorted[i].name == name {
        assert sorted[i] in entries;
      }
    }
  }

  // Fresh entries in strict order have distinct names.
  lemma SortedNamesApart(rules: Rules, rows: seq<Read>, sorted: seq<Entry>)
    requires SortedEntries(sorted) && forall i :: 0 <= i < |sorted| ==> sorted[i] == Fresh(rules, rows, sorted[i].name)
    ensures Distinct(sorted)
  {
    forall i, j | 0 <= i < j < |sorted|
      ensures sorted[i].name != sorted[j].name
    {
      LessIsTotal(sorted[i].key, sorted[j].key);
      LessIsTotal(sorted[i].name, sorted[j].name);
    }
  }

  // However stale the stored keys, the list is the one computed fresh from the rows: one
  // entry for each exact spelling, its pieces in order, in the order of fresh keys.
  method ListComposers(rules: Rules, rows: seq<Read>) returns (entries: seq<Entry>)
    requires forall k :: 0 <= k < |rows| ==> Honest(rules, rows[k])
    ensures AllFresh(rules, rows, entries) && SortedEntries(entries)
  {
    var grouped := GroupByComposer(rules, rows);
    entries := SortEntries(grouped);
    SortedIsFresh(rules, rows, grouped, entries);
  }

  // Two lists computed fresh from the same rows are the same list.
  lemma ListIsUnique(rules: Rules, rows: seq<Read>, a: seq<Entry>, b: seq<Entry>)
    requires AllFresh(rules, rows, a) && SortedEntries(a) && AllFresh(rules, rows, b) && SortedEntries(b)
    ensures a == b
  {
    hide AllFresh, Before;
    forall x
      ensures x in a <==> x in b
    {
      if x in a {
        InEither(rules, rows, a, b, x);
      }
      if x in b {
        InEither(rules, rows, b, a, x);
      }
    }
    SameSorted(a, b);
  }

  lemma BeforeIsStrict(a: Entry, b: Entry)
    ensures Before(a, b) ==> !Before(b, a)
  {
    if Less(a.key, b.key) {
      LessIsStrict(a.key, b.key);
    }
    if Less(a.name, b.name) {
      LessIsStrict(a.name, b.name);
    }
    LessIsTotal(a.key, b.key);
  }

  // A strictly sorted list is determined by its entries.
  lemma {:induction false} SameSorted(a: seq<Entry>, b: seq<Entry>)
    requires SortedEntries(a) && SortedEntries(b) && forall x :: x in a <==> x in b
    ensures a == b
    decreases |a|
  {
    hide Before;
    assert b != [] ==> b[0] in a;
    if a != [] {
      assert a[0] in b;
      HeadsAgree(a, b);
      RestAgrees(a, b);
      SameSorted(a[1..], b[1..]);
      assert a == [a[0]] + a[1..] && b == [b[0]] + b[1..];
    }
  }

  lemma HeadsAgree(a: seq<Entry>, b: seq<Entry>)
    requires SortedEntries(a) && SortedEntries(b) && a != [] && b != [] && a[0] in b && b[0] in a
    ensures a[0] == b[0]
  {
    hide Before;
    var i :| 0 <= i < |b| && b[i] == a[0];
    var j :| 0 <= j < |a| && a[j] == b[0];
    assert i > 0 ==> Before(b[0], b[i]);
    assert j > 0 ==> Before(a[0], a[j]);
    BeforeIsStrict(a[0], b[0]);
  }

  lemma RestAgrees(a: seq<Entry>, b: seq<Entry>)
    requires SortedEntries(a) && SortedEntries(b) && a != [] && b != [] && a[0] == b[0] && forall x :: x in a <==> x in b
    ensures SortedEntries(a[1..]) && SortedEntries(b[1..]) && forall x :: x in a[1..] <==> x in b[1..]
  {
    hide Before;
    forall x
      ensures x in a[1..] <==> x in a && x != a[0]
      ensures x in b[1..] <==> x in b && x != b[0]
    {
      BeforeIsStrict(x, x);
    }
  }

  lemma InEither(rules: Rules, rows: seq<Read>, a: seq<Entry>, b: seq<Entry>, x: Entry)
    requires AllFresh(rules, rows, a) && AllFresh(rules, rows, b) && x in a
    ensures x in b
  {
    assert Listed(a, x.name) && Names(rows, x.name) && Listed(b, x.name);
    var i :| 0 <= i < |b| && b[i].name == x.name;
    assert b[i] == Fresh(rules, rows, x.name) == x;
  }

  // ---------------------------------------------------------------------------
  // The list of a library
  // ---------------------------------------------------------------------------

  function ReadOf(id: Id, row: Row, hasPdf: bool): Read {
    Read(Piece(id, row.fields.title, row.fields.composer, hasPdf), row.sort, row.sortSource, row.sortVersion)
  }

  // What the query reads of an owner's rows, in whatever order: each of them once.
  ghost predicate ReadsOwner(rows: map<Id, Row>, owner: string, pdfs: set<Id>, found: seq<Read>) {
    && (forall k :: 0 <= k < |found| ==>
          var id := found[k].piece.id;
          id in rows && rows[id].owner == owner && found[k] == ReadOf(id, rows[id], id in pdfs))
    && (forall k, n :: 0 <= k < n < |found| ==> found[k].piece.id != found[n].piece.id)
    && (forall id :: id in rows && rows[id].owner == owner ==> exists k :: 0 <= k < |found| && found[k].piece.id == id)
  }

  // In any run, whatever old replicas wrote, the rows ListComposers reads can be trusted.
  lemma {:induction false} ReadsAreHonest(rules: Rules, l: Library, changes: seq<Change>, owner: string, pdfs: set<Id>, found: seq<Read>)
    requires KeysHonest(rules, l) && ReadsOwner(Run(rules, l, changes).rows, owner, pdfs, found)
    ensures forall k :: 0 <= k < |found| ==> Honest(rules, found[k])
  {
    hide Run;
    RunKeepsKeysHonest(rules, l, changes);
    var rows := Run(rules, l, changes).rows;
    forall k | 0 <= k < |found|
      ensures Honest(rules, found[k])
    {
      assert KeyHonest(rules, rows[found[k].piece.id]);
    }
  }

  predicate DistinctIds(pieces: seq<Piece>) { forall i, j :: 0 <= i < j < |pieces| ==> pieces[i].id != pieces[j].id }

  function IdsOf(pieces: seq<Piece>): set<Id> { set i | 0 <= i < |pieces| :: pieces[i].id }

  lemma {:induction false} PiecesOfHas(found: seq<Read>, name: string, p: Piece)
    ensures p in PiecesOf(found, name) <==> exists k :: 0 <= k < |found| && found[k].piece == p && p.composer == name
    decreases |found|
  {
    if found != [] {
      var init, last := found[..|found| - 1], found[|found| - 1];
      PiecesOfHas(init, name, p);
      assert p in PiecesOf(found, name) <==> p in PiecesOf(init, name) || (last.piece == p && p.composer == name);
      if k :| 0 <= k < |init| && init[k].piece == p {
        assert found[k].piece == p;
      }
    }
  }

  lemma {:induction false} PiecesApart(found: seq<Read>, name: string)
    requires forall k, n :: 0 <= k < n < |found| ==> found[k].piece.id != found[n].piece.id
    ensures DistinctIds(PiecesOf(found, name))
    decreases |found|
  {
    if found != [] {
      var init, last := found[..|found| - 1], found[|found| - 1];
      PiecesApart(init, name);
      forall p | p in PiecesOf(init, name)
        ensures p.id != last.piece.id
      {
        PiecesOfHas(init, name, p);
      }
      assert forall i :: 0 <= i < |PiecesOf(init, name)| ==> PiecesOf(init, name)[i] in PiecesOf(init, name);
    }
  }

  lemma {:induction false} IdsCount(pieces: seq<Piece>)
    requires DistinctIds(pieces)
    ensures |IdsOf(pieces)| == |pieces|
    decreases |pieces|
  {
    if pieces != [] {
      var init, last := pieces[..|pieces| - 1], pieces[|pieces| - 1];
      IdsCount(init);
      assert IdsOf(pieces) == IdsOf(init) + {last.id};
      assert last.id !in IdsOf(init);
    } else {
      assert IdsOf(pieces) == {};
    }
  }

  // The entry of a spelling shows exactly the pieces that merging it would change.
  lemma EntryShowsSelection(rules: Rules, rows: map<Id, Row>, owner: string, pdfs: set<Id>, found: seq<Read>,
                            entries: seq<Entry>, i: nat)
    requires ReadsOwner(rows, owner, pdfs, found) && AllFresh(rules, found, entries) && i < |entries|
    ensures IdsOf(entries[i].pieces) == Selected(rows, owner, {entries[i].name})
    ensures entries[i].count == |Selected(rows, owner, {entries[i].name})|
    ensures entries[i].key == rules.sortKey(entries[i].name)
  {
    var name, pieces := entries[i].name, PiecesOf(found, entries[i].name);
    assert entries[i] == Fresh(rules, found, name);
    PiecesApart(found, name);
    IdsCount(pieces);
    forall id
      ensures id in IdsOf(pieces) <==> id in Selected(rows, owner, {name})
    {
      if id in IdsOf(pieces) {
        var k :| 0 <= k < |pieces| && pieces[k].id == id;
        PiecesOfHas(found, name, pieces[k]);
      }
      if id in Selected(rows, owner, {name}) {
        var k :| 0 <= k < |found| && found[k].piece.id == id;
        PiecesOfHas(found, name, found[k].piece);
        var n :| 0 <= n < |pieces| && pieces[n] == found[k].piece;
        assert pieces[n].id in IdsOf(pieces);
      }
    }
  }

  // ---------------------------------------------------------------------------
  // Merging and repairing
  // ---------------------------------------------------------------------------

  datatype Fingerprint = Fingerprint(owner: string, target: string, spellings: set<string>, pieces: set<(Id, string)>)

  function NamesOf(rows: map<Id, Row>, ids: set<Id>): set<(Id, string)>
    requires ids <= rows.Keys
  {
    set id | id in ids :: (id, rows[id].fields.composer)
  }

  // What a preview of a merge shows, unless a selected spelling is no longer in use.
  function Preview(rows: map<Id, Row>, owner: string, spellings: set<string>, target: string): Option<Fingerprint> {
    var ids := Selected(rows, owner, spellings);
    if exists name :: name in spellings && forall id :: id in ids ==> rows[id].fields.composer != name then None
    else Some(Fingerprint(owner, target, spellings, NamesOf(rows, ids)))
  }

  const MAX_SPELLINGS := 100

  datatype MergeResult = Merged | InvalidMerge | ComposerChanged

  function Spellings(given: seq<string>): set<string> { set name | name in given }

  // What a merge is answered; fits says that spellings and target pass their checks of length
  // and encoding, and that a fingerprint was sent.
  function MergeAnswer(rows: map<Id, Row>, owner: string, given: seq<string>, wanted: string, fits: bool,
                       fingerprint: Fingerprint): MergeResult {
    if !(1 <= |given| <= MAX_SPELLINGS) || !fits || S.TrimSpace(wanted) == "" then InvalidMerge
    else if Preview(rows, owner, Spellings(given), S.TrimSpace(wanted)) != Some(fingerprint) then ComposerChanged
    else Merged
  }

  // A merge accepted with a reviewed fingerprint changes exactly the pieces that were shown,
  // each still spelled as it was shown.
  lemma MergeIsReviewed(before: map<Id, Row>, after: map<Id, Row>, owner: string, spellings: set<string>, target: string)
    requires Preview(before, owner, spellings, target).Some?
    requires Preview(before, owner, spellings, target) == Preview(after, owner, spellings, target)
    ensures Selected(before, owner, spellings) == Selected(after, owner, spellings)
    ensures forall id :: id in Selected(before, owner, spellings) ==>
              after[id].fields.composer == before[id].fields.composer
  {
    var ids, later := Selected(before, owner, spellings), Selected(after, owner, spellings);
    assert NamesOf(before, ids) == NamesOf(after, later);
    forall id | id in ids
      ensures id in later && after[id].fields.composer == before[id].fields.composer
    {
      assert (id, before[id].fields.composer) in NamesOf(after, later);
    }
    forall id | id in later
      ensures id in ids
    {
      assert (id, after[id].fields.composer) in NamesOf(before, ids);
    }
  }

  class ComposerStore {
    const rules: Rules
    var rows: map<Id, Row>

    constructor (rules: Rules, rows: map<Id, Row>)
      ensures this.rules == rules && this.rows == rows
    {
      this.rules, this.rows := rules, rows;
    }

    // batch holds the stale rows read and locked, at most 250 of them.
    method RepairComposerKeys(batch: seq<Id>) returns (count: nat)
      requires |batch| <= REPAIR_BATCH && forall i :: 0 <= i < |batch| ==> batch[i] in Stale(rows)
      requires forall i, j :: 0 <= i < j < |batch| ==> batch[i] != batch[j]
      modifies this
      ensures count == |batch|
      ensures rows == map id | id in old(rows) :: if id in batch then Repaired(rules, old(rows)[id]) else old(rows)[id]
    {
      var tx := rows;
      for i := 0 to |batch|
        invariant tx.Keys == rows.Keys
        invariant forall id :: id in tx ==> tx[id] == if id in batch[..i] then Repaired(rules, rows[id]) else rows[id]
      {
        var name := tx[batch[i]].fields.composer;
        tx := tx[batch[i] := tx[batch[i]].(sort := rules.sortKey(name), sortSource := name, sortVersion := KEY_VERSION)];
        assert batch[..i + 1] == batch[..i] + [batch[i]];
      }
      assert batch[..|batch|] == batch;
      rows := tx;
      return |batch|;
    }

    // Invalid for no spelling or more than a hundred, or an empty target; refused when the
    // selection is no longer the one reviewed. given are the spellings as asked for, in any
    // order and perhaps more than once.
    method MergeComposers(owner: string, given: seq<string>, wanted: string, fits: bool, fingerprint: Fingerprint)
      returns (result: MergeResult)
      modifies this
      ensures result == MergeAnswer(old(rows), owner, given, wanted, fits, fingerprint)
      ensures !result.Merged? ==> rows == old(rows)
      ensures result.Merged? ==>
                var merge := Merge(owner, Spellings(given), S.TrimSpace(wanted));
                && Enabled(Library(old(rows), map[]), merge)
                && rows == Next(rules, Library(old(rows), map[]), merge).rows
    {
      if |given| < 1 || |given| > MAX_SPELLINGS || !fits {
        return InvalidMerge;
      }
      var spellings, target := Spellings(given), S.TrimSpace(wanted);
      if target == "" {
        return InvalidMerge;
      }
      TrimTwice(wanted);
      hide SearchText, Preview, S.TrimSpace;
      var preview := Preview(rows, owner, spellings, target);
      if preview.None? || preview.value != fingerprint {
        return ComposerChanged;
      }
      var tx := MergedRows(owner, spellings, target);
      rows := tx;
      return Merged;
    }

    // The UPDATE of each selected piece.
    method MergedRows(owner: string, spellings: set<string>, target: string) returns (tx: map<Id, Row>)
      ensures tx == Next(rules, Library(rows, map[]), Merge(owner, spellings, target)).rows
    {
      hide SearchText;
      var selected, left := Selected(rows, owner, spellings), Selected(rows, owner, spellings);
      tx := rows;
      while left != {}
        invariant tx.Keys == rows.Keys && left <= selected
        invariant forall id :: id in tx ==>
                    tx[id] == if id in selected && id !in left then WithComposer(rules, rows[id], target) else rows[id]
        decreases |left|
      {
        var id :| id in left;
        var row := tx[id];
        var fields := row.fields.(composer := target);
        tx := tx[id := row.(fields := fields, sort := rules.sortKey(target), sortSource := target,
                            sortVersion := KEY_VERSION, search := SearchText(rules, fields, row.details))];
        left := left - {id};
      }
    }
  }
}
