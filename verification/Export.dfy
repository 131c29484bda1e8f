/**
 The library export: streamLibrary and writeExportScore in internal/app/export.go.

 The snapshot is walked three times by identifier, a hundred records at a time, into one ZIP
 archive. Every query, write, read, context check, commit and close may fail, in any way the
 environment chooses; the export is all or nothing all the same.
 */
module Exports {
  import opened Wrappers
  import opened ExportPaths

  const PAGE_SIZE := 100
  const MAX_EMPTY_READS := 100
  const BUFFER_SIZE := 0x8000

  type Byte = b: int | 0 <= b < 256

  // What is known of a saved PDF; key is where its object is stored.
  datatype Pdf = Pdf(size: int, checksum: string, key: string)

  // A piece of the snapshot. Identifiers are ordered as the database orders them.
  datatype Record = Record(id: nat, title: string, short: Option<string>, details: string, pdf: Option<Pdf>)

  // A record as both metadata files list it: with the path of its score.
  datatype Item = Item(record: Record, path: Option<string>)

  datatype Entry = Metadata(name: string, items: seq<Item>, complete: bool) | Score(name: string, bytes: seq<Byte>)

  // The calls that end an export, and whether they succeeded.
  datatype Ending = Commit(ok: bool) | Close(ok: bool)

  // The parameters of an export: Unicode's category Cf, and the hexadecimal SHA-256 digest.
  datatype Rules = Rules(isFormat: char -> bool, sha: seq<Byte> -> string)

  // Sixty-four hexadecimal digits.
  predicate IsDigest(s: string) {
    |s| == 64 && forall i :: 0 <= i < 64 ==> '0' <= s[i] <= '9' || 'a' <= s[i] <= 'f' || 'A' <= s[i] <= 'F'
  }

  predicate IsSnapshot(records: seq<Record>) { forall i, j :: 0 <= i < j < |records| ==> records[i].id < records[j].id }

  // ---------------------------------------------------------------------------
  // Pages
  // ---------------------------------------------------------------------------

  // The records after the cursor, in order.
  function After(records: seq<Record>, cursor: Option<nat>): seq<Record> {
    if records == [] then []
    else
      var rest := After(records[1..], cursor);
      if cursor.None? || records[0].id > cursor.value then [records[0]] + rest else rest
  }

  function Page(records: seq<Record>, cursor: Option<nat>): seq<Record> {
    var after := After(records, cursor);
    if |after| <= PAGE_SIZE then after else after[..PAGE_SIZE]
  }

  lemma {:induction false} AfterIsRest(records: seq<Record>, k: nat)
    requires IsSnapshot(records) && 0 < k <= |records|
    ensures After(records, Some(records[k - 1].id)) == records[k..]
    decreases |records|
  {
    var cursor := Some(records[k - 1].id);
    if k > 1 {
      assert records[1..][k - 2] == records[k - 1] && records[1..][k - 1..] == records[k..];
      AfterIsRest(records[1..], k - 1);
    } else {
      AllAfter(records[1..], cursor);
    }
  }

  lemma {:induction false} AllAfter(records: seq<Record>, cursor: Option<nat>)
    requires cursor.None? || forall i :: 0 <= i < |records| ==> records[i].id > cursor.value
    ensures After(records, cursor) == records
    decreases |records|
  {
    if records != [] {
      AllAfter(records[1..], cursor);
    }
  }

  function Least(a: nat, b: nat): nat { if a < b then a else b }

  // The next hundred records of a snapshot, or all that are left.
  function PageAt(records: seq<Record>, k: nat): (page: seq<Record>)
    requires k <= |records|
    ensures k + |page| <= |records| && page == records[k..k + |page|] && |page| <= PAGE_SIZE
    ensures |page| < PAGE_SIZE ==> k + |page| == |records|
  {
    records[k..Least(k + PAGE_SIZE, |records|)]
  }

  // A page is the next hundred records of the snapshot.
  lemma PageIsNext(records: seq<Record>, k: nat)
    requires IsSnapshot(records) && k <= |records|
    ensures var cursor := if k == 0 then None else Some(records[k - 1].id);
            Page(records, cursor) == PageAt(records, k)
  {
    if k == 0 {
      AllAfter(records, None);
      assert records[0..] == records;
    } else {
      AfterIsRest(records, k);
    }
    assert |records[k..]| > PAGE_SIZE ==> records[k..][..PAGE_SIZE] == records[k..k + PAGE_SIZE];
    assert |records[k..]| <= PAGE_SIZE ==> records[k..] == records[k..|records|];
  }

  // ---------------------------------------------------------------------------
  // What a complete archive holds
  // ---------------------------------------------------------------------------

  function ItemAt(rules: Rules, records: seq<Record>, i: nat): Item
    requires i < |records|
  {
    var r := records[i];
    Item(r, if r.pdf.Some? then PathOf(r.title, r.short, i + 1, rules.isFormat) else None)
  }

  function Items(rules: Rules, records: seq<Record>, n: nat): (items: seq<Item>)
    requires n <= |records|
    ensures |items| == n
  {
    seq(n, i requires 0 <= i < n => ItemAt(rules, records, i))
  }

  // An exported score has its path and its recorded length and digest.
  predicate Verified(rules: Rules, e: Entry, item: Item) {
    && e.Score? && item.record.pdf.Some? && item.path == Some(e.name)
    && |e.bytes| == item.record.pdf.value.size && rules.sha(e.bytes) == item.record.pdf.value.checksum
  }

  // The scores of the first n records, in order, each verified.
  ghost predicate ScoresOf(rules: Rules, entries: seq<Entry>, records: seq<Record>, n: nat)
    requires n <= |records|
    decreases n
  {
    if n == 0 then entries == []
    else if records[n - 1].pdf.None? then ScoresOf(rules, entries, records, n - 1)
    else
      && entries != [] && Verified(rules, entries[|entries| - 1], ItemAt(rules, records, n - 1))
      && ScoresOf(rules, entries[..|entries| - 1], records, n - 1)
  }

  ghost predicate Complete(rules: Rules, entries: seq<Entry>, records: seq<Record>) {
    && |entries| >= 2
    && entries[0] == Metadata("library.json", Items(rules, records, |records|), true)
    && entries[1] == Metadata("pieces.csv", Items(rules, records, |records|), true)
    && ScoresOf(rules, entries[2..], records, |records|)
  }

  // ---------------------------------------------------------------------------
  // The environment
  // ---------------------------------------------------------------------------

  // Any call may fail.
  method Succeeds() returns (ok: bool) { ok := *; }

  datatype ReadEnd = More | AtEnd | Broken

  // A reader returns up to size bytes and says whether more may follow.
  method Read(size: nat) returns (chunk: seq<Byte>, end: ReadEnd)
    ensures |chunk| <= size
  {
    chunk, end := *, *;
    if |chunk| > size {
      chunk := chunk[..size];
    }
  }

  datatype Pass = JsonPass | CsvPass | ScorePass

  class Exporter {
    const rules: Rules
    const records: seq<Record>
    var entries: seq<Entry>
    var endings: seq<Ending>

    constructor (rules: Rules, records: seq<Record>)
      ensures this.rules == rules && this.records == records && entries == [] && endings == []
    {
      this.rules, this.records := rules, records;
      entries, endings := [], [];
    }

    // Copies one PDF, verifying length, end of file and digest.
    method WriteExportScore(item: Item) returns (ok: bool)
      requires item.record.pdf.Some? && item.path.Some?
      modifies this`entries
      ensures ok ==> |entries| == |old(entries)| + 1 && entries[..|old(entries)|] == old(entries)
                     && Verified(rules, entries[|old(entries)|], item)
    {
      var pdf := item.record.pdf.value;
      if pdf.size <= 0 || !IsDigest(pdf.checksum) {
        return false;
      }
      var found := Succeeds();
      if !found {
        return false;
      }
      var created := Succeeds();
      if !created {
        return false;
      }
      ghost var before := entries;
      entries := entries + [Score(item.path.value, [])];
      var bytes: seq<Byte> := [];
      var emptyReads := 0;
      while |bytes| < pdf.size
        invariant |bytes| <= pdf.size && emptyReads < MAX_EMPTY_READS
        invariant entries == before + [Score(item.path.value, bytes)]
        decreases pdf.size - |bytes|, MAX_EMPTY_READS - emptyReads
      {
        var live := Succeeds();
        if !live {
          return false;
        }
        var chunk, end := Read(Least(BUFFER_SIZE, pdf.size - |bytes|));
        live := Succeeds();
        if !live {
          return false;
        }
        if |chunk| > 0 {
          var written := Succeeds();
          if !written {
            return false;
          }
          bytes := bytes + chunk;
          entries := entries[..|entries| - 1] + [Score(item.path.value, bytes)];
          emptyReads := 0;
        } else {
          emptyReads := emptyReads + 1;
          if emptyReads >= MAX_EMPTY_READS {
            return false;
          }
        }
        if end != More {
          if end == AtEnd && |bytes| == pdf.size {
            break;
          }
          return false;
        }
      }
      for i := 0 to MAX_EMPTY_READS
        invariant |bytes| == pdf.size && entries == before + [Score(item.path.value, bytes)]
      {
        var live := Succeeds();
        if !live {
          return false;
        }
        var chunk, end := Read(1);
        if |chunk| != 0 {
          return false;
        }
        if end == AtEnd {
          if rules.sha(bytes) != pdf.checksum {
            return false;
          }
          ok := Succeeds();
          if ok {
            // The deferred close of the reader may fail too.
            ok := Succeeds();
          }
          return;
        }
        if end == Broken {
          return false;
        }
      }
      return false;
    }

    // What the entries are once a pass has visited the first n records.
    ghost predicate Visited(pass: Pass, start: seq<Entry>, n: nat)
      requires n <= |records|
      reads this
    {
      match pass
      case JsonPass => entries == start + [Metadata("library.json", Items(rules, records, n), false)]
      case CsvPass => entries == start + [Metadata("pieces.csv", Items(rules, records, n), false)]
      case ScorePass => |start| <= |entries| && entries[..|start|] == start && ScoresOf(rules, entries[|start|..], records, n)
    }

    method Visit(pass: Pass, item: Item, ghost start: seq<Entry>, ghost n: nat) returns (ok: bool)
      requires n < |records| && item == ItemAt(rules, records, n) && (item.record.pdf.Some? ==> item.path.Some?)
      requires Visited(pass, start, n)
      modifies this`entries
      ensures ok ==> Visited(pass, start, n + 1)
    {
      match pass {
        case JsonPass | CsvPass =>
          ok := Succeeds();
          if ok {
            var last := entries[|entries| - 1];
            entries := entries[..|entries| - 1] + [last.(items := last.items + [item])];
            assert Items(rules, records, n + 1) == Items(rules, records, n) + [item];
          }
        case ScorePass =>
          if item.record.pdf.None? {
            return true;
          }
          ghost var before := entries;
          ok := WriteExportScore(item);
          if ok {
            assert entries[|start|..][..|entries[|start|..]| - 1] == before[|start|..];
          }
      }
    }

    // Visits one page, which holds the records from `from` on.
    method WalkPage(pass: Pass, page: seq<Record>, from: nat, ghost start: seq<Entry>) returns (ok: bool)
      requires from + |page| <= |records| && page == records[from..from + |page|] && Visited(pass, start, from)
      modifies this`entries
      ensures ok ==> Visited(pass, start, from + |page|)
    {
      hide ScoresOf, Items, Visited;
      for i := 0 to |page|
        invariant Visited(pass, start, from + i)
      {
        var live := Succeeds();
        if !live {
          return false;
        }
        var r := page[i];
        var path := None;
        if r.pdf.Some? {
          path := ExportScorePath(r.title, r.short, from + i + 1, rules.isFormat);
          if path.None? {
            return false;
          }
        }
        assert r == records[from + i];
        var visited := Visit(pass, Item(r, path), start, from + i);
        if !visited {
          return false;
        }
      }
      return true;
    }

    // One walk over the snapshot. first is its first page, already read.
    method Walk(pass: Pass, first: seq<Record>, ghost start: seq<Entry>) returns (ok: bool)
      requires IsSnapshot(records) && first == Page(records, None) && Visited(pass, start, 0)
      modifies this`entries
      ensures ok ==> Visited(pass, start, |records|)
    {
      PageIsNext(records, 0);
      var page, ordinal: nat := first, 0;
      hide ScoresOf, Items, Visited, Page, PageAt;
      while true
        invariant ordinal <= |records| && page == PageAt(records, ordinal)
        invariant Visited(pass, start, ordinal)
        decreases |records| - ordinal + (if |page| < PAGE_SIZE then 0 else 1)
      {
        var walked := WalkPage(pass, page, ordinal, start);
        if !walked {
          return false;
        }
        ordinal := ordinal + |page|;
        if |page| < PAGE_SIZE {
          return true;
        }
        var queried := Succeeds();
        if !queried {
          return false;
        }
        PageIsNext(records, ordinal);
        page := Page(records, Some(page[|page| - 1].id));
      }
    }

    // Creates a metadata file, lists every record in it, and completes it.
    method WriteMetadata(pass: Pass, first: seq<Record>) returns (ok: bool)
      requires pass != ScorePass && IsSnapshot(records) && first == Page(records, None)
      modifies this`entries
      ensures ok ==> entries == old(entries) + [Metadata(if pass == JsonPass then "library.json" else "pieces.csv",
                                                         Items(rules, records, |records|), true)]
    {
      var created := Succeeds();
      if !created {
        return false;
      }
      ghost var start := entries;
      entries := entries + [Metadata(if pass == JsonPass then "library.json" else "pieces.csv", [], false)];
      assert Items(rules, records, 0) == [];
      var walked := Walk(pass, first, start);
      if !walked {
        return false;
      }
      var ended := Succeeds();
      if !ended {
        return false;
      }
      entries := entries[..|entries| - 1] + [entries[|entries| - 1].(complete := true)];
      return true;
    }

    // The three passes.
    method WriteArchive() returns (ok: bool)
      requires IsSnapshot(records) && entries == []
      modifies this`entries
      ensures ok ==> Complete(rules, entries, records)
    {
      var queried := Succeeds();
      if !queried {
        return false;
      }
      var first := Page(records, None);
      ok := WriteMetadata(JsonPass, first);
      if !ok {
        return;
      }
      ok := WriteMetadata(CsvPass, first);
      if !ok {
        return;
      }
      ok := Succeeds();
      if !ok {
        return;
      }
      ghost var start := entries;
      assert entries[|start|..] == [];
      ok := Walk(ScorePass, first, start);
      if ok {
        assert entries[0] == entries[..2][0] && entries[1] == entries[..2][1];
      }
    }

    // If the export succeeds the archive is complete and its snapshot was committed before
    // the archive was closed; if anything fails before the close, it is never closed.
    method StreamLibrary() returns (ok: bool)
      requires IsSnapshot(records) && entries == [] && endings == []
      modifies this
      ensures ok <==> endings == [Commit(true), Close(true)]
      ensures !ok ==> endings == [] || endings == [Commit(false)] || endings == [Commit(true), Close(false)]
      ensures Commit(true) in endings ==> Complete(rules, entries, records)
    {
      ok := WriteArchive();
      if !ok {
        return;
      }
      ok := Succeeds();
      if !ok {
        return;
      }
      ok := Succeeds();
      endings := [Commit(ok)];
      if !ok {
        return;
      }
      ok := Succeeds();
      endings := endings + [Close(ok)];
      assert endings == [Commit(true), Close(ok)];
    }
  }

  // ---------------------------------------------------------------------------
  // A complete archive
  // ---------------------------------------------------------------------------

  // Entry k of the scores is that of record i.
  ghost predicate IsScoreOf(rules: Rules, scores: seq<Entry>, k: nat, records: seq<Record>, i: nat) {
    k < |scores| && i < |records| && Verified(rules, scores[k], ItemAt(rules, records, i))
  }

  ghost predicate IsSomeScore(rules: Rules, scores: seq<Entry>, k: nat, records: seq<Record>, n: nat) {
    exists i: nat :: i < n && IsScoreOf(rules, scores, k, records, i)
  }

  // Every record with a PDF has its score in a complete archive, verified, and every score is
  // one of a record; scores come in the order of the records.
  lemma {:induction false} ScoresMatchRecords(rules: Rules, scores: seq<Entry>, records: seq<Record>, n: nat)
    requires n <= |records| && ScoresOf(rules, scores, records, n)
    ensures forall i: nat :: i < n && records[i].pdf.Some? ==> exists k: nat :: IsScoreOf(rules, scores, k, records, i)
    ensures forall k: nat :: k < |scores| ==> IsSomeScore(rules, scores, k, records, n)
    decreases n
  {
    if n > 0 {
      if records[n - 1].pdf.None? {
        ScoresMatchRecords(rules, scores, records, n - 1);
        forall k: nat | k < |scores|
          ensures IsSomeScore(rules, scores, k, records, n)
        {
          assert IsSomeScore(rules, scores, k, records, n - 1);
        }
      } else {
        var init := scores[..|scores| - 1];
        ScoresMatchRecords(rules, init, records, n - 1);
        assert IsScoreOf(rules, scores, |scores| - 1, records, n - 1);
        forall i: nat | i < n - 1 && records[i].pdf.Some?
          ensures exists k: nat :: IsScoreOf(rules, scores, k, records, i)
        {
          var k: nat :| IsScoreOf(rules, init, k, records, i);
          assert IsScoreOf(rules, scores, k, records, i);
        }
        forall k: nat | k < |scores|
          ensures IsSomeScore(rules, scores, k, records, n)
        {
          if k < |init| {
            assert IsSomeScore(rules, init, k, records, n - 1);
            var i: nat :| i < n - 1 && IsScoreOf(rules, init, k, records, i);
            assert IsScoreOf(rules, scores, k, records, i);
          } else {
            assert IsScoreOf(rules, scores, k, records, n - 1);
          }
        }
      }
    }
  }

  // A verified score is named by its record's path.
  predicate NamedBy(rules: Rules, name: string, records: seq<Record>, i: nat) {
    && i < |records| && records[i].short.Some?
    && name == ScorePath(BaseName(records[i].title, rules.isFormat), records[i].short.value, i + 1)
  }

  lemma ScoreIsNamed(rules: Rules, scores: seq<Entry>, k: nat, records: seq<Record>, i: nat)
    requires IsScoreOf(rules, scores, k, records, i)
    ensures NamedBy(rules, scores[k].name, records, i)
  {
    hide BaseName, ScorePath;
  }

  lemma NamesApart(rules: Rules, name: string, i: nat, other: string, j: nat, records: seq<Record>)
    requires NamedBy(rules, name, records, i) && NamedBy(rules, other, records, j) && i != j
    ensures name != other && name != "library.json" && name != "pieces.csv"
  {
    hide BaseName, ScorePath;
    PathsAreDistinct(BaseName(records[i].title, rules.isFormat), records[i].short.value, i + 1,
                     BaseName(records[j].title, rules.isFormat), records[j].short.value, j + 1);
  }

  lemma NoMetadataName(rules: Rules, name: string, i: nat, records: seq<Record>)
    requires NamedBy(rules, name, records, i)
    ensures name != "library.json" && name != "pieces.csv"
  {
    hide BaseName, ScorePath;
    var base, short := BaseName(records[i].title, rules.isFormat), records[i].short.value;
    PathsAreDistinct(base, short, i + 1, base, short, i + 2);
  }

  lemma {:induction false} ScoreNamesAreDistinct(rules: Rules, scores: seq<Entry>, records: seq<Record>, n: nat)
    requires n <= |records| && ScoresOf(rules, scores, records, n)
    ensures forall j, k :: 0 <= j < k < |scores| ==> scores[j].name != scores[k].name
    ensures forall k :: 0 <= k < |scores| ==> scores[k].name != "library.json" && scores[k].name != "pieces.csv"
    decreases n
  {
    hide NamedBy, ItemAt, Verified;
    if n > 0 {
      if records[n - 1].pdf.None? {
        ScoreNamesAreDistinct(rules, scores, records, n - 1);
      } else {
        var last := |scores| - 1;
        var init := scores[..last];
        ScoreNamesAreDistinct(rules, init, records, n - 1);
        ScoresMatchRecords(rules, init, records, n - 1);
        ScoreIsNamed(rules, scores, last, records, n - 1);
        forall k: nat | k < |init|
          ensures init[k].name != scores[last].name
        {
          assert IsSomeScore(rules, init, k, records, n - 1);
          var i: nat :| i < n - 1 && IsScoreOf(rules, init, k, records, i);
          ScoreIsNamed(rules, init, k, records, i);
          NamesApart(rules, init[k].name, i, scores[last].name, n - 1, records);
        }
        NoMetadataName(rules, scores[last].name, n - 1, records);
      }
    }
  }

  // The names in a complete archive are pairwise distinct.
  lemma NamesAreDistinct(rules: Rules, entries: seq<Entry>, records: seq<Record>)
    requires Complete(rules, entries, records)
    ensures forall j, k :: 0 <= j < k < |entries| ==> entries[j].name != entries[k].name
  {
    hide ScoresOf, Items;
    ScoreNamesAreDistinct(rules, entries[2..], records, |records|);
    forall j, k | 0 <= j < k < |entries|
      ensures entries[j].name != entries[k].name
    {
      if k >= 2 {
        assert entries[k] == entries[2..][k - 2];
        if j >= 2 {
          assert entries[j] == entries[2..][j - 2];
        }
      }
    }
  }
}
