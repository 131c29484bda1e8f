/**
 Search highlighting: matchParts in web/src/app/features/library/library.utils.ts.

 The ranges a search collects from a row's text are united into alternating marked and
 unmarked parts. The main results: the parts are the text, cut exactly at the boundary of
 the collected ranges, and the search for a term ends exactly when the term is not empty.
 */
module Highlights {
  import opened FoldOffsets
  import P = SearchParser

  // ---------------------------------------------------------------------------
  // indexOf
  // ---------------------------------------------------------------------------

  predicate Occurs(s: Units, w: Units, at: nat) { at + |w| <= |s| && s[at..at + |w|] == w }

  // JavaScript's indexOf: -1 if there is none; an empty word is found at any position, and
  // at the end from beyond it.
  function IndexOf(s: Units, w: Units, from: nat): (at: int)
    ensures -1 <= at <= |s|
    ensures at >= 0 ==> Occurs(s, w, at) && (from <= at || at == |s|)
    ensures w != [] && at >= 0 ==> from <= at && forall k: nat :: from <= k < at ==> !Occurs(s, w, k)
    ensures at < 0 ==> forall k: nat :: from <= k ==> !Occurs(s, w, k)
    decreases |s| - from
  {
    if from > |s| then if w == [] then |s| else -1
    else if Occurs(s, w, from) then from
    else if from == |s| then -1
    else IndexOf(s, w, from + 1)
  }

  // The position the search loop is at after n turns, -1 once it has ended.
  function Turn(s: Units, w: Units, n: nat): (at: int)
    ensures -1 <= at <= |s|
  {
    if n == 0 then IndexOf(s, w, 0)
    else
      var at := Turn(s, w, n - 1);
      if at < 0 then -1 else IndexOf(s, w, at + 1)
  }

  lemma {:induction false} EmptyWordNeverEnds(s: Units, n: nat)
    ensures Turn(s, [], n) >= 0
  {
    if n > 0 {
      EmptyWordNeverEnds(s, n - 1);
      var at := Turn(s, [], n - 1) + 1;
      if at <= |s| {
        assert s[at..at] == [];
        assert Occurs(s, [], at);
      }
    } else {
      assert s[0..0] == [];
      assert Occurs(s, [], 0);
    }
  }

  lemma {:induction false} WordMovesOn(s: Units, w: Units, n: nat)
    requires w != []
    ensures Turn(s, w, n) < 0 || Turn(s, w, n) >= n
  {
    hide Occurs, IndexOf;
    if n > 0 {
      WordMovesOn(s, w, n - 1);
    }
  }

  // The loop over the places of a term ends exactly when the term is not empty.
  lemma SearchEndsExactlyWhen(s: Units, w: Units)
    ensures (exists n :: Turn(s, w, n) < 0) <==> w != []
  {
    if w == [] {
      forall n: nat
        ensures Turn(s, w, n) >= 0
      {
        EmptyWordNeverEnds(s, n);
      }
    } else {
      WordMovesOn(s, w, |s| + 1);
      assert Turn(s, w, |s| + 1) < 0;
    }
  }

  // ---------------------------------------------------------------------------
  // The places of a term
  // ---------------------------------------------------------------------------

  predicate IsGap(s: Units, at: int) { at < 0 || at >= |s| || s[at] == SPACE }

  // The term starts a word here; a letter alone must be a word of its own.
  predicate StartsWord(s: Units, w: Units, at: nat) {
    Occurs(s, w, at) && IsGap(s, at - 1) && (|w| == 1 ==> IsGap(s, at + 1))
  }

  ghost predicate StartsSomeWord(s: Units, w: Units) { exists at: nat :: StartsWord(s, w, at) }

  predicate FirstPlace(s: Units, w: Units, at: nat) {
    Occurs(s, w, at) && forall k: nat :: k < at ==> !Occurs(s, w, k)
  }

  // Where a term is marked in the fold: where it starts a word, or else where it first is.
  ghost predicate Place(s: Units, w: Units, at: nat) {
    StartsWord(s, w, at) || (!StartsSomeWord(s, w) && |w| != 1 && FirstPlace(s, w, at))
  }

  ghost predicate Placed(s: Units, w: Units) { exists at: nat :: Place(s, w, at) }

  method Places(s: Units, w: Units) returns (found: seq<nat>)
    requires w != []
    ensures forall at: nat :: at in found <==> Place(s, w, at)
  {
    found := [];
    var at := IndexOf(s, w, 0);
    ghost var from := 0;
    while at >= 0
      invariant at >= 0 ==> from <= at && Occurs(s, w, at) && forall k: nat :: from <= k < at ==> !Occurs(s, w, k)
      invariant at < 0 ==> forall k: nat :: from <= k ==> !Occurs(s, w, k)
      invariant forall k: nat :: k in found <==> k < from && StartsWord(s, w, k)
      invariant -1 <= at <= |s| && from <= |s| + 1
      decreases |s| - from, at
    {
      ghost var before := from;
      if IsGap(s, at - 1) && (|w| != 1 || IsGap(s, at + 1)) {
        found := found + [at];
      }
      from := at + 1;
      at := IndexOf(s, w, at + 1);
    }
    assert found == [] ==> !StartsSomeWord(s, w);
    if |found| == 0 && |w| != 1 {
      var first := IndexOf(s, w, 0);
      if first >= 0 {
        found := [first];
        assert forall k: nat :: FirstPlace(s, w, k) ==> k == first;
      }
    } else {
      assert found != [] ==> StartsSomeWord(s, w) by {
        if found != [] {
          assert found[0] in found;
        }
      }
    }
  }

  // ---------------------------------------------------------------------------
  // Ranges
  // ---------------------------------------------------------------------------

  datatype Range = Range(start: nat, end: nat)

  // A range a search collects: the place of a term in the fold, or a span that produces a
  // term the fold has no place for.
  ghost predicate PlaceRange(f: Folded, w: Units, at: nat, r: Range) {
    && w != [] && Place(f.folded, w, at) && |f.starts| == |f.ends| == |f.folded| && at + |w| <= |f.folded|
    && r == Range(f.starts[at], f.ends[at + |w| - 1])
  }

  ghost predicate SpanRange(f: Folded, w: Units, span: Span, r: Range) {
    !Placed(f.folded, w) && span.term == Ascii(w) && r == Range(span.start, span.end)
  }

  ghost predicate TermRange(f: Folded, spans: seq<Span>, w: Units, r: Range) {
    || (exists at: nat :: PlaceRange(f, w, at, r))
    || (exists k :: 0 <= k < |spans| && SpanRange(f, w, spans[k], r))
  }

  ghost predicate Collected(f: Folded, spans: seq<Span>, words: seq<Units>, r: Range) {
    exists i :: 0 <= i < |words| && TermRange(f, spans, words[i], r)
  }

  ghost predicate CollectedPlace(f: Folded, words: seq<Units>, r: Range) {
    exists i, at: nat :: 0 <= i < |words| && PlaceRange(f, words[i], at, r)
  }

  predicate Proper(ranges: seq<Range>, length: nat) {
    forall i :: 0 <= i < |ranges| ==> ranges[i].start < ranges[i].end <= length
  }

  // The ranges of one term's places.
  method PlaceRanges(f: Folded, w: Units, found: seq<nat>, length: nat) returns (ranges: seq<Range>)
    requires Aligned(f, length) && w != [] && forall at: nat :: at in found <==> Place(f.folded, w, at)
    ensures Proper(ranges, length) && forall r :: r in ranges <==> exists at: nat :: PlaceRange(f, w, at, r)
  {
    ranges := [];
    for i := 0 to |found|
      invariant Proper(ranges, length)
      invariant forall r :: r in ranges <==> exists k: nat :: k < i && PlaceRange(f, w, found[k], r)
    {
      assert Place(f.folded, w, found[i]);
      var at := found[i];
      var r := Range(f.starts[at], f.ends[at + |w| - 1]);
      assert PlaceRange(f, w, found[i], r);
      ranges := ranges + [r];
    }
    forall r
      ensures r in ranges <==> exists at: nat :: PlaceRange(f, w, at, r)
    {
      if at: nat :| PlaceRange(f, w, at, r) {
        assert at in found;
        var k: nat :| k < |found| && found[k] == at;
        assert PlaceRange(f, w, found[k], r);
      }
    }
  }

  // The places of all terms, and the terms without one.
  method WordRanges(f: Folded, words: seq<Units>, length: nat) returns (ranges: seq<Range>, unmatched: seq<Units>)
    requires Aligned(f, length) && [] !in words
    ensures Proper(ranges, length) && forall r :: r in ranges <==> CollectedPlace(f, words, r)
    ensures forall w :: w in unmatched <==> w in words && !Placed(f.folded, w)
  {
    ranges, unmatched := [], [];
    for i := 0 to |words|
      invariant Proper(ranges, length)
      invariant forall r :: r in ranges <==> exists k: nat, at: nat :: k < i && PlaceRange(f, words[k], at, r)
      invariant forall w :: w in unmatched <==> w in words[..i] && !Placed(f.folded, w)
    {
      var found := Places(f.folded, words[i]);
      assert words[..i + 1] == words[..i] + [words[i]];
      if |found| == 0 {
        assert !Placed(f.folded, words[i]);
        unmatched := unmatched + [words[i]];
        continue;
      }
      assert found[0] in found;
      var more := PlaceRanges(f, words[i], found, length);
      ranges := ranges + more;
    }
    assert words[..|words|] == words;
  }

  predicate Produces(spans: seq<Span>, k: nat, w: Units, r: Range)
    requires k < |spans|
  {
    spans[k].term == Ascii(w) && r == Range(spans[k].start, spans[k].end)
  }

  ghost predicate FromSpans(spans: seq<Span>, n: nat, unmatched: seq<Units>, r: Range)
    requires n <= |spans|
  {
    exists k: nat, i: nat :: k < n && i < |unmatched| && Produces(spans, k, unmatched[i], r)
  }

  ghost predicate AreFromSpans(ranges: seq<Range>, spans: seq<Span>, n: nat, unmatched: seq<Units>)
    requires n <= |spans|
  {
    forall r :: r in ranges <==> FromSpans(spans, n, unmatched, r)
  }

  ghost predicate IsTerm(unmatched: seq<Units>, term: string) {
    exists i :: 0 <= i < |unmatched| && Ascii(unmatched[i]) == term
  }

  lemma OneMoreSpan(spans: seq<Span>, n: nat, unmatched: seq<Units>, r: Range)
    requires n < |spans|
    ensures FromSpans(spans, n + 1, unmatched, r)
            <==> FromSpans(spans, n, unmatched, r)
                 || (IsTerm(unmatched, spans[n].term) && r == Range(spans[n].start, spans[n].end))
  {
    if IsTerm(unmatched, spans[n].term) && r == Range(spans[n].start, spans[n].end) {
      var i :| 0 <= i < |unmatched| && Ascii(unmatched[i]) == spans[n].term;
      assert Produces(spans, n, unmatched[i], r);
    }
  }

  lemma OneMoreRange(ranges: seq<Range>, spans: seq<Span>, n: nat, unmatched: seq<Units>, next: seq<Range>)
    requires n < |spans| && AreFromSpans(ranges, spans, n, unmatched)
    requires next == if IsTerm(unmatched, spans[n].term) then ranges + [Range(spans[n].start, spans[n].end)] else ranges
    ensures AreFromSpans(next, spans, n + 1, unmatched)
  {
    hide FromSpans, IsTerm;
    forall r
      ensures r in next <==> FromSpans(spans, n + 1, unmatched, r)
    {
      OneMoreSpan(spans, n, unmatched, r);
      assert r in ranges <==> FromSpans(spans, n, unmatched, r);
    }
  }

  // The spans that produce an unmatched term.
  method SpanRanges(spans: seq<Span>, unmatched: seq<Units>, length: nat) returns (ranges: seq<Range>)
    requires forall k :: 0 <= k < |spans| ==> spans[k].start < spans[k].end <= length
    ensures Proper(ranges, length) && AreFromSpans(ranges, spans, |spans|, unmatched)
  {
    ranges := [];
    for i := 0 to |spans|
      invariant Proper(ranges, length) && AreFromSpans(ranges, spans, i, unmatched)
    {
      ghost var before := ranges;
      var hit := Unmatched(unmatched, spans[i].term);
      if hit {
        ranges := ranges + [Range(spans[i].start, spans[i].end)];
      }
      OneMoreRange(before, spans, i, unmatched, ranges);
    }
  }

  // The ranges a search collects from a text.
  ghost predicate CollectedFrom(text: Units, words: seq<Units>, fold: Units -> Units, r: Range) {
    Collected(FoldedText(text, fold), TextSpans(text, fold), words, r)
  }

  method CollectRanges(text: Units, words: seq<Units>, fold: Units -> Units)
    returns (ranges: seq<Range>)
    requires [] !in words
    ensures Proper(ranges, |text|)
    ensures forall r :: r in ranges <==> CollectedFrom(text, words, fold, r)
  {
    hide Collected, CollectedPlace, FromSpans, Placed, FoldedText, TextSpans;
    var f := FoldWithOffsets(text, fold);
    OffsetsAreAligned(text, fold);
    var placed, unmatched := WordRanges(f, words, |text|);
    var spans := SearchTermSpans(text, fold);
    var more := SpanRanges(spans, unmatched, |text|);
    ranges := placed + more;
    AllCollected(f, spans, words, placed, unmatched, more);
  }

  method Unmatched(unmatched: seq<Units>, term: string) returns (hit: bool)
    ensures hit <==> IsTerm(unmatched, term)
  {
    for i := 0 to |unmatched|
      invariant forall k :: 0 <= k < i ==> Ascii(unmatched[k]) != term
    {
      if Ascii(unmatched[i]) == term {
        return true;
      }
    }
    return false;
  }

  lemma AllCollected(f: Folded, spans: seq<Span>, words: seq<Units>, placed: seq<Range>, unmatched: seq<Units>,
                     more: seq<Range>)
    requires forall r :: r in placed <==> CollectedPlace(f, words, r)
    requires forall w :: w in unmatched <==> w in words && !Placed(f.folded, w)
    requires forall r :: r in more <==> FromSpans(spans, |spans|, unmatched, r)
    ensures forall r :: r in placed + more <==> Collected(f, spans, words, r)
  {
    forall r
      ensures r in placed + more <==> Collected(f, spans, words, r)
    {
      if r in placed {
        PlaceIsCollected(f, spans, words, r);
      }
      if r in more {
        SpanIsCollected(f, spans, words, unmatched, r);
      }
      if Collected(f, spans, words, r) {
        CollectedIsEither(f, spans, words, unmatched, r);
      }
    }
  }

  lemma PlaceIsCollected(f: Folded, spans: seq<Span>, words: seq<Units>, r: Range)
    requires CollectedPlace(f, words, r)
    ensures Collected(f, spans, words, r)
  {
  }

  lemma SpanIsCollected(f: Folded, spans: seq<Span>, words: seq<Units>, unmatched: seq<Units>, r: Range)
    requires forall w :: w in unmatched <==> w in words && !Placed(f.folded, w)
    requires FromSpans(spans, |spans|, unmatched, r)
    ensures Collected(f, spans, words, r)
  {
    var k: nat, i: nat :| k < |spans| && i < |unmatched| && Produces(spans, k, unmatched[i], r);
    var w := unmatched[i];
    assert w in unmatched && SpanRange(f, w, spans[k], r);
    var j :| 0 <= j < |words| && words[j] == w;
    assert TermRange(f, spans, words[j], r);
  }

  lemma CollectedIsEither(f: Folded, spans: seq<Span>, words: seq<Units>, unmatched: seq<Units>, r: Range)
    requires forall w :: w in unmatched <==> w in words && !Placed(f.folded, w)
    requires Collected(f, spans, words, r)
    ensures CollectedPlace(f, words, r) || FromSpans(spans, |spans|, unmatched, r)
  {
    var i :| 0 <= i < |words| && TermRange(f, spans, words[i], r);
    if !CollectedPlace(f, words, r) {
      var k :| 0 <= k < |spans| && SpanRange(f, words[i], spans[k], r);
      assert words[i] in unmatched;
      var j :| 0 <= j < |unmatched| && unmatched[j] == words[i];
      assert Produces(spans, k, unmatched[j], r);
    }
  }

  // ---------------------------------------------------------------------------
  // A text marks itself
  // ---------------------------------------------------------------------------

  predicate AllAscii(w: Units) { forall i :: 0 <= i < |w| ==> w[i] < 0x80 }

  ghost predicate IsRunOf(s: Units, w: Units) { exists from: nat, to: nat :: IsRun(s, from, to) && s[from..to] == w }

  // A term the text's own words make. One that is not ASCII is a word as it is.
  ghost predicate OwnTerm(text: Units, fold: Units -> Units, w: Units) {
    if AllAscii(w) then Ascii(w) in P.TermsFrom(Parsed(TextWords(text, fold)), 0, false)
    else IsRunOf(FoldedText(text, fold).folded, w)
  }

  lemma RunIsPlaced(s: Units, w: Units)
    requires IsRunOf(s, w)
    ensures Placed(s, w)
  {
    var from: nat, to: nat :| IsRun(s, from, to) && s[from..to] == w;
    assert StartsWord(s, w, from);
    assert Place(s, w, from);
  }

  lemma AsciiTellsApart(v: Units, w: Units)
    requires AllAscii(w) && Ascii(v) == Ascii(w)
    ensures v == w
  {
    forall i | 0 <= i < |w|
      ensures v[i] == w[i]
    {
      assert Ascii(v)[i] == Ascii(w)[i];
    }
    assert |v| == |Ascii(v)| == |w|;
  }

  lemma PlaceIsInText(s: Units, w: Units, at: nat)
    requires Place(s, w, at)
    ensures at + |w| <= |s|
  {
  }

  // A search for a term marks something in a text.
  ghost predicate Marked(text: Units, fold: Units -> Units, w: Units) {
    exists r :: TermRange(FoldedText(text, fold), TextSpans(text, fold), w, r)
  }

  // It does so exactly when the term has a place in the fold, or a span produces it.
  lemma {:induction false} MarkedExactlyWhen(text: Units, fold: Units -> Units, w: Units)
    requires w != []
    ensures Marked(text, fold, w)
            <==> Placed(FoldedText(text, fold).folded, w) || HasSpan(TextSpans(text, fold), Ascii(w))
  {
    hide FoldedText, TextWords, SpansFrom, Place, Ascii;
    var f, spans := FoldedText(text, fold), TextSpans(text, fold);
    if Placed(f.folded, w) {
      var at: nat :| Place(f.folded, w, at);
      PlaceIsInText(f.folded, w, at);
      assert PlaceRange(f, w, at, Range(f.starts[at], f.ends[at + |w| - 1]));
      assert TermRange(f, spans, w, Range(f.starts[at], f.ends[at + |w| - 1]));
    } else if HasSpan(spans, Ascii(w)) {
      var k :| 0 <= k < |spans| && spans[k].term == Ascii(w);
      assert SpanRange(f, w, spans[k], Range(spans[k].start, spans[k].end));
      assert TermRange(f, spans, w, Range(spans[k].start, spans[k].end));
    }
  }

  lemma MarkedIsCollected(text: Units, words: seq<Units>, fold: Units -> Units, w: Units)
    requires w in words && Marked(text, fold, w)
    ensures exists r :: TermRange(FoldedText(text, fold), TextSpans(text, fold), w, r) && CollectedFrom(text, words, fold, r)
  {
    hide TermRange, FoldedText, TextSpans;
    var r :| TermRange(FoldedText(text, fold), TextSpans(text, fold), w, r);
    var i :| 0 <= i < |words| && words[i] == w;
    assert TermRange(FoldedText(text, fold), TextSpans(text, fold), words[i], r);
  }

  // A search for any term that a text's own words make marks something in the text.
  lemma {:induction false} TextMarksItself(text: Units, words: seq<Units>, fold: Units -> Units, w: Units)
    requires w in words && w != [] && OwnTerm(text, fold, w)
    ensures Marked(text, fold, w)
    ensures exists r :: TermRange(FoldedText(text, fold), TextSpans(text, fold), w, r) && CollectedFrom(text, words, fold, r)
  {
    hide OwnTerm, HasSpan, Placed, Marked, TermRange, CollectedFrom;
    MarkedExactlyWhen(text, fold, w);
    if !Placed(FoldedText(text, fold).folded, w) {
      OwnTermIsSpanned(text, fold, w);
    }
    MarkedIsCollected(text, words, fold, w);
  }

  lemma OwnTermIsSpanned(text: Units, fold: Units -> Units, w: Units)
    requires OwnTerm(text, fold, w) && !Placed(FoldedText(text, fold).folded, w)
    ensures HasSpan(TextSpans(text, fold), Ascii(w))
  {
    hide SpansFrom, P.TermsFrom, WordsIn;
    var f := FoldedText(text, fold);
    if IsRunOf(f.folded, w) {
      RunIsPlaced(f.folded, w);
      assert false;
    } else {
      TermsAreSpanned(text, f, TextWords(text, fold), 0, Ascii(w));
      if IsWhole(f, Ascii(w)) {
        var from: nat, to: nat :| IsRun(f.folded, from, to) && Ascii(f.folded[from..to]) == Ascii(w);
        AsciiTellsApart(f.folded[from..to], w);
        assert false;
      }
    }
  }

  // A term the fold has no place for, such as k545 for "K. 545", is marked wherever the text
  // writes it, from its first word to its last.
  lemma JoinedTermIsMarked(text: Units, words: seq<Units>, fold: Units -> Units, w: Units, i: nat)
    requires w in words && !Placed(FoldedText(text, fold).folded, w)
    requires var own := TextWords(text, fold);
             i < |own| && Reaches(own, 0, i) && ParseAt(own, i).used > 1 && ParseAt(own, i).terms[0] == Ascii(w)
    ensures var own := TextWords(text, fold);
            CollectedFrom(text, words, fold, Range(own[i].start, own[i + ParseAt(own, i).used - 1].end))
  {
    hide ParseAt, SpansAt, SpansFrom, TextWords, FoldedText, Placed;
    var own := TextWords(text, fold);
    var f, spans, last := FoldedText(text, fold), TextSpans(text, fold), own[i + ParseAt(own, i).used - 1];
    var span := Span(Ascii(w), own[i].start, last.end);
    JoinedTermsAreSpanned(own, i);
    SpansOfEveryTurn(own, 0, i, span);
    var k :| 0 <= k < |spans| && spans[k] == span;
    var n :| 0 <= n < |words| && words[n] == w;
    assert SpanRange(f, w, spans[k], Range(own[i].start, last.end));
    assert TermRange(f, spans, words[n], Range(own[i].start, last.end));
  }

  // ---------------------------------------------------------------------------
  // Sorting
  // ---------------------------------------------------------------------------

  ghost predicate Sorted(ranges: seq<Range>) {
    forall i, j :: 0 <= i < j < |ranges| ==> ranges[i].start <= ranges[j].start
  }

  // The built-in stable sort by start.
  function Inserted(ranges: seq<Range>, r: Range): (s: seq<Range>)
    requires Sorted(ranges)
    ensures Sorted(s) && |s| == |ranges| + 1 && forall x :: x in s <==> x in ranges || x == r
  {
    if ranges == [] || ranges[|ranges| - 1].start <= r.start then ranges + [r]
    else
      var init, last := ranges[..|ranges| - 1], ranges[|ranges| - 1];
      assert forall x :: x in ranges <==> x in init || x == last;
      var rest := Inserted(init, r);
      assert forall i :: 0 <= i < |rest| ==> rest[i] in rest;
      assert forall x :: x in init ==> x.start <= last.start;
      rest + [last]
  }

  function ByStart(ranges: seq<Range>): (s: seq<Range>)
    ensures Sorted(s) && |s| == |ranges| && forall x :: x in s <==> x in ranges
  {
    if ranges == [] then []
    else
      var init, last := ranges[..|ranges| - 1], ranges[|ranges| - 1];
      assert forall x :: x in ranges <==> x in init || x == last;
      Inserted(ByStart(init), last)
  }

  // ---------------------------------------------------------------------------
  // Parts
  // ---------------------------------------------------------------------------

  datatype Part = Part(text: Units, mark: bool)

  function Flat(parts: seq<Part>): Units {
    if parts == [] then [] else Flat(parts[..|parts| - 1]) + parts[|parts| - 1].text
  }

  function Marks(parts: seq<Part>): (m: seq<bool>)
    ensures |m| == |Flat(parts)|
  {
    if parts == [] then []
    else
      var last := parts[|parts| - 1];
      Marks(parts[..|parts| - 1]) + seq(|last.text|, _ => last.mark)
  }

  predicate Alternating(parts: seq<Part>) {
    && (forall i :: 0 <= i < |parts| ==> parts[i].text != [])
    && (forall i :: 0 <= i < |parts| - 1 ==> parts[i].mark != parts[i + 1].mark)
  }

  lemma {:induction false} OneMore(parts: seq<Part>, part: Part)
    ensures Flat(parts + [part]) == Flat(parts) + part.text
    ensures Marks(parts + [part]) == Marks(parts) + seq(|part.text|, _ => part.mark)
  {
  }

  lemma OneMoreAlternates(parts: seq<Part>, part: Part)
    requires Alternating(parts) && part.text != [] && (parts == [] || parts[|parts| - 1].mark != part.mark)
    ensures Alternating(parts + [part])
  {
  }

  // The last part with more text.
  function Longer(parts: seq<Part>, more: Units): seq<Part>
    requires parts != []
  {
    parts[..|parts| - 1] + [Part(parts[|parts| - 1].text + more, parts[|parts| - 1].mark)]
  }

  lemma LongerMarks(marks: seq<bool>, n: nat, m: nat, mark: bool)
    ensures marks + seq(n + m, _ => mark) == marks + seq(n, _ => mark) + seq(m, _ => mark)
  {
  }

  lemma LongerText(a: Units, b: Units, c: Units)
    ensures a + (b + c) == a + b + c
  {
  }

  lemma {:induction false} LongerLast(parts: seq<Part>, more: Units)
    requires parts != []
    ensures Flat(Longer(parts, more)) == Flat(parts) + more
    ensures Marks(Longer(parts, more)) == Marks(parts) + seq(|more|, _ => parts[|parts| - 1].mark)
  {
    var init, last := parts[..|parts| - 1], parts[|parts| - 1];
    OneMore(init, Part(last.text + more, last.mark));
    LongerMarks(Marks(init), |last.text|, |more|, last.mark);
    LongerText(Flat(init), last.text, more);
  }

  ghost predicate Covered(ranges: seq<Range>, p: nat) {
    exists i :: 0 <= i < |ranges| && ranges[i].start <= p < ranges[i].end
  }

  // The parts written so far show text[..shown] and end with a marked one.
  predicate Written(parts: seq<Part>, text: Units, shown: nat)
    requires shown <= |text|
  {
    && Flat(parts) == text[..shown] && Alternating(parts)
    && (parts != [] ==> parts[|parts| - 1].mark) && (parts == [] <==> shown == 0)
  }

  // What is shown is marked where the ranges seen cover it; they end there, and what they
  // leave uncovered comes before the last of them.
  ghost predicate Painted(marks: seq<bool>, seen: seq<Range>) {
    && (forall p: nat :: p < |marks| ==> (marks[p] <==> Covered(seen, p)))
    && (forall i :: 0 <= i < |seen| ==> seen[i].end <= |marks|)
    && (forall p: nat :: p < |marks| && !marks[p] ==> seen != [] && p < seen[|seen| - 1].start)
  }

  lemma CoveredByOneMore(seen: seq<Range>, r: Range, p: nat)
    ensures Covered(seen + [r], p) <==> Covered(seen, p) || r.start <= p < r.end
  {
    var next := seen + [r];
    assert next[|seen|] == r && forall i :: 0 <= i < |seen| ==> next[i] == seen[i];
  }

  // A range that ends within what is shown changes nothing.
  lemma ShownRange(marks: seq<bool>, seen: seq<Range>, r: Range)
    requires Painted(marks, seen) && r.end <= |marks| && (seen != [] ==> seen[|seen| - 1].start <= r.start)
    ensures Painted(marks, seen + [r])
  {
    forall p: nat | p < |marks|
      ensures marks[p] <==> Covered(seen + [r], p)
    {
      CoveredByOneMore(seen, r, p);
    }
  }

  // A range that ends later leaves a gap, then marks what is new of it.
  lemma NextRange(marks: seq<bool>, seen: seq<Range>, r: Range, from: nat)
    requires Painted(marks, seen) && |marks| < r.end && (seen != [] ==> seen[|seen| - 1].start <= r.start)
    requires r.start < r.end && from == if r.start > |marks| then r.start else |marks|
    ensures Painted(marks + seq(from - |marks|, _ => false) + seq(r.end - from, _ => true), seen + [r])
  {
    var next := marks + seq(from - |marks|, _ => false) + seq(r.end - from, _ => true);
    forall p: nat | p < |next|
      ensures next[p] <==> Covered(seen + [r], p)
      ensures !next[p] ==> p < r.start
    {
      CoveredByOneMore(seen, r, p);
    }
  }

  // The parts once a range that ends later is shown too.
  function Shown(parts: seq<Part>, text: Units, shown: nat, from: nat, end: nat): seq<Part>
    requires shown <= from < end <= |text|
  {
    if from > shown then parts + [Part(text[shown..from], false)] + [Part(text[from..end], true)]
    else if parts != [] then Longer(parts, text[from..end])
    else parts + [Part(text[from..end], true)]
  }

  lemma {:induction false} ShownText(parts: seq<Part>, text: Units, shown: nat, from: nat, end: nat)
    requires shown <= from < end <= |text| && Written(parts, text, shown)
    ensures var next := Shown(parts, text, shown, from, end);
            && Written(next, text, end)
            && Marks(next) == Marks(parts) + seq(from - shown, _ => false) + seq(end - from, _ => true)
  {
    hide Written, Marks;
    if from > shown {
      ShownGap(parts, text, shown, from, end);
    } else {
      ShownOn(parts, text, shown, end);
      assert Marks(parts) + seq(0, _ => false) == Marks(parts);
    }
  }

  lemma LongerAlternates(parts: seq<Part>, more: Units)
    requires parts != [] && Alternating(parts)
    ensures Alternating(Longer(parts, more)) && |Longer(parts, more)| == |parts|
    ensures Longer(parts, more)[|parts| - 1].mark == parts[|parts| - 1].mark
  {
  }

  lemma {:induction false} ShownOn(parts: seq<Part>, text: Units, shown: nat, end: nat)
    requires shown < end <= |text| && Written(parts, text, shown)
    ensures var next := Shown(parts, text, shown, shown, end);
            Written(next, text, end) && Marks(next) == Marks(parts) + seq(end - shown, _ => true)
  {
    var hit := text[shown..end];
    assert text[..end] == text[..shown] + hit;
    if parts != [] {
      LongerLast(parts, hit);
      LongerAlternates(parts, hit);
    } else {
      OneMore(parts, Part(hit, true));
    }
  }

  lemma {:induction false} ShownGap(parts: seq<Part>, text: Units, shown: nat, from: nat, end: nat)
    requires shown < from < end <= |text| && Written(parts, text, shown)
    ensures var next := parts + [Part(text[shown..from], false)] + [Part(text[from..end], true)];
            && Written(next, text, end)
            && Marks(next) == Marks(parts) + seq(from - shown, _ => false) + seq(end - from, _ => true)
  {
    hide Flat, Marks, Alternating;
    var gap, hit := Part(text[shown..from], false), Part(text[from..end], true);
    assert text[..end] == text[..shown] + gap.text + hit.text;
    OneMore(parts, gap);
    OneMore(parts + [gap], hit);
    OneMoreAlternates(parts, gap);
    OneMoreAlternates(parts + [gap], hit);
  }

  // Parts that show all of a text, marked exactly where a range covers it.
  ghost predicate Highlighted(parts: seq<Part>, text: Units, ranges: seq<Range>) {
    && Flat(parts) == text && Alternating(parts)
    && forall p: nat :: p < |text| ==> (Marks(parts)[p] <==> Covered(ranges, p))
  }

  lemma {:induction false} ShowsAll(parts: seq<Part>, text: Units, shown: nat, ranges: seq<Range>, all: seq<Part>)
    requires shown <= |text| && Written(parts, text, shown) && Painted(Marks(parts), ranges)
    requires all == if shown < |text| then parts + [Part(text[shown..], false)] else parts
    ensures Highlighted(all, text, ranges)
  {
    hide Flat, Marks, Alternating;
    if shown < |text| {
      var rest := Part(text[shown..], false);
      assert text == text[..shown] + rest.text;
      OneMore(parts, rest);
      OneMoreAlternates(parts, rest);
    } else {
      assert text[..shown] == text;
    }
  }

  // The unmarked text before a range, and the range, joined to a marked part it touches.
  method ShowRange(parts: seq<Part>, text: Units, shown: nat, from: nat, end: nat) returns (r: seq<Part>)
    requires shown <= from < end <= |text| && (parts != [] ==> parts[|parts| - 1].mark)
    ensures r == Shown(parts, text, shown, from, end)
  {
    r := parts;
    if from > shown {
      r := r + [Part(text[shown..from], false)];
    }
    if |r| > 0 && r[|r| - 1].mark && from == shown {
      r := Longer(r, text[from..end]);
    } else {
      r := r + [Part(text[from..end], true)];
    }
  }

  method UniteRanges(text: Units, ranges: seq<Range>) returns (parts: seq<Part>)
    requires Sorted(ranges) && Proper(ranges, |text|)
    ensures Highlighted(parts, text, ranges)
  {
    hide Painted, Covered, Shown;
    parts := [];
    var shown := 0;
    NothingPainted();
    for k := 0 to |ranges|
      invariant shown <= |text| && Written(parts, text, shown) && Painted(Marks(parts), ranges[..k])
    {
      var start, end := ranges[k].start, ranges[k].end;
      assert ranges[..k + 1] == ranges[..k] + [ranges[k]];
      if end <= shown {
        ShownRange(Marks(parts), ranges[..k], ranges[k]);
        continue;
      }
      var from := if start > shown then start else shown;
      NextRange(Marks(parts), ranges[..k], ranges[k], from);
      ShownText(parts, text, shown, from, end);
      parts := ShowRange(parts, text, shown, from, end);
      shown := end;
    }
    assert ranges[..|ranges|] == ranges;
    ghost var before := parts;
    if shown < |text| {
      parts := parts + [Part(text[shown..], false)];
    }
    ShowsAll(before, text, shown, ranges, parts);
  }

  lemma NothingPainted()
    ensures Painted([], [])
  {
  }

  lemma SameCover(ranges: seq<Range>, sorted: seq<Range>, p: nat)
    requires forall r :: r in sorted <==> r in ranges
    ensures Covered(sorted, p) <==> Covered(ranges, p)
  {
    if i :| 0 <= i < |sorted| && sorted[i].start <= p < sorted[i].end {
      assert sorted[i] in ranges;
    }
    if i :| 0 <= i < |ranges| && ranges[i].start <= p < ranges[i].end {
      assert ranges[i] in sorted;
    }
  }

  // A row's text is cut into its parts: they are the text, none is empty, neighbours differ,
  // and a unit is marked exactly when a collected range covers it. An empty term would never
  // be done with, as SearchEndsExactlyWhen shows.
  method MatchParts(text: Units, words: seq<Units>, fold: Units -> Units)
    returns (parts: seq<Part>)
    requires [] !in words
    ensures text == [] || words == [] ==> parts == [Part(text, false)]
    ensures text != [] && words != [] ==>
              && Flat(parts) == text && Alternating(parts)
              && forall p: nat :: p < |text| ==>
                   (Marks(parts)[p] <==> exists r: Range :: CollectedFrom(text, words, fold, r) && r.start <= p < r.end)
  {
    if |words| == 0 || |text| == 0 {
      return [Part(text, false)];
    }
    var ranges := CollectRanges(text, words, fold);
    var sorted := ByStart(ranges);
    forall i | 0 <= i < |sorted|
      ensures sorted[i].start < sorted[i].end <= |text|
    {
      assert sorted[i] in ranges;
    }
    parts := UniteRanges(text, sorted);
    forall p: nat | p < |text|
      ensures Marks(parts)[p] <==> exists r: Range :: CollectedFrom(text, words, fold, r) && r.start <= p < r.end
    {
      SameCover(ranges, sorted, p);
      assert forall i :: 0 <= i < |ranges| ==> ranges[i] in ranges;
    }
  }
}
