/**
 Folded text with offsets into the text as written: foldWithOffsets, foldedWords and
 searchTermSpans in web/src/app/core/search.ts.

 Texts are sequences of UTF-16 code units, as in JavaScript. How one letter folds is a
 parameter: nothing here depends on it.
 */
module FoldOffsets {
  import P = SearchParser

  type Unit = u: int | 0 <= u < 0x1_0000

  type Units = seq<Unit>

  const SPACE: Unit := 0x20

  // ---------------------------------------------------------------------------
  // Letters
  // ---------------------------------------------------------------------------

  // "n°" and "nº" are one catalogue word.
  predicate IsNumberSign(text: Units, at: nat) {
    at + 2 <= |text| && text[at] in {0x6e, 0x4e} && text[at + 1] in {0xb0, 0xba}
  }

  predicate IsSurrogatePair(text: Units, at: nat) {
    at + 2 <= |text| && 0xd800 <= text[at] < 0xdc00 <= text[at + 1] < 0xe000
  }

  function LetterEnd(text: Units, at: nat): (end: nat)
    requires at < |text|
    ensures at < end <= |text|
  {
    if IsNumberSign(text, at) || IsSurrogatePair(text, at) then at + 2 else at + 1
  }

  // A folded text: where in the text each folded unit starts and ends.
  datatype Folded = Folded(folded: Units, starts: seq<nat>, ends: seq<nat>)

  const NothingFolded := Folded([], [], [])

  // The units of one letter, or, if it folds away, a longer end for the unit before.
  function WithLetter(f: Folded, at: nat, end: nat, letter: Units): Folded
    requires |f.ends| == |f.folded|
  {
    if letter == [] && f.ends != [] then f.(ends := f.ends[|f.ends| - 1 := end])
    else Folded(f.folded + letter, f.starts + seq(|letter|, _ => at), f.ends + seq(|letter|, _ => end))
  }

  function FoldFrom(text: Units, at: nat, f: Folded, fold: Units -> Units): (r: Folded)
    requires at <= |text| && |f.ends| == |f.starts| == |f.folded|
    ensures |r.ends| == |r.starts| == |r.folded|
    decreases |text| - at
  {
    if at == |text| then f
    else
      var end := LetterEnd(text, at);
      FoldFrom(text, end, WithLetter(f, at, end, fold(text[at..end])), fold)
  }

  function FoldedText(text: Units, fold: Units -> Units): (f: Folded)
    ensures |f.ends| == |f.starts| == |f.folded|
  {
    FoldFrom(text, 0, NothingFolded, fold)
  }

  method FoldWithOffsets(text: Units, fold: Units -> Units) returns (f: Folded)
    ensures f == FoldedText(text, fold)
  {
    f := NothingFolded;
    var at := 0;
    while at < |text|
      invariant at <= |text| && |f.ends| == |f.starts| == |f.folded|
      invariant FoldFrom(text, at, f, fold) == FoldedText(text, fold)
    {
      var end := LetterEnd(text, at);
      var letter := fold(text[at..end]);
      ghost var before := f;
      if letter == [] && |f.ends| > 0 {
        f := f.(ends := f.ends[|f.ends| - 1 := end]);
      }
      f := f.(folded := f.folded + letter);
      for i := 0 to |letter|
        invariant f.folded == before.folded + letter
        invariant f.starts == before.starts + seq(i, _ => at)
        invariant i > 0 || letter == [] ==> f.ends == WithLetter(before, at, end, letter[..i]).ends
        invariant i == 0 && letter != [] ==> f.ends == before.ends
      {
        f := f.(starts := f.starts + [at], ends := f.ends + [end]);
        assert letter[..i + 1] != [];
      }
      assert letter[..|letter|] == letter;
      assert before.folded + [] == before.folded && before.starts + seq(0, _ => at) == before.starts;
      assert f == WithLetter(before, at, end, letter);
      at := end;
    }
  }

  // ---------------------------------------------------------------------------
  // Offsets are sound
  // ---------------------------------------------------------------------------

  // Every folded unit comes from a stretch of the text, in order; two units come from the
  // same letter or from stretches that do not overlap.
  ghost predicate Aligned(f: Folded, upTo: nat) {
    && |f.starts| == |f.ends| == |f.folded|
    && (forall i :: 0 <= i < |f.starts| ==> f.starts[i] < f.ends[i] <= upTo)
    && (forall i, j :: 0 <= i < j < |f.starts| ==>
          f.starts[i] <= f.starts[j] && f.ends[i] <= f.ends[j]
          && (f.starts[i] == f.starts[j] || f.ends[i] <= f.starts[j]))
  }

  lemma LetterKeepsAligned(f: Folded, at: nat, end: nat, letter: Units)
    requires Aligned(f, at) && at < end
    ensures Aligned(WithLetter(f, at, end, letter), end)
  {
  }

  lemma {:induction false} FoldKeepsAligned(text: Units, at: nat, f: Folded, fold: Units -> Units)
    requires at <= |text| && Aligned(f, at)
    ensures Aligned(FoldFrom(text, at, f, fold), |text|)
    decreases |text| - at
  {
    if at < |text| {
      var end := LetterEnd(text, at);
      LetterKeepsAligned(f, at, end, fold(text[at..end]));
      FoldKeepsAligned(text, end, WithLetter(f, at, end, fold(text[at..end])), fold);
    }
  }

  // However letters fold, the offsets of any text are aligned with it.
  lemma OffsetsAreAligned(text: Units, fold: Units -> Units)
    ensures Aligned(FoldedText(text, fold), |text|)
  {
    FoldKeepsAligned(text, 0, NothingFolded, fold);
  }

  // The unit at i came from folding the letter that starts where it says.
  ghost predicate CameFrom(text: Units, f: Folded, fold: Units -> Units, i: nat) {
    && i < |f.folded| == |f.starts| && f.starts[i] < |text|
    && f.folded[i] in fold(text[f.starts[i]..LetterEnd(text, f.starts[i])])
  }

  lemma {:induction false} UnitsComeFrom(text: Units, at: nat, f: Folded, fold: Units -> Units, i: nat)
    requires at <= |text| && |f.ends| == |f.starts| == |f.folded|
    requires forall k: nat :: k < |f.folded| ==> CameFrom(text, f, fold, k)
    requires i < |FoldFrom(text, at, f, fold).folded|
    ensures CameFrom(text, FoldFrom(text, at, f, fold), fold, i)
    decreases |text| - at
  {
    if at < |text| {
      var end := LetterEnd(text, at);
      var letter := fold(text[at..end]);
      var next := WithLetter(f, at, end, letter);
      forall k: nat | k < |next.folded|
        ensures CameFrom(text, next, fold, k)
      {
        if k < |f.folded| {
          assert CameFrom(text, f, fold, k);
        } else {
          assert next.folded[k] == letter[k - |f.folded|];
        }
      }
      UnitsComeFrom(text, end, next, fold, i);
    }
  }

  // Each folded unit is one its own letter folds to.
  lemma OffsetsLeadBack(text: Units, fold: Units -> Units, i: nat)
    requires i < |FoldedText(text, fold).folded|
    ensures CameFrom(text, FoldedText(text, fold), fold, i)
  {
    UnitsComeFrom(text, 0, NothingFolded, fold, i);
  }

  // ---------------------------------------------------------------------------
  // Words
  // ---------------------------------------------------------------------------

  // A word as the recognisers read it: they tell ASCII characters apart, and no others match.
  function Ascii(w: Units): string { seq(|w|, i requires 0 <= i < |w| => if w[i] < 0x80 then w[i] as char else '\U{F8}') }

  datatype FoldedWord = FoldedWord(word: string, start: nat, end: nat, short: bool)

  // The same words as the search parser sees them.
  function Parsed(words: seq<FoldedWord>): seq<P.Word> {
    seq(|words|, i requires 0 <= i < |words| => P.Word(words[i].word, words[i].short))
  }

  predicate WordIn(w: FoldedWord, length: nat) { w.start < w.end <= length }

  // Words lie in the text, in order.
  ghost predicate InOrder(words: seq<FoldedWord>, length: nat) {
    && (forall i :: 0 <= i < |words| ==> WordIn(words[i], length))
    && (forall i, j :: 0 <= i < j < |words| ==> words[i].start <= words[j].start && words[i].end <= words[j].end)
  }

  // JavaScript's white space, in code units.
  predicate IsBlankUnit(u: Unit) {
    || 9 <= u <= 13 || u == 0x20 || u == 0xa0 || u == 0x1680 || 0x2000 <= u <= 0x200a
    || u in {0x2028, 0x2029, 0x202f, 0x205f, 0x3000, 0xfeff}
  }

  predicate ShortAllowed(text: Units, start: nat, end: nat) {
    (forall k :: 0 <= k < start && k < |text| ==> IsBlankUnit(text[k])) || (end < |text| && text[end] == 0x2e)
  }

  predicate Even(f: Folded) { |f.starts| == |f.ends| == |f.folded| }

  // The words of the run folded[from..to]: one, or two if it is a glued catalogue number.
  function RunWords(text: Units, f: Folded, from: nat, to: nat): seq<FoldedWord>
    requires Even(f) && from < to <= |f.folded|
  {
    var start, end, word := f.starts[from], f.ends[to - 1], Ascii(f.folded[from..to]);
    var short, k := ShortAllowed(text, start, end), P.LeadingLetters(word);
    if P.IsGlued(word) && P.Catalogue(word[..k]) != "" && (!P.Short(word[..k]) || short) then
      [FoldedWord(word[..k], start, f.ends[from + k - 1], short), FoldedWord(word[k..], f.starts[from + k], end, false)]
    else [FoldedWord(word, start, end, short)]
  }

  function RunEnd(s: Units, i: nat): (j: nat)
    requires i <= |s|
    ensures i <= j <= |s| && (forall k :: i <= k < j ==> s[k] != SPACE) && (j < |s| ==> s[j] == SPACE)
    decreases |s| - i
  {
    if i < |s| && s[i] != SPACE then RunEnd(s, i + 1) else i
  }

  // The words of folded[i..].
  function WordsIn(text: Units, f: Folded, i: nat): seq<FoldedWord>
    requires Even(f) && i <= |f.folded|
    decreases |f.folded| - i
  {
    if i == |f.folded| then []
    else if f.folded[i] == SPACE then WordsIn(text, f, i + 1)
    else RunWords(text, f, i, RunEnd(f.folded, i)) + WordsIn(text, f, RunEnd(f.folded, i))
  }

  // The folded words of a text, each with where it was written.
  function TextWords(text: Units, fold: Units -> Units): seq<FoldedWord> { WordsIn(text, FoldedText(text, fold), 0) }

  method AppendWord(text: Units, f: Folded, from: nat, i: nat, words: seq<FoldedWord>) returns (r: seq<FoldedWord>)
    requires Even(f) && from < i <= |f.folded|
    ensures r == words + RunWords(text, f, from, i)
  {
    hide P.Catalogue;
    var start, end := f.starts[from], f.ends[i - 1];
    var word := Ascii(f.folded[from..i]);
    var short := ShortAllowed(text, start, end);
    var prefix := P.LeadingLetters(word);
    if P.IsGlued(word) && P.Catalogue(word[..prefix]) != "" && (!P.Short(word[..prefix]) || short) {
      return words + [FoldedWord(word[..prefix], start, f.ends[from + prefix - 1], short),
                      FoldedWord(word[prefix..], f.starts[from + prefix], end, false)];
    }
    return words + [FoldedWord(word, start, end, short)];
  }

  method FoldedWords(text: Units, fold: Units -> Units) returns (words: seq<FoldedWord>)
    ensures words == TextWords(text, fold)
  {
    hide RunWords;
    var f := FoldWithOffsets(text, fold);
    words := [];
    var i := 0;
    while i < |f.folded|
      invariant i <= |f.folded| && words + WordsIn(text, f, i) == TextWords(text, fold)
    {
      while i < |f.folded| && f.folded[i] == SPACE
        invariant i <= |f.folded| && words + WordsIn(text, f, i) == TextWords(text, fold)
      {
        i := i + 1;
      }
      if i >= |f.folded| {
        break;
      }
      var from := i;
      while i < |f.folded| && f.folded[i] != SPACE
        invariant from <= i <= |f.folded| && RunEnd(f.folded, i) == RunEnd(f.folded, from)
        invariant i == from ==> f.folded[i] != SPACE
      {
        i := i + 1;
      }
      words := AppendWord(text, f, from, i, words);
    }
  }

  // ---------------------------------------------------------------------------
  // What the words are
  // ---------------------------------------------------------------------------

  // folded[from..to] stands between spaces and holds none.
  predicate IsRun(s: Units, from: nat, to: nat) {
    && from < to <= |s| && (from == 0 || s[from - 1] == SPACE) && (to == |s| || s[to] == SPACE)
    && forall k :: from <= k < to ==> s[k] != SPACE
  }

  ghost predicate InRun(text: Units, f: Folded, i: nat, w: FoldedWord)
    requires Even(f)
  {
    exists from: nat, to: nat :: i <= from && IsRun(f.folded, from, to) && w in RunWords(text, f, from, to)
  }

  // The words of a text are those of the runs of its fold, and no others.
  lemma {:induction false} WordsAreTheRuns(text: Units, f: Folded, i: nat, w: FoldedWord)
    requires Even(f) && i <= |f.folded| && (i == 0 || i == |f.folded| || f.folded[i - 1] == SPACE || f.folded[i] == SPACE)
    ensures w in WordsIn(text, f, i) <==> InRun(text, f, i, w)
    decreases |f.folded| - i
  {
    hide RunWords;
    if i < |f.folded| {
      if f.folded[i] == SPACE {
        WordsAreTheRuns(text, f, i + 1, w);
      } else {
        var j := RunEnd(f.folded, i);
        assert IsRun(f.folded, i, j);
        assert forall to: nat :: IsRun(f.folded, i, to) ==> to == j;
        assert forall from: nat, to: nat :: i < from && IsRun(f.folded, from, to) ==> j <= from;
        WordsAreTheRuns(text, f, j, w);
      }
    }
  }

  // A run is read as the search parser reads it, from where its first letter starts to where
  // its last one ends, and a glued number is cut between two letters.
  lemma RunIsSplit(text: Units, f: Folded, from: nat, to: nat)
    requires Even(f) && from < to <= |f.folded|
    ensures var words, word := RunWords(text, f, from, to), Ascii(f.folded[from..to]);
            && Parsed(words) == P.SplitWord(word, ShortAllowed(text, f.starts[from], f.ends[to - 1]))
            && 1 <= |words| <= 2 && words[0].start == f.starts[from] && words[|words| - 1].end == f.ends[to - 1]
            && (|words| == 2 ==>
                  var cut := from + |words[0].word|;
                  from < cut < to && words[0].end == f.ends[cut - 1] && words[1].start == f.starts[cut])
  {
    hide P.Catalogue;
  }

  // The words start and end no earlier than what is folded at i.
  ghost predicate NotBefore(words: seq<FoldedWord>, f: Folded, i: nat)
    requires Even(f)
  {
    i < |f.folded| ==> forall k :: 0 <= k < |words| ==> f.starts[i] <= words[k].start && f.ends[i] <= words[k].end
  }

  lemma RunInOrder(text: Units, f: Folded, from: nat, to: nat)
    requires Aligned(f, |text|) && from < to <= |f.folded|
    ensures var words := RunWords(text, f, from, to);
            && InOrder(words, |text|) && NotBefore(words, f, from)
            && forall k :: 0 <= k < |words| ==> words[k].start <= f.starts[to - 1] && words[k].end <= f.ends[to - 1]
  {
    hide RunWords, Ascii, P.SplitWord;
    RunIsSplit(text, f, from, to);
  }

  lemma {:induction false} WordsInOrder(text: Units, f: Folded, i: nat)
    requires Aligned(f, |text|) && i <= |f.folded|
    ensures InOrder(WordsIn(text, f, i), |text|) && NotBefore(WordsIn(text, f, i), f, i)
    decreases |f.folded| - i
  {
    hide RunWords;
    if i < |f.folded| {
      if f.folded[i] == SPACE {
        WordsInOrder(text, f, i + 1);
      } else {
        RunInOrder(text, f, i, RunEnd(f.folded, i));
        WordsInOrder(text, f, RunEnd(f.folded, i));
      }
    }
  }

  // However letters fold, the words of any text lie in it, in order.
  lemma TextWordsInOrder(text: Units, fold: Units -> Units)
    ensures InOrder(TextWords(text, fold), |text|)
  {
    OffsetsAreAligned(text, fold);
    WordsInOrder(text, FoldedText(text, fold), 0);
  }

  // ---------------------------------------------------------------------------
  // Spans
  // ---------------------------------------------------------------------------

  // A catalogue number or key as written, and the term it produces.
  datatype Span = Span(term: string, start: nat, end: nat)

  function ParseAt(words: seq<FoldedWord>, i: nat): (p: P.Parse)
    requires i < |words|
    ensures 1 <= p.used <= |words| - i && p.terms != []
  {
    P.ParseAt(Parsed(words), i, false)
  }

  // What is marked for the words from i: a key without its mode as well as with it.
  function SpansAt(words: seq<FoldedWord>, i: nat): seq<Span>
    requires i < |words|
  {
    var p, word, next := ParseAt(words, i), words[i], P.At(Parsed(words), i + 1);
    var last := words[i + p.used - 1];
    if P.CatalogueOf(P.Word(word.word, word.short)) != "" && p.used > 1 && P.CatalogueNumber(last.word) then
      [Span(p.terms[0], word.start, last.end)]
    else if P.GermanKey(word.word) != "" && P.GermanMode(next) != "" then
      [Span(P.GermanKey(word.word), word.start, word.end), Span(p.terms[0], word.start, last.end)]
    else if P.EnglishFlat(word.word) then
      var head := Span(word.word[..1] + "flat", word.start, word.end);
      if p.used == 1 then [head] else [head, Span(p.terms[0], word.start, last.end)]
    else if P.Note(word.word) && P.Accidental(next) then
      var head := Span(word.word + next, word.start, words[i + 1].end);
      if p.used == 2 then [head] else [head, Span(p.terms[0], word.start, last.end)]
    else if P.Note(word.word) && P.Mode(next) then [Span(p.terms[0], word.start, last.end)]
    else []
  }

  function SpansFrom(words: seq<FoldedWord>, i: nat): seq<Span>
    requires i <= |words|
    decreases |words| - i
  {
    if i == |words| then [] else SpansAt(words, i) + SpansFrom(words, i + ParseAt(words, i).used)
  }

  // Whether a turn of the parser that starts at word `from` leads to one at word i.
  predicate Reaches(words: seq<FoldedWord>, from: nat, i: nat)
    requires from <= |words|
    decreases |words| - from
  {
    from == i || (from < |words| && Reaches(words, from + ParseAt(words, from).used, i))
  }

  lemma {:induction false} SpansOfEveryTurn(words: seq<FoldedWord>, from: nat, i: nat, span: Span)
    requires from <= |words| && i < |words| && Reaches(words, from, i) && span in SpansAt(words, i)
    ensures span in SpansFrom(words, from)
    decreases |words| - from
  {
    hide SpansAt, ParseAt;
    if from != i {
      SpansOfEveryTurn(words, from + ParseAt(words, from).used, i, span);
    }
  }

  lemma ModeIsNoNumber(s: string)
    ensures P.GermanMode(s) != "" || P.Mode(s) || P.Accidental(s) || s == "m" ==> !P.CatalogueNumber(s)
  {
  }

  lemma NothingJoins()
    ensures !P.CatalogueNumber("") && P.GermanMode("") == "" && !P.Mode("") && !P.Mode("m") && !P.Accidental("") && !P.Roman("")
  {
  }

  // One turn of the loop of searchTermSpans.
  method SpanWord(words: seq<FoldedWord>, from: nat) returns (i: nat, spans: seq<Span>)
    requires from < |words|
    ensures i == from + ParseAt(words, from).used && spans == SpansAt(words, from)
  {
    hide P.Catalogue, P.GermanKey, P.GermanMode, P.CatalogueNumber, P.Roman, P.Mode, P.Accidental;
    NothingJoins();
    i, spans := from, [];
    var parsed := Parsed(words);
    var word, next, third := words[i].word, P.At(parsed, i + 1), P.At(parsed, i + 2);
    ModeIsNoNumber(next);
    ModeIsNoNumber(third);
    var start := words[i].start;
    var catalogue := if P.Short(word) && !words[i].short then "" else P.Catalogue(word);
    if catalogue == "hob" && P.Roman(next) && P.CatalogueNumber(third) {
      spans := [Span(catalogue + next + third, start, words[i + 2].end)];
      i := i + 2;
    } else if catalogue != "" && P.CatalogueNumber(next) {
      spans := [Span(catalogue + next, start, words[i + 1].end)];
      i := i + 1;
    } else if P.GermanKey(word) != "" && P.GermanMode(next) != "" {
      var key := P.GermanKey(word);
      spans := [Span(key, start, words[i].end), Span(key + P.GermanMode(next), start, words[i + 1].end)];
      i := i + 1;
    } else if P.EnglishFlat(word) {
      var head := word[..1] + "flat";
      spans := [Span(head, start, words[i].end)];
      if P.Mode(next) {
        spans := spans + [Span(head + next, start, words[i + 1].end)];
        i := i + 1;
      }
    } else if P.Note(word) && P.Accidental(next) {
      i := i + 1;
      spans := [Span(word + next, start, words[i].end)];
      if P.Mode(third) || third == "m" {
        var mode := if third == "m" then "minor" else third;
        spans := spans + [Span(word + next + mode, start, words[i + 1].end)];
        i := i + 1;
      }
    } else if P.Note(word) && P.Mode(next) {
      spans := [Span(word + next, start, words[i + 1].end)];
      i := i + 1;
    }
    i := i + 1;
  }

  // What is marked for a text's words.
  function TextSpans(text: Units, fold: Units -> Units): seq<Span> { SpansFrom(TextWords(text, fold), 0) }

  method SearchTermSpans(text: Units, fold: Units -> Units) returns (spans: seq<Span>)
    ensures spans == TextSpans(text, fold)
    ensures forall k :: 0 <= k < |spans| ==> spans[k].start < spans[k].end <= |text|
  {
    hide SpansAt, ParseAt;
    var found := FoldedWords(text, fold);
    spans := [];
    var i := 0;
    while i < |found|
      invariant i <= |found| && spans + SpansFrom(found, i) == SpansFrom(found, 0)
    {
      var next, more := SpanWord(found, i);
      i, spans := next, spans + more;
    }
    TextWordsInOrder(text, fold);
    SpansLieInText(found, 0, |text|);
  }

  lemma SpansAtLieInText(words: seq<FoldedWord>, i: nat, length: nat)
    requires i < |words| && InOrder(words, length)
    ensures forall k :: 0 <= k < |SpansAt(words, i)| ==> SpansAt(words, i)[k].start < SpansAt(words, i)[k].end <= length
  {
    hide P.ParseAt, P.Catalogue, P.GermanKey, P.GermanMode;
    var last := i + ParseAt(words, i).used - 1;
    assert WordIn(words[i], length) && WordIn(words[last], length);
    assert i + 1 < |words| ==> WordIn(words[i + 1], length);
  }

  lemma {:induction false} SpansLieInText(words: seq<FoldedWord>, i: nat, length: nat)
    requires i <= |words| && InOrder(words, length)
    ensures forall k :: 0 <= k < |SpansFrom(words, i)| ==>
              SpansFrom(words, i)[k].start < SpansFrom(words, i)[k].end <= length
    decreases |words| - i
  {
    hide SpansAt, ParseAt;
    if i < |words| {
      SpansAtLieInText(words, i, length);
      SpansLieInText(words, i + ParseAt(words, i).used, length);
    }
  }

  // Whatever the parser joins into one term is marked from its first word to its last.
  lemma JoinedTermsAreSpanned(words: seq<FoldedWord>, i: nat)
    requires i < |words|
    ensures var p := ParseAt(words, i);
            p.used > 1 ==> Span(p.terms[0], words[i].start, words[i + p.used - 1].end) in SpansAt(words, i)
  {
  }

  // ---------------------------------------------------------------------------
  // The terms of the text itself
  // ---------------------------------------------------------------------------

  // Word k and the next are a catalogue and its number.
  predicate Joins(words: seq<FoldedWord>, k: nat) {
    k + 1 < |words| && P.CatalogueOf(Parsed(words)[k]) != "" && P.CatalogueNumber(words[k + 1].word)
  }

  ghost predicate IsWhole(f: Folded, w: string) {
    exists from: nat, to: nat :: IsRun(f.folded, from, to) && Ascii(f.folded[from..to]) == w
  }

  // A word is a whole run of the fold, or half of a catalogue number.
  ghost predicate ComesFrom(words: seq<FoldedWord>, k: nat, f: Folded)
    requires k < |words|
  {
    IsWhole(f, words[k].word) || Joins(words, k) || (k >= 1 && Joins(words, k - 1))
  }

  lemma RunComesFrom(text: Units, f: Folded, from: nat, to: nat, k: nat)
    requires Even(f) && IsRun(f.folded, from, to) && k < |RunWords(text, f, from, to)|
    ensures ComesFrom(RunWords(text, f, from, to), k, f)
  {
    hide P.Catalogue, P.CatalogueNumber;
  }

  lemma ComesFromLater(first: seq<FoldedWord>, rest: seq<FoldedWord>, k: nat, f: Folded)
    ensures k < |first| && ComesFrom(first, k, f) ==> ComesFrom(first + rest, k, f)
    ensures |first| <= k < |first| + |rest| && ComesFrom(rest, k - |first|, f) ==> ComesFrom(first + rest, k, f)
  {
    hide P.CatalogueOf, P.CatalogueNumber;
  }

  lemma {:induction false} WordsComeFrom(text: Units, f: Folded, i: nat, k: nat)
    requires Even(f) && i <= |f.folded| && (i == 0 || i == |f.folded| || f.folded[i - 1] == SPACE || f.folded[i] == SPACE)
    requires k < |WordsIn(text, f, i)|
    ensures ComesFrom(WordsIn(text, f, i), k, f)
    decreases |f.folded| - i
  {
    hide RunWords, ComesFrom;
    if f.folded[i] == SPACE {
      WordsComeFrom(text, f, i + 1, k);
    } else {
      var j := RunEnd(f.folded, i);
      var first, rest := RunWords(text, f, i, j), WordsIn(text, f, j);
      ComesFromLater(first, rest, k, f);
      if k < |first| {
        RunComesFrom(text, f, i, j, k);
      } else {
        WordsComeFrom(text, f, j, k - |first|);
      }
    }
  }

  // What the parser puts last in a term names no catalogue.
  lemma LastIsNoCatalogue(s: string)
    requires P.CatalogueNumber(s) || P.GermanMode(s) != "" || P.Mode(s) || P.Accidental(s) || s == "m"
    ensures P.Catalogue(s) == ""
  {
  }

  // A turn of the parser never ends on a catalogue before its number, nor starts on one it
  // does not join.
  lemma TurnKeepsNumbers(words: seq<FoldedWord>, i: nat, k: nat)
    requires i < |words| && i <= k && Joins(words, k)
    ensures i + ParseAt(words, i).used != k + 1 && (i == k ==> ParseAt(words, i).used > 1)
  {
    hide P.Catalogue, P.GermanKey, P.GermanMode, P.CatalogueNumber, P.Roman;
    var parsed := Parsed(words);
    if i == k {
      assert P.At(parsed, k + 1) == words[k + 1].word;
    } else if i + ParseAt(words, i).used == k + 1 {
      TurnEnds(words, i);
      LastIsNoCatalogue(words[k].word);
      assert false;
    }
  }

  lemma TurnEnds(words: seq<FoldedWord>, i: nat)
    requires i < |words| && ParseAt(words, i).used > 1
    ensures var last := words[i + ParseAt(words, i).used - 1].word;
            P.CatalogueNumber(last) || P.GermanMode(last) != "" || P.Mode(last) || P.Accidental(last) || last == "m"
  {
    hide P.Catalogue, P.GermanKey, P.GermanMode, P.CatalogueNumber, P.Roman, P.Mode, P.Accidental;
  }

  // A term of the parser is a word by itself, or the term of the last span.
  lemma TermIsSpannedAt(words: seq<FoldedWord>, i: nat, t: string)
    requires i < |words| && t in ParseAt(words, i).terms
    ensures var p, spans := ParseAt(words, i), SpansAt(words, i);
            (p.used == 1 && t == words[i].word) || (spans != [] && spans[|spans| - 1].term == t)
  {
    hide P.Catalogue, P.GermanKey, P.GermanMode, P.CatalogueNumber, P.Roman;
    assert t == ParseAt(words, i).terms[0];
    if ParseAt(words, i).used > 1 {
      TurnEnds(words, i);
    }
  }

  ghost predicate HasSpan(spans: seq<Span>, t: string) { exists k :: 0 <= k < |spans| && spans[k].term == t }

  // Every term the words of a text make from word i on is a run of its fold or has a span,
  // unless word i is the number of the catalogue before it.
  lemma {:induction false} TermsAreSpanned(text: Units, f: Folded, words: seq<FoldedWord>, i: nat, t: string)
    requires Even(f) && words == WordsIn(text, f, 0) && i <= |words| && (i >= 1 ==> !Joins(words, i - 1))
    requires t in P.TermsFrom(Parsed(words), i, false)
    ensures IsWhole(f, t) || HasSpan(SpansFrom(words, i), t)
    decreases |words| - i
  {
    hide P.ParseAt, SpansAt, Joins, IsWhole;
    var p := ParseAt(words, i);
    var spans, rest := SpansAt(words, i), SpansFrom(words, i + p.used);
    if t in p.terms {
      TermIsSpannedAt(words, i, t);
      if p.used == 1 && t == words[i].word {
        WordsComeFrom(text, f, 0, i);
        if Joins(words, i) {
          TurnKeepsNumbers(words, i, i);
        }
      } else {
        assert SpansFrom(words, i)[|spans| - 1].term == t;
      }
    } else {
      if Joins(words, i + p.used - 1) {
        TurnKeepsNumbers(words, i, i + p.used - 1);
      }
      TermsAreSpanned(text, f, words, i + p.used, t);
      if HasSpan(rest, t) {
        var k :| 0 <= k < |rest| && rest[k].term == t;
        assert SpansFrom(words, i)[|spans| + k] == rest[k];
      }
    }
  }
}
