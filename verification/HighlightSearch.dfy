/**
 A search for a text's own terms, and what it marks in the text: searchTerms and
 searchTermSpans in web/src/app/core/search.ts with matchParts in
 web/src/app/features/library/library.utils.ts.

 A search reads its terms from the normalised text, and marking reads them letter by letter
 from the text as written. The two are related by their folds: the letters' folds, joined, hold
 the words of the fold of the text.
 */
module HighlightSearches {
  import opened SearchStrings
  import F = SearchFolds
  import P = SearchParser
  import S = SpanTerms
  import A = SearchAgreement
  import T = SearchTheorems
  import opened FoldOffsets
  import opened Highlights

  // ---------------------------------------------------------------------------
  // UTF-16
  // ---------------------------------------------------------------------------

  function CharUnits(c: char): (u: Units)
    ensures 1 <= |u| <= 2 && (c < '\U{80}' ==> u == [c as int]) && (c >= '\U{80}' ==> forall i :: 0 <= i < |u| ==> u[i] >= 0x80)
  {
    var v := c as int;
    if v < 0x1_0000 then [v] else [0xd800 + (v - 0x1_0000) / 0x400, 0xdc00 + (v - 0x1_0000) % 0x400]
  }

  function Utf16(s: string): Units { if s == "" then [] else CharUnits(s[0]) + Utf16(s[1..]) }

  lemma {:induction false} Utf16Together(s: string, t: string)
    ensures Utf16(s + t) == Utf16(s) + Utf16(t)
    decreases |s|
  {
    if s == "" {
      assert s + t == t;
    } else {
      assert (s + t)[1..] == s[1..] + t;
      Utf16Together(s[1..], t);
      assert CharUnits(s[0]) + (Utf16(s[1..]) + Utf16(t)) == CharUnits(s[0]) + Utf16(s[1..]) + Utf16(t);
    }
  }

  lemma AsciiOfBoth(u: Units, v: Units)
    ensures Ascii(u + v) == Ascii(u) + Ascii(v)
  {
  }

  lemma CharIsRead(c: char)
    ensures c < '\U{80}' ==> Ascii(CharUnits(c)) == [c] && AllAscii(CharUnits(c))
    ensures c >= '\U{80}' ==> !S.AsciiOnly(Ascii(CharUnits(c)))
  {
    if c >= '\U{80}' {
      assert Ascii(CharUnits(c))[0] == '\U{F8}';
    }
  }

  lemma AsciiOnlyParts(s: string, t: string)
    ensures S.AsciiOnly(s + t) <==> S.AsciiOnly(s) && S.AsciiOnly(t)
  {
    assert forall i :: 0 <= i < |s| ==> (s + t)[i] == s[i];
    assert forall i :: 0 <= i < |t| ==> (s + t)[|s| + i] == t[i];
  }

  // What the recognisers read of a word: the word itself if it is ASCII, and nothing that is otherwise.
  lemma {:induction false} Utf16IsRead(s: string)
    ensures S.AsciiOnly(s) ==> Ascii(Utf16(s)) == s && AllAscii(Utf16(s))
    ensures !S.AsciiOnly(s) ==> !S.AsciiOnly(Ascii(Utf16(s)))
    decreases |s|
  {
    if s != "" {
      var head, tail := CharUnits(s[0]), Utf16(s[1..]);
      Utf16IsRead(s[1..]);
      CharIsRead(s[0]);
      AsciiOfBoth(head, tail);
      assert s == [s[0]] + s[1..];
      AsciiOnlyParts([s[0]], s[1..]);
      AsciiOnlyParts(Ascii(head), Ascii(tail));
      assert S.AsciiOnly([s[0]]) <==> s[0] < '\U{80}';
      hide Ascii, CharUnits, S.AsciiOnly;
    }
  }

  // ---------------------------------------------------------------------------
  // Runs
  // ---------------------------------------------------------------------------

  // The words of a fold: what stands between spaces.
  function Runs(s: Units): seq<Units> {
    if s == [] then []
    else if s[0] == SPACE then Runs(s[1..])
    else [s[..RunEnd(s, 0)]] + Runs(s[RunEnd(s, 0)..])
  }

  lemma {:induction false} RunEndFrom(s: Units, i: nat, j: nat)
    requires i <= j <= |s|
    ensures RunEnd(s, j) == i + RunEnd(s[i..], j - i)
    decreases |s| - j
  {
    if j < |s| && s[j] != SPACE {
      RunEndFrom(s, i, j + 1);
    }
  }

  // Where a run starts at i, it is the first of the runs from i on.
  lemma {:induction false} RunsFrom(s: Units, i: nat)
    requires i < |s| && s[i] != SPACE
    ensures i < RunEnd(s, i) && Runs(s[i..]) == [s[i..RunEnd(s, i)]] + Runs(s[RunEnd(s, i)..])
  {
    RunEndFrom(s, i, i);
    var j := RunEnd(s, i);
    assert s[i..][..j - i] == s[i..j] && s[i..][j - i..] == s[j..];
  }

  lemma {:induction false} RunsAreRuns(s: Units, i: nat, w: Units)
    requires i <= |s| && (i == 0 || i == |s| || s[i - 1] == SPACE || s[i] == SPACE) && w in Runs(s[i..])
    ensures IsRunOf(s, w)
    decreases |s| - i
  {
    if s[i] == SPACE {
      assert s[i..][1..] == s[i + 1..];
      RunsAreRuns(s, i + 1, w);
    } else {
      RunsFrom(s, i);
      var j := RunEnd(s, i);
      if w == s[i..j] {
        assert IsRun(s, i, j);
      } else {
        RunsAreRuns(s, j, w);
      }
    }
  }

  // What the recognisers read of each run.
  function Read(runs: seq<Units>): (words: seq<string>)
    ensures |words| == |runs|
  {
    seq(|runs|, i requires 0 <= i < |runs| => Ascii(runs[i]))
  }

  // Whether the text as written lets a short letter name a catalogue in each run from i on.
  function RunFlags(text: Units, f: Folded, i: nat): (flags: seq<bool>)
    requires Even(f) && i <= |f.folded|
    ensures |flags| == |Runs(f.folded[i..])|
    decreases |f.folded| - i
  {
    if i == |f.folded| then []
    else if f.folded[i] == SPACE then
      assert f.folded[i..][1..] == f.folded[i + 1..];
      RunFlags(text, f, i + 1)
    else
      RunsFrom(f.folded, i);
      var j := RunEnd(f.folded, i);
      [ShortAllowed(text, f.starts[i], f.ends[j - 1])] + RunFlags(text, f, j)
  }

  lemma ParsedTogether(a: seq<FoldedWord>, b: seq<FoldedWord>)
    ensures Parsed(a + b) == Parsed(a) + Parsed(b)
  {
  }

  lemma ReadFirst(run: Units, runs: seq<Units>)
    ensures Read([run] + runs) == [Ascii(run)] + Read(runs)
  {
    hide Ascii;
  }

  // The words of a text are those the parser makes of its runs.
  lemma {:induction false} WordsOfRuns(text: Units, f: Folded, i: nat)
    requires Even(f) && i <= |f.folded|
    ensures Parsed(WordsIn(text, f, i)) == S.Words(Read(Runs(f.folded[i..])), RunFlags(text, f, i))
    decreases |f.folded| - i
  {
    hide RunWords, P.SplitWord, ShortAllowed, Ascii;
    if i < |f.folded| {
      hide Read, Parsed;
      if f.folded[i] == SPACE {
        assert f.folded[i..][1..] == f.folded[i + 1..];
        WordsOfRuns(text, f, i + 1);
      } else {
        var j := RunEnd(f.folded, i);
        RunsFrom(f.folded, i);
        RunIsSplit(text, f, i, j);
        WordsOfRuns(text, f, j);
        ParsedTogether(RunWords(text, f, i, j), WordsIn(text, f, j));
        ReadFirst(f.folded[i..j], Runs(f.folded[j..]));
      }
    }
  }

  // ---------------------------------------------------------------------------
  // The runs of a fold
  // ---------------------------------------------------------------------------

  function Spelled(words: seq<string>): (units: seq<Units>)
    ensures |units| == |words|
  {
    seq(|words|, i requires 0 <= i < |words| => Utf16(words[i]))
  }

  lemma {:induction false} NoSpaceInside(w: string)
    requires Unbroken(w)
    ensures SPACE !in Utf16(w) && (w != "" ==> Utf16(w) != [])
    decreases |w|
  {
    if w != "" {
      assert Unbroken(w[1..]) && w[0] != ' ';
      NoSpaceInside(w[1..]);
      assert SPACE !in CharUnits(w[0]) by {
        assert (' ' as int) == SPACE;
      }
    }
  }

  lemma {:induction false} RunStops(u: Units, rest: Units)
    requires u != [] && SPACE !in u && (rest == [] || rest[0] == SPACE)
    ensures Runs(u + rest) == [u] + Runs(rest)
  {
    var s := u + rest;
    assert forall i :: 0 <= i < |u| ==> u[i] in u && s[i] == u[i];
    assert rest != [] ==> s[|u|] == SPACE;
    var k := RunEnd(s, 0);
    assert k < |s| ==> s[k] == SPACE;
    assert k == |u|;
    assert s[..k] == u && s[k..] == rest;
  }

  lemma {:induction false} RunThenSpace(u: Units, v: Units)
    requires u != [] && SPACE !in u
    ensures Runs(u + ([SPACE] + v)) == [u] + Runs(v)
  {
    RunStops(u, [SPACE] + v);
    assert ([SPACE] + v)[1..] == v;
  }

  lemma {:induction false} SpacedUnits(s: string, t: string)
    ensures Utf16(s + " " + t) == Utf16(s) + ([SPACE] + Utf16(t))
  {
    Utf16Together(s + " ", t);
    Utf16Together(s, " ");
    assert Utf16(" ") == [SPACE] by {
      assert " "[1..] == "" && (' ' as int) == SPACE && CharUnits(' ') == [SPACE];
    }
    hide Utf16;
  }

  // The runs of words with one space between them are the words.
  lemma {:induction false} RunsOfJoin(words: seq<string>)
    requires forall i :: 0 <= i < |words| ==> words[i] != "" && Unbroken(words[i])
    ensures Runs(Utf16(Join(words))) == Spelled(words)
    decreases |words|
  {
    if words == [] {
      assert Utf16("") == [];
    } else {
      hide Unbroken, Utf16, Runs, CharUnits, Spelled;
      NoSpaceInside(words[0]);
      var u := Utf16(words[0]);
      if |words| == 1 {
        RunAlone(u);
      } else {
        RunsOfJoin(words[1..]);
        SpacedUnits(words[0], Join(words[1..]));
        RunThenSpace(u, Utf16(Join(words[1..])));
      }
      SpelledFirst(words);
    }
  }

  lemma SpelledFirst(words: seq<string>)
    requires words != []
    ensures Spelled(words) == [Utf16(words[0])] + Spelled(words[1..])
  {
    hide Utf16;
  }

  lemma {:induction false} RunAlone(u: Units)
    requires u != [] && SPACE !in u
    ensures Runs(u) == [u]
  {
    RunStops(u, []);
    assert u + [] == u;
  }

  // The runs of a fold are the spans of the text, when none of them is of marks alone.
  lemma {:induction false} RunsOfFold(g: F.Text)
    requires "" !in F.SpanTexts(g, 0)
    ensures Runs(Utf16(F.Fold(g))) == Spelled(F.SpanTexts(g, 0))
  {
    hide F.Fold, F.SpanTexts, Unbroken;
    var spans := F.SpanTexts(g, 0);
    F.FoldIsJoined(g);
    NoEmptyStays(spans);
    forall i | 0 <= i < |spans|
      ensures spans[i] != "" && Unbroken(spans[i])
    {
      assert spans[i] in spans;
      A.SpanIsUnbroken(g, 0, spans[i]);
    }
    RunsOfJoin(spans);
  }

  lemma {:induction false} NoEmptyStays(words: seq<string>)
    requires "" !in words
    ensures NonEmpty(words) == words
    decreases |words|
  {
    if words != [] {
      NoEmptyStays(words[1..]);
    }
  }

  // ---------------------------------------------------------------------------
  // What a search for a text's own terms marks
  // ---------------------------------------------------------------------------

  // g is the normalised form of a text without words of marks alone, and the letters' folds,
  // joined, hold the words of its fold.
  predicate Normalises(text: Units, fold: Units -> Units, g: F.Text) {
    "" !in F.SpanTexts(g, 0) && Runs(FoldedText(text, fold).folded) == Runs(Utf16(F.Fold(g)))
  }

  // Where a short letter may name a catalogue, by the text as written.
  function WrittenFlags(text: Units, fold: Units -> Units): (flags: seq<bool>)
    ensures |flags| == |Runs(FoldedText(text, fold).folded)|
  {
    var f := FoldedText(text, fold);
    assert f.folded[0..] == f.folded;
    RunFlags(text, f, 0)
  }

  // A term that only the normalised text has: the number after a bare S, D or L, or of the
  // letter L after "hob", when the letter may name a catalogue there and not in the text as
  // written.
  ghost predicate OnlyNormalised(text: Units, fold: Units -> Units, g: F.Text, t: string)
    requires Normalises(text, fold, g)
  {
    RunsOfFold(g);
    S.Lost(F.SpanTexts(g, 0), S.Flags(g, 0, IsBrowserSpace), WrittenFlags(text, fold), t)
  }

  lemma {:induction false} ReadIsRespelled(spans: seq<string>)
    ensures S.Respelled(spans, Read(Spelled(spans)))
  {
    hide S.AsciiOnly;
    forall i | 0 <= i < |spans|
      ensures if S.AsciiOnly(spans[i]) then Read(Spelled(spans))[i] == spans[i] else !S.AsciiOnly(Read(Spelled(spans))[i])
    {
      Utf16IsRead(spans[i]);
    }
  }

  lemma {:induction false} SpanIsMarked(text: Units, fold: Units -> Units, g: F.Text, t: string)
    requires Normalises(text, fold, g) && t in F.SpanTexts(g, 0)
    ensures Utf16(t) != [] && Placed(FoldedText(text, fold).folded, Utf16(t))
  {
    hide F.SpanTexts, F.Fold, FoldedText, Runs, Placed;
    var s, spans := FoldedText(text, fold).folded, F.SpanTexts(g, 0);
    RunsOfFold(g);
    var i :| 0 <= i < |spans| && spans[i] == t;
    assert Spelled(spans)[i] == Utf16(t);
    assert s[0..] == s;
    RunsAreRuns(s, 0, Utf16(t));
    RunIsPlaced(s, Utf16(t));
    assert t != "";
  }

  // A term of the text's own words, as the parser reads them, is one for marking.
  lemma {:induction false} WrittenTermIsOwn(text: Units, fold: Units -> Units, t: string)
    requires S.AsciiOnly(t) && t in S.TermsOf(Read(Runs(FoldedText(text, fold).folded)), WrittenFlags(text, fold))
    ensures OwnTerm(text, fold, Utf16(t))
  {
    hide S.TermsOf, P.TermsFrom, S.Words, WordsIn, RunFlags;
    var f := FoldedText(text, fold);
    assert f.folded[0..] == f.folded;
    WordsOfRuns(text, f, 0);
    S.WordsTerms(Read(Runs(f.folded)), WrittenFlags(text, fold));
    Utf16IsRead(t);
  }

  // A term that is no whole word is ASCII.
  lemma {:induction false} JoinedIsRead(g: F.Text, t: string)
    requires "" !in F.SpanTexts(g, 0) && t in P.Terms(g, false, IsBrowserSpace) && t !in F.SpanTexts(g, 0)
    ensures S.AsciiOnly(t) && Ascii(Utf16(t)) == t && Utf16(t) != []
  {
    hide F.SpanTexts, S.TermsOf, S.Flags, P.TermsFrom, S.Words;
    var spans, flags := F.SpanTexts(g, 0), S.Flags(g, 0, IsBrowserSpace);
    S.WordsOfSpans(g, 0, IsBrowserSpace);
    S.WordsTerms(spans, flags);
    ReadIsRespelled(spans);
    S.TermsRespelled(spans, Read(Spelled(spans)), flags, t);
    Utf16IsRead(t);
    T.EmptyTermMeansMarksAlone(g, false, IsBrowserSpace);
  }

  // A search for any term of a text's normalised form marks something in the text as written,
  // unless only the normalised form has the term and the text has it nowhere else.
  lemma {:induction false} SearchMarksItsText(text: Units, fold: Units -> Units, g: F.Text, t: string)
    requires Normalises(text, fold, g) && t in P.Terms(g, false, IsBrowserSpace)
    ensures Marked(text, fold, Utf16(t))
            <==> !OnlyNormalised(text, fold, g, t)
                 || Placed(FoldedText(text, fold).folded, Utf16(t)) || HasSpan(TextSpans(text, fold), t)
  {
    hide F.SpanTexts, F.Fold, FoldedText, Runs, Placed, HasSpan, Marked, OwnTerm, S.TermsOf, S.Flags, S.Lost, WrittenFlags;
    hide P.TermsFrom, S.Words;
    var spans, a, b := F.SpanTexts(g, 0), S.Flags(g, 0, IsBrowserSpace), WrittenFlags(text, fold);
    RunsOfFold(g);
    S.WordsOfSpans(g, 0, IsBrowserSpace);
    S.WordsTerms(spans, a);
    S.TermsAreKept(spans, a, b, t);
    if t in spans {
      SpanIsMarked(text, fold, g, t);
      MarkedExactlyWhen(text, fold, Utf16(t));
    } else {
      JoinedIsRead(g, t);
      MarkedExactlyWhen(text, fold, Utf16(t));
      if t in S.TermsOf(spans, b) {
        ReadIsRespelled(spans);
        S.TermsRespelled(spans, Read(Spelled(spans)), b, t);
        WrittenTermIsOwn(text, fold, t);
        TextMarksItself(text, [Utf16(t)], fold, Utf16(t));
      }
    }
  }

  // ---------------------------------------------------------------------------
  // A text whose own search marks nothing
  // ---------------------------------------------------------------------------

  // "a d… 9": normalised, the ellipsis is three full stops, and "d." may name a catalogue.
  const ELLIPSIS: Units := [0x61, 0x20, 0x64, 0x2026, 0x20, 0x39]

  // How its letters fold: a, d and 9 stay, and the others are spaces.
  function LettersStay(letter: Units): Units {
    if |letter| == 1 && letter[0] in {0x61, 0x64, 0x39} then letter else [SPACE]
  }

  const NORMALISED: F.Text :=
    [F.Character('a', F.Letter), F.Character(' ', F.Other), F.Character('d', F.Letter), F.Character('.', F.Other),
     F.Character('.', F.Other), F.Character('.', F.Other), F.Character(' ', F.Other), F.Character('9', F.Number)]

  const ELLIPSIS_FOLDED := Folded([0x61, 0x20, 0x64, 0x20, 0x20, 0x39], [0, 1, 2, 3, 4, 5], [1, 2, 3, 4, 5, 6])

  lemma LetterFolds(i: nat, f: Folded)
    requires i < 6 && |f.starts| == |f.ends| == |f.folded|
    ensures FoldFrom(ELLIPSIS, i, f, LettersStay)
            == FoldFrom(ELLIPSIS, i + 1, WithLetter(f, i, i + 1, LettersStay([ELLIPSIS[i]])), LettersStay)
  {
    assert LetterEnd(ELLIPSIS, i) == i + 1 && ELLIPSIS[i..i + 1] == [ELLIPSIS[i]];
  }

  lemma EllipsisLetters()
    ensures forall i :: 0 <= i < 6 ==> LettersStay([ELLIPSIS[i]]) == [ELLIPSIS_FOLDED.folded[i]]
  {
  }

  // The first i units of a fold.
  function PartOf(f: Folded, i: nat): (part: Folded)
    requires Even(f) && i <= |f.folded|
    ensures Even(part)
  {
    Folded(f.folded[..i], f.starts[..i], f.ends[..i])
  }

  lemma WholeIsPart(f: Folded)
    requires Even(f)
    ensures PartOf(f, 0) == NothingFolded && PartOf(f, |f.folded|) == f
  {
  }

  // One letter more, where each letter is one unit and folds to one.
  lemma PartGrows(f: Folded, i: nat)
    requires Even(f) && i < |f.folded| && f.starts[i] == i && f.ends[i] == i + 1
    ensures WithLetter(PartOf(f, i), i, i + 1, [f.folded[i]]) == PartOf(f, i + 1)
  {
    assert seq(1, _ => i) == [i] && seq(1, _ => i + 1) == [i + 1];
  }

  lemma {:induction false} EllipsisStep(i: nat)
    requires i < 6
    ensures var f := ELLIPSIS_FOLDED;
            FoldFrom(ELLIPSIS, i, PartOf(f, i), LettersStay) == FoldFrom(ELLIPSIS, i + 1, PartOf(f, i + 1), LettersStay)
  {
    EllipsisLetters();
    hide FoldFrom, LettersStay, WithLetter, PartOf;
    LetterFolds(i, PartOf(ELLIPSIS_FOLDED, i));
    PartGrows(ELLIPSIS_FOLDED, i);
  }

  lemma {:induction false} EllipsisSteps(i: nat)
    requires i <= 6
    ensures FoldFrom(ELLIPSIS, 0, PartOf(ELLIPSIS_FOLDED, 0), LettersStay)
            == FoldFrom(ELLIPSIS, i, PartOf(ELLIPSIS_FOLDED, i), LettersStay)
  {
    hide FoldFrom, LettersStay, PartOf;
    if i > 0 {
      EllipsisSteps(i - 1);
      EllipsisStep(i - 1);
    }
  }

  lemma {:induction false} EllipsisFolds()
    ensures FoldedText(ELLIPSIS, LettersStay) == ELLIPSIS_FOLDED
  {
    hide FoldFrom, LettersStay, PartOf;
    WholeIsPart(ELLIPSIS_FOLDED);
    AllFolded(ELLIPSIS_FOLDED);
    EllipsisSteps(6);
  }

  lemma {:induction false} AllFolded(f: Folded)
    requires Even(f)
    ensures FoldFrom(ELLIPSIS, 6, f, LettersStay) == f
  {
  }

  lemma SpacePasses(text: Units, f: Folded, i: nat)
    requires Even(f) && i < |f.folded| && f.folded[i] == SPACE
    ensures Runs(f.folded[i..]) == Runs(f.folded[i + 1..]) && RunFlags(text, f, i) == RunFlags(text, f, i + 1)
  {
    assert f.folded[i..][1..] == f.folded[i + 1..];
  }

  // A run of one unit.
  lemma UnitIsRun(text: Units, f: Folded, i: nat)
    requires Even(f) && i < |f.folded| && f.folded[i] != SPACE && (i + 1 == |f.folded| || f.folded[i + 1] == SPACE)
    ensures Runs(f.folded[i..]) == [[f.folded[i]]] + Runs(f.folded[i + 1..])
    ensures RunFlags(text, f, i) == [ShortAllowed(text, f.starts[i], f.ends[i])] + RunFlags(text, f, i + 1)
  {
    hide ShortAllowed;
    assert RunEnd(f.folded, i + 1) == i + 1 && f.folded[i..i + 1] == [f.folded[i]];
    RunsFrom(f.folded, i);
  }

  lemma EllipsisAllows()
    ensures ShortAllowed(ELLIPSIS, 0, 1) && !ShortAllowed(ELLIPSIS, 2, 3) && !ShortAllowed(ELLIPSIS, 5, 6)
  {
    assert !IsBlankUnit(ELLIPSIS[0]);
  }

  lemma EllipsisRuns()
    ensures Runs(ELLIPSIS_FOLDED.folded) == [[0x61], [0x64], [0x39]]
    ensures RunFlags(ELLIPSIS, ELLIPSIS_FOLDED, 0) == [true, false, false]
  {
    var f := ELLIPSIS_FOLDED;
    assert f.folded[0..] == f.folded && Runs(f.folded[6..]) == [] && RunFlags(ELLIPSIS, f, 6) == [];
    EllipsisAllows();
    hide Runs, RunFlags, ShortAllowed;
    UnitIsRun(ELLIPSIS, f, 5);
    SpacePasses(ELLIPSIS, f, 4);
    SpacePasses(ELLIPSIS, f, 3);
    UnitIsRun(ELLIPSIS, f, 2);
    SpacePasses(ELLIPSIS, f, 1);
    UnitIsRun(ELLIPSIS, f, 0);
  }

  // One letter or number between others.
  lemma GlyphIsSpan(g: F.Text, i: nat)
    requires i < |g| && F.IsBase(g[i]) && (i + 1 == |g| || !F.InSpan(g[i + 1]))
    ensures F.SpanEnd(g, i) == i + 1 && F.SpanTexts(g, i) == [[g[i].c]] + F.SpanTexts(g, i + 1)
    ensures S.Flags(g, i, IsBrowserSpace) == [P.ShortAllowed(g, i, i + 1, IsBrowserSpace)] + S.Flags(g, i + 1, IsBrowserSpace)
  {
    hide IsBrowserSpace, IsSpace;
    A.LoneLetter(g, i, g[i].c);
  }

  lemma OtherPasses(g: F.Text, i: nat)
    requires i < |g| && !F.InSpan(g[i])
    ensures F.SpanTexts(g, i) == F.SpanTexts(g, i + 1)
    ensures S.Flags(g, i, IsBrowserSpace) == S.Flags(g, i + 1, IsBrowserSpace)
  {
  }

  lemma NormalisedSpans()
    ensures F.SpanTexts(NORMALISED, 0) == ["a", "d", "9"]
    ensures S.Flags(NORMALISED, 0, IsBrowserSpace) == [true, true, false]
  {
    var g := NORMALISED;
    assert F.SpanTexts(g, 8) == [] && S.Flags(g, 8, IsBrowserSpace) == [];
    assert !IsBrowserSpace(g[0].c);
    hide F.SpanTexts, S.Flags;
    GlyphIsSpan(g, 7);
    OtherPasses(g, 6);
    OtherPasses(g, 5);
    OtherPasses(g, 4);
    OtherPasses(g, 3);
    GlyphIsSpan(g, 2);
    OtherPasses(g, 1);
    GlyphIsSpan(g, 0);
  }

  lemma LettersSpelled()
    ensures Utf16("a") == [0x61] && Utf16("d") == [0x64] && Utf16("9") == [0x39] && Utf16("d9") == [0x64, 0x39]
    ensures Ascii([0x61]) == "a" && Ascii([0x64]) == "d" && Ascii([0x39]) == "9"
  {
    assert "a"[1..] == "" && "d"[1..] == "" && "9"[1..] == "" && "d9"[1..] == "9";
  }

  lemma LettersAreRuns()
    ensures Spelled(["a", "d", "9"]) == [[0x61], [0x64], [0x39]]
  {
    LettersSpelled();
    hide Utf16;
  }

  lemma EllipsisIsNormalised()
    ensures Normalises(ELLIPSIS, LettersStay, NORMALISED)
  {
    NormalisedSpans();
    EllipsisFolds();
    EllipsisRuns();
    LettersAreRuns();
    hide F.SpanTexts, F.Fold, FoldedText, Runs, Utf16, Spelled;
    RunsOfFold(NORMALISED);
  }

  lemma NumberIsATerm()
    ensures "d9" in P.Terms(NORMALISED, false, IsBrowserSpace)
  {
    hide P.TermsFrom, S.Words, F.SpanTexts, S.Flags, S.TermsOf, P.WordsFrom;
    NormalisedSpans();
    S.WordsOfSpans(NORMALISED, 0, IsBrowserSpace);
    S.WordsTerms(["a", "d", "9"], [true, true, false]);
    NumberIsOfSpans();
  }

  lemma NumberIsOfSpans()
    ensures "d9" in S.TermsOf(["a", "d", "9"], [true, true, false])
  {
    hide S.Turn;
    var spans, flags := ["a", "d", "9"], [true, true, false];
    LetterAIsATurn();
    assert spans[1..] == ["d", "9"] && flags[1..] == [true, false];
    NumberIsJoined();
    assert S.TermsOf(spans, flags) == ["a"] + S.TermsOf(["d", "9"], [true, false]);
  }

  lemma NumberIsJoined()
    ensures "d9" in S.TermsOf(["d", "9"], [true, false])
  {
    hide S.TermsOf;
    assert "9"[..0] == "" && P.CatalogueNumber("9");
    S.ShortJoined(["d", "9"], [true, false]);
    assert "d" + "9" == "d9";
  }

  lemma LetterAIsATurn()
    ensures S.Turn(["a", "d", "9"], [true, true, false]) == P.Parse(1, ["a"])
  {
    assert P.LeadingLetters("a"[1..]) == 0 && P.LeadingLetters("a") == 1 && "a"[1..] == "";
    assert ["a", "d", "9"][1..] == ["d", "9"];
  }

  lemma NumberIsNotPlaced()
    ensures !Placed(ELLIPSIS_FOLDED.folded, [0x64, 0x39])
  {
    var s, w: Units := ELLIPSIS_FOLDED.folded, [0x64, 0x39];
    forall at: nat
      ensures !Occurs(s, w, at)
    {
      assert at + 2 <= |s| ==> s[at..at + 2][0] == s[at] && s[at..at + 2][1] == s[at + 1];
    }
  }

  const ELLIPSIS_WORDS := [P.Word("a", true), P.Word("d", false), P.Word("9", false)]

  lemma LoneIsWhole(c: char, flag: bool)
    requires P.IsLower(c) || P.IsDigit(c)
    ensures P.SplitWord([c], flag) == [P.Word([c], flag)]
  {
    assert [c][1..] == "" && P.LeadingLetters([c][1..]) == 0;
  }

  lemma {:induction false} ThreeWords()
    ensures S.Words(["a", "d", "9"], [true, false, false]) == ELLIPSIS_WORDS
  {
    hide P.SplitWord;
    LoneIsWhole('a', true);
    LoneIsWhole('d', false);
    LoneIsWhole('9', false);
    assert S.Words(["9"], [false]) == [P.Word("9", false)] + S.Words([], []);
    assert ["d", "9"][1..] == ["9"] && [false, false][1..] == [false];
    assert S.Words(["d", "9"], [false, false]) == [P.Word("d", false)] + S.Words(["9"], [false]);
    assert ["a", "d", "9"][1..] == ["d", "9"] && [true, false, false][1..] == [false, false];
  }

  lemma {:induction false} EllipsisHasWords()
    ensures Parsed(TextWords(ELLIPSIS, LettersStay)) == ELLIPSIS_WORDS
  {
    hide FoldFrom, Runs, RunFlags, WordsIn, S.Words, Ascii;
    var f := ELLIPSIS_FOLDED;
    EllipsisFolds();
    EllipsisRuns();
    WordsOfRuns(ELLIPSIS, f, 0);
    ThreeWords();
    assert f.folded[0..] == f.folded;
    LettersSpelled();
    var runs: seq<Units> := [[0x61], [0x64], [0x39]];
    assert Read(runs) == ["a", "d", "9"];
  }

  // A word that joins nothing has no span.
  lemma AloneHasNoSpan(words: seq<FoldedWord>, i: nat)
    requires i < |words| && ParseAt(words, i).used == 1 && !P.EnglishFlat(words[i].word)
    ensures SpansAt(words, i) == []
  {
    hide P.Catalogue, P.GermanKey, P.GermanMode, P.CatalogueNumber, P.Roman, P.Mode, P.Accidental;
  }

  lemma EllipsisParses(i: nat)
    requires i < 3
    ensures P.ParseAt(ELLIPSIS_WORDS, i, false).used == 1 && !P.EnglishFlat(ELLIPSIS_WORDS[i].text)
  {
    assert P.At(ELLIPSIS_WORDS, 1) == "d" && P.At(ELLIPSIS_WORDS, 2) == "9" && P.At(ELLIPSIS_WORDS, 3) == "";
  }

  lemma EllipsisHasNoSpans()
    ensures TextSpans(ELLIPSIS, LettersStay) == []
  {
    hide TextWords, SpansAt, P.ParseAt, P.EnglishFlat;
    var words := TextWords(ELLIPSIS, LettersStay);
    EllipsisHasWords();
    assert |words| == 3 && forall i :: 0 <= i < 3 ==> Parsed(words)[i].text == words[i].word;
    EllipsisParses(0);
    EllipsisParses(1);
    EllipsisParses(2);
    AloneHasNoSpan(words, 0);
    AloneHasNoSpan(words, 1);
    AloneHasNoSpan(words, 2);
    assert SpansFrom(words, 3) == [] && SpansFrom(words, 2) == [] && SpansFrom(words, 1) == [];
  }

  // The search "a d… 9" has the term d9, and marks nothing for it in that very text.
  lemma {:induction false} EllipsisHidesNumber()
    ensures Normalises(ELLIPSIS, LettersStay, NORMALISED) && "d9" in P.Terms(NORMALISED, false, IsBrowserSpace)
    ensures !Marked(ELLIPSIS, LettersStay, Utf16("d9"))
  {
    EllipsisIsNormalised();
    NumberIsATerm();
    EllipsisFolds();
    NumberIsNotPlaced();
    EllipsisHasNoSpans();
    LettersSpelled();
    hide TextSpans, FoldedText, Placed, Marked, Normalises, P.Terms, Utf16, Ascii;
    MarkedExactlyWhen(ELLIPSIS, LettersStay, Utf16("d9"));
  }
}
