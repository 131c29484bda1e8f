/**
 The parser of search terms, span by span: what it makes of the spans of a text when it is told
 of each whether a bare S, D or L may name a catalogue there, and what changes with that.
 */
module SpanTerms {
  import opened SearchFolds
  import opened SearchParser
  import opened SearchAgreement

  // ---------------------------------------------------------------------------
  // Spans and words
  // ---------------------------------------------------------------------------

  // The words of spans; flags say where a short letter may name a catalogue.
  function Words(spans: seq<string>, flags: seq<bool>): seq<Word>
    requires |flags| == |spans|
  {
    if spans == [] then [] else SplitWord(spans[0], flags[0]) + Words(spans[1..], flags[1..])
  }

  function Flags(text: Text, i: nat, space: char -> bool): (flags: seq<bool>)
    requires i <= |text|
    ensures |flags| == |SpanTexts(text, i)|
    decreases |text| - i
  {
    if i == |text| then []
    else if !InSpan(text[i]) then Flags(text, i + 1, space)
    else [ShortAllowed(text, i, SpanEnd(text, i), space)] + Flags(text, SpanEnd(text, i), space)
  }

  lemma {:induction false} WordsOfSpans(text: Text, i: nat, space: char -> bool)
    requires i <= |text|
    ensures WordsFrom(text, i, space) == Words(SpanTexts(text, i), Flags(text, i, space))
    decreases |text| - i
  {
    hide SplitWord, Strip, ShortAllowed;
    if i < |text| {
      if !InSpan(text[i]) {
        WordsOfSpans(text, i + 1, space);
      } else {
        WordsOfSpans(text, SpanEnd(text, i), space);
      }
    }
  }

  // ---------------------------------------------------------------------------
  // One turn
  // ---------------------------------------------------------------------------

  // A glued catalogue number that is split.
  predicate Splits(w: string, flag: bool) {
    var k := LeadingLetters(w);
    IsGlued(w) && Catalogue(w[..k]) != "" && (!Short(w[..k]) || flag)
  }

  function Letters(w: string): string { w[..LeadingLetters(w)] }

  function Digits(w: string): string { w[LeadingLetters(w)..] }

  // After "hob", a glued number of the letter L is a volume and its number.
  predicate HobL(spans: seq<string>, flags: seq<bool>)
    requires |flags| == |spans|
  {
    |spans| > 1 && spans[0] == "hob" && Splits(spans[1], flags[1]) && Letters(spans[1]) == "l"
  }

  // The spans as words that are not split.
  function Bare(spans: seq<string>): seq<Word> { seq(|spans|, i requires 0 <= i < |spans| => Word(spans[i], false)) }

  function BareParse(spans: seq<string>, flag: bool): (p: Parse)
    requires spans != []
    ensures 1 <= p.used <= |spans| && p.terms != []
  {
    ParseAt([Word(spans[0], flag)] + Bare(spans[1..]), 0, false)
  }

  // How many spans one turn of the parser uses, and what it emits.
  function Turn(spans: seq<string>, flags: seq<bool>): (p: Parse)
    requires |flags| == |spans| && spans != []
    ensures 1 <= p.used <= |spans| && p.terms != []
  {
    if Splits(spans[0], flags[0]) then Parse(1, [Catalogue(Letters(spans[0])) + Digits(spans[0])])
    else if HobL(spans, flags) then Parse(2, [spans[0] + spans[1]])
    else BareParse(spans, flags[0])
  }

  function TermsOf(spans: seq<string>, flags: seq<bool>): seq<string>
    requires |flags| == |spans|
  {
    if spans == [] then []
    else Turn(spans, flags).terms + TermsOf(spans[Turn(spans, flags).used..], flags[Turn(spans, flags).used..])
  }

  // What joins nothing before it.
  predicate JoinsNoNext(s: string) {
    !CatalogueNumber(s) && GermanMode(s) == "" && !Accidental(s) && !Mode(s)
  }

  predicate JoinsNoThird(s: string) { !CatalogueNumber(s) && !Mode(s) && s != "m" }

  // Two words a turn does not tell apart when they come second, or third.
  predicate SameNext(word: string, s: string, t: string) {
    s == t || (JoinsNoNext(s) && JoinsNoNext(t) && (word == "hob" ==> !Roman(s) && !Roman(t)))
  }

  predicate SameThird(s: string, t: string) { s == t || (JoinsNoThird(s) && JoinsNoThird(t)) }

  // No catalogue name is a name of another kind.
  lemma CatalogueIsNoMode(s: string)
    requires Catalogue(s) != ""
    ensures s != "dur" && s != "moll" && s != "major" && s != "minor" && s != "sharp" && s != "flat" && s != "m"
  {
  }

  lemma RomanCatalogue(s: string)
    requires Catalogue(s) != "" && Roman(s)
    ensures s == "l"
  {
    assert s[0] in {'i', 'v', 'x', 'l'};
  }

  lemma CatalogueJoinsNothing(s: string)
    requires Catalogue(s) != ""
    ensures JoinsNoNext(s) && JoinsNoThird(s) && (Roman(s) ==> s == "l")
  {
    CatalogueIsNoMode(s);
    CatalogueStartsLower(s);
    if Roman(s) {
      RomanCatalogue(s);
    }
    hide Catalogue, Roman;
  }

  lemma CatalogueStartsLower(s: string)
    requires Catalogue(s) != ""
    ensures !CatalogueNumber(s)
  {
  }

  lemma KnownAreLower(s: string)
    ensures GermanMode(s) != "" || Accidental(s) || Mode(s) || s == "m" || s == "hob" || Roman(s) ==> AllLower(s)
  {
  }

  lemma GluedJoinsNothing(s: string)
    requires IsGlued(s)
    ensures JoinsNoNext(s) && JoinsNoThird(s) && !Roman(s) && s != "hob" && s != ""
  {
    var k := LeadingLetters(s);
    assert IsDigit(s[k]) && IsLower(s[0]) && !AllLower(s);
    KnownAreLower(s);
    hide GermanMode, Accidental, Mode, Roman, LeadingLetters, AllLower;
  }

  // What one turn does depends on its first word, and on the next two as far as they join.
  lemma ParseByNext(w: Word, x: seq<Word>, y: seq<Word>)
    requires SameNext(w.text, At(x, 0), At(y, 0))
    requires At(x, 0) == At(y, 0) ==> SameThird(At(x, 1), At(y, 1))
    ensures ParseAt([w] + x, 0, false) == ParseAt([w] + y, 0, false)
  {
    var xs, ys := [w] + x, [w] + y;
    assert At(xs, 1) == At(x, 0) && At(xs, 2) == At(x, 1) && At(ys, 1) == At(y, 0) && At(ys, 2) == At(y, 1);
    HobIsHob(w.text);
    hide Catalogue, GermanKey, GermanMode, CatalogueNumber, Roman, Mode, Accidental;
  }

  lemma HobIsHob(s: string)
    ensures Catalogue(s) == "hob" ==> s == "hob"
  {
  }

  // A turn that uses more words than one joins them.
  lemma UsedJoin(w: Word, x: seq<Word>)
    ensures var p := ParseAt([w] + x, 0, false);
            && (p.used > 1 ==> !(JoinsNoNext(At(x, 0)) && !(w.text == "hob" && Roman(At(x, 0)))))
            && (p.used > 2 ==> !JoinsNoThird(At(x, 1)))
  {
    var xs := [w] + x;
    assert At(xs, 1) == At(x, 0) && At(xs, 2) == At(x, 1);
    HobIsHob(w.text);
    hide Catalogue, GermanKey, GermanMode, CatalogueNumber, Roman, Mode, Accidental;
  }

  lemma SplitsAre(w: string, flag: bool)
    ensures Splits(w, flag) ==> SplitWord(w, flag) == [Word(Letters(w), flag), Word(Digits(w), false)]
                                && IsGlued(w) && Catalogue(Letters(w)) != "" && CatalogueNumber(Digits(w))
                                && (Short(Letters(w)) ==> flag) && Letters(w) + Digits(w) == w
    ensures !Splits(w, flag) ==> SplitWord(w, flag) == [Word(w, flag)]
  {
    hide Catalogue, CatalogueNumber, Short;
  }

  lemma SplitParses(w: string, flag: bool, rest: seq<Word>)
    requires Splits(w, flag)
    ensures ParseAt(SplitWord(w, flag) + rest, 0, false) == Parse(2, [Catalogue(Letters(w)) + Digits(w)])
  {
    SplitsAre(w, flag);
    var words := SplitWord(w, flag) + rest;
    assert words[0] == Word(Letters(w), flag) && At(words, 1) == Digits(w);
    assert !Roman(Digits(w)) by {
      assert IsDigit(Digits(w)[0]);
    }
    hide Catalogue, CatalogueNumber, Roman, SplitWord, Splits;
  }

  lemma HobLParses(flag: bool, w: string, other: bool, rest: seq<Word>)
    requires Splits(w, other) && Letters(w) == "l"
    ensures ParseAt([Word("hob", flag)] + (SplitWord(w, other) + rest), 0, false) == Parse(3, ["hob" + w])
  {
    SplitsAre(w, other);
    var words := [Word("hob", flag)] + (SplitWord(w, other) + rest);
    assert CatalogueOf(words[0]) == "hob" && Roman("l");
    hide Catalogue, CatalogueNumber, SplitWord, Splits, CatalogueOf, Roman, GermanKey, GermanMode;
    assert At(words, 1) == "l" && At(words, 2) == Digits(w);
    assert "hob" + "l" + Digits(w) == "hob" + w;
  }

  // The words of spans join a turn as the spans do.
  lemma {:induction false} WordsJoinAlike(word: string, spans: seq<string>, flags: seq<bool>)
    requires |flags| == |spans|
    requires !(spans != [] && word == "hob" && Splits(spans[0], flags[0]) && Letters(spans[0]) == "l")
    ensures var x, y := Words(spans, flags), Bare(spans);
            && SameNext(word, At(x, 0), At(y, 0))
            && (At(x, 0) == At(y, 0) ==> SameThird(At(x, 1), At(y, 1)))
  {
    hide JoinsNoNext, JoinsNoThird, Roman, Splits, SplitWord;
    if spans != [] {
      FirstOfWords(spans, flags);
      SplitsAre(spans[0], flags[0]);
      if Splits(spans[0], flags[0]) {
        CatalogueJoinsNothing(Letters(spans[0]));
        GluedJoinsNothing(spans[0]);
        LettersAreShorter(spans[0]);
      } else if |spans| > 1 {
        FirstOfWords(spans[1..], flags[1..]);
        SplitsAre(spans[1], flags[1]);
        if Splits(spans[1], flags[1]) {
          CatalogueJoinsNothing(Letters(spans[1]));
          GluedJoinsNothing(spans[1]);
        }
      }
    }
  }

  lemma LettersAreShorter(w: string)
    requires IsGlued(w)
    ensures Letters(w) != w
  {
  }

  lemma {:induction false} FirstOfWords(spans: seq<string>, flags: seq<bool>)
    requires |flags| == |spans| && spans != []
    ensures Words(spans, flags) != [] && Words(spans, flags)[0].text == if Splits(spans[0], flags[0]) then Letters(spans[0]) else spans[0]
    ensures !Splits(spans[0], flags[0]) ==> At(Words(spans, flags), 1) == At(Words(spans[1..], flags[1..]), 0)
  {
    SplitsAre(spans[0], flags[0]);
    hide Splits, SplitWord;
  }

  // The words of spans that are not split come one by one.
  lemma {:induction false} WordsDrop(spans: seq<string>, flags: seq<bool>, n: nat)
    requires |flags| == |spans| && n <= |spans| && forall i :: 0 <= i < n ==> !Splits(spans[i], flags[i])
    ensures n <= |Words(spans, flags)| && Words(spans, flags)[n..] == Words(spans[n..], flags[n..])
    decreases n
  {
    hide Splits, SplitWord;
    if n > 0 {
      SplitsAre(spans[0], flags[0]);
      WordsDrop(spans[1..], flags[1..], n - 1);
      assert spans[1..][n - 1..] == spans[n..] && flags[1..][n - 1..] == flags[n..];
      assert Words(spans, flags)[n..] == Words(spans[1..], flags[1..])[n - 1..];
    }
  }

  lemma {:induction false} TermsAfter(words: seq<Word>, n: nat, rest: seq<Word>)
    requires n <= |words| && words[n..] == rest
    ensures TermsFrom(words, n, false) == TermsFrom(rest, 0, false)
  {
    hide TermsFrom;
    assert Follows(words, n, rest);
    TermsShift(words, n, rest, 0, false);
  }

  // A turn that joins spans finds none of them split.
  lemma JoinedAreWhole(spans: seq<string>, flags: seq<bool>)
    requires |flags| == |spans| && spans != [] && !Splits(spans[0], flags[0])
    ensures forall i :: 0 <= i < BareParse(spans, flags[0]).used ==> !Splits(spans[i], flags[i])
  {
    hide JoinsNoNext, JoinsNoThird, Roman, IsGlued, Catalogue;
    var p, rest := BareParse(spans, flags[0]), Bare(spans[1..]);
    UsedJoin(Word(spans[0], flags[0]), rest);
    ParseIsShort([Word(spans[0], flags[0])] + rest);
    if |spans| > 1 && Splits(spans[1], flags[1]) {
      GluedJoinsNothing(spans[1]);
    }
    if |spans| > 2 && Splits(spans[2], flags[2]) {
      GluedJoinsNothing(spans[2]);
    }
  }

  lemma ParseIsShort(words: seq<Word>)
    requires words != []
    ensures ParseAt(words, 0, false).used <= 3
  {
    hide Catalogue, GermanKey, GermanMode, CatalogueNumber, Roman, Mode, Accidental;
  }

  // The parser's terms of the words are those of the turns over the spans.
  lemma {:induction false} WordsTerms(spans: seq<string>, flags: seq<bool>)
    requires |flags| == |spans|
    ensures TermsFrom(Words(spans, flags), 0, false) == TermsOf(spans, flags)
    decreases |spans|
  {
    hide Splits, SplitWord, BareParse, ParseAt;
    if spans != [] {
      var words, rest, n := Words(spans, flags), Words(spans[1..], flags[1..]), Turn(spans, flags).used;
      SplitsAre(spans[0], flags[0]);
      if Splits(spans[0], flags[0]) {
        SplitParses(spans[0], flags[0], rest);
        TermsAfter(words, 2, rest);
      } else if HobL(spans, flags) {
        var later := Words(spans[2..], flags[2..]);
        SplitsAre(spans[1], flags[1]);
        assert spans[1..][1..] == spans[2..] && flags[1..][1..] == flags[2..];
        HobLParses(flags[0], spans[1], flags[1], later);
        TermsAfter(words, 3, later);
      } else {
        BareTurn(spans, flags);
        JoinedAreWhole(spans, flags);
        WordsDrop(spans, flags, n);
        TermsAfter(words, n, Words(spans[n..], flags[n..]));
      }
      WordsTerms(spans[n..], flags[n..]);
    }
  }

  lemma {:induction false} BareTurn(spans: seq<string>, flags: seq<bool>)
    requires |flags| == |spans| && spans != [] && !Splits(spans[0], flags[0]) && !HobL(spans, flags)
    ensures ParseAt(Words(spans, flags), 0, false) == BareParse(spans, flags[0])
  {
    hide Splits, SplitWord, ParseAt, SameNext, SameThird;
    SplitsAre(spans[0], flags[0]);
    WordsJoinAlike(spans[0], spans[1..], flags[1..]);
    ParseByNext(Word(spans[0], flags[0]), Words(spans[1..], flags[1..]), Bare(spans[1..]));
  }

  // ---------------------------------------------------------------------------
  // Other flags
  // ---------------------------------------------------------------------------

  // A number that is joined under the flags a, and under b is not: after a bare S, D or L, or
  // glued to an L after "hob".
  predicate LostAt(spans: seq<string>, a: seq<bool>, b: seq<bool>, k: nat)
    requires |a| == |b| == |spans|
  {
    && k + 1 < |spans|
    && ((Short(spans[k]) && CatalogueNumber(spans[k + 1]) && a[k] && !b[k])
        || (spans[k] == "hob" && Splits(spans[k + 1], a[k + 1]) && !Splits(spans[k + 1], b[k + 1])
            && Letters(spans[k + 1]) == "l"))
  }

  ghost predicate Lost(spans: seq<string>, a: seq<bool>, b: seq<bool>, t: string)
    requires |a| == |b| == |spans|
  {
    exists k: nat :: LostAt(spans, a, b, k) && t == spans[k] + spans[k + 1]
  }

  lemma LostLater(spans: seq<string>, a: seq<bool>, b: seq<bool>, n: nat, t: string)
    requires |a| == |b| == |spans| && n <= |spans| && Lost(spans[n..], a[n..], b[n..], t)
    ensures Lost(spans, a, b, t)
  {
    hide Splits, Short, CatalogueNumber, Letters;
    var k: nat :| LostAt(spans[n..], a[n..], b[n..], k) && t == spans[n..][k] + spans[n..][k + 1];
    assert LostAt(spans, a, b, n + k);
  }

  // A glued short number is the same term split or not.
  lemma GluedShortTurn(spans: seq<string>, a: seq<bool>, b: seq<bool>)
    requires |a| == |b| == |spans| && spans != [] && Splits(spans[0], a[0]) && !Splits(spans[0], b[0])
    ensures Turn(spans, a) == Parse(1, [spans[0]]) == Turn(spans, b)
  {
    var w := spans[0];
    SplitsAre(w, a[0]);
    GluedJoinsNothing(w);
    ShortNames(Letters(w), "");
    GluedIsWhole(spans, b[0]);
    hide Catalogue, IsGlued;
  }

  lemma GluedIsWhole(spans: seq<string>, flag: bool)
    requires spans != [] && IsGlued(spans[0])
    ensures BareParse(spans, flag) == Parse(1, [spans[0]])
  {
    var w, k := spans[0], LeadingLetters(spans[0]);
    assert IsDigit(w[k]);
    GluedIsNoName(w, k);
    hide Catalogue, GermanKey, GermanMode;
  }

  // "hob" joins no glued number that stays whole, nor that number anything.
  lemma {:induction false} HobAlone(spans: seq<string>, flags: seq<bool>)
    requires |flags| == |spans| && |spans| > 1 && spans[0] == "hob" && IsGlued(spans[1]) && !Splits(spans[1], flags[1])
    ensures TermsOf(spans, flags) == ["hob", spans[1]] + TermsOf(spans[2..], flags[2..])
  {
    hide Splits, ParseAt;
    HobIsNotGlued(flags[0]);
    HobParses(spans, flags[0]);
    GluedIsWhole(spans[1..], flags[1]);
    GluedJoinsNothing(spans[1]);
    TwoTurns(spans, flags);
  }

  lemma HobIsNotGlued(flag: bool)
    ensures !Splits("hob", flag)
  {
    assert LeadingLetters("ob") == 2 && LeadingLetters("hob") == 3;
  }

  lemma HobParses(spans: seq<string>, flag: bool)
    requires |spans| > 1 && spans[0] == "hob" && IsGlued(spans[1])
    ensures BareParse(spans, flag) == Parse(1, ["hob"])
  {
    hide CatalogueNumber, Roman, IsGlued;
    GluedJoinsNothing(spans[1]);
    var words := [Word("hob", flag)] + Bare(spans[1..]);
    assert At(words, 1) == spans[1];
  }

  // Two turns of one span each.
  lemma {:induction false} TwoTurns(spans: seq<string>, flags: seq<bool>)
    requires |flags| == |spans| && |spans| > 1
    requires Turn(spans, flags) == Parse(1, [spans[0]]) && Turn(spans[1..], flags[1..]) == Parse(1, [spans[1]])
    ensures TermsOf(spans, flags) == [spans[0], spans[1]] + TermsOf(spans[2..], flags[2..])
  {
    hide Turn;
    assert spans[1..][1..] == spans[2..] && flags[1..][1..] == flags[2..];
    assert TermsOf(spans[1..], flags[1..]) == [spans[1]] + TermsOf(spans[2..], flags[2..]);
    assert [spans[0]] + ([spans[1]] + TermsOf(spans[2..], flags[2..])) == [spans[0], spans[1]] + TermsOf(spans[2..], flags[2..]);
  }

  lemma NumberIsNotSplit(s: string, flag: bool)
    requires CatalogueNumber(s) || Short(s)
    ensures !Splits(s, flag)
  {
  }

  // A bare S, D or L and a number are two terms where the letter may not name a catalogue.
  lemma {:induction false} ShortApart(spans: seq<string>, flags: seq<bool>)
    requires |flags| == |spans| && |spans| > 1 && Short(spans[0]) && CatalogueNumber(spans[1]) && !flags[0]
    ensures TermsOf(spans, flags) == [spans[0], spans[1]] + TermsOf(spans[2..], flags[2..])
  {
    hide Splits, ParseAt, CatalogueNumber;
    NumberIsNotSplit(spans[0], flags[0]);
    NumberIsNotSplit(spans[1], flags[1]);
    ShortNames(spans[0], spans[1]);
    FirstWordParses(spans[0], false, Bare(spans[1..]), false);
    NumberIsWhole(spans[1..], flags[1]);
    NumberIsNoHob(spans[1]);
    TwoTurns(spans, flags);
  }

  lemma NumberIsNoHob(s: string)
    requires CatalogueNumber(s)
    ensures s != "hob"
  {
  }

  lemma NumberIsWhole(spans: seq<string>, flag: bool)
    requires spans != [] && CatalogueNumber(spans[0])
    ensures BareParse(spans, flag) == Parse(1, [spans[0]])
  {
    NumberIsNoName(spans[0]);
    hide Catalogue, GermanKey, GermanMode;
  }

  // Where both turns are on spans that are not split, they differ only in a short letter's flag.
  lemma BareTurnsAlike(spans: seq<string>, a: bool, b: bool)
    requires spans != [] && (a == b || !(Short(spans[0]) && |spans| > 1 && CatalogueNumber(spans[1])))
    ensures BareParse(spans, a) == BareParse(spans, b)
  {
    hide ParseAt, Short, CatalogueNumber;
    NothingIsNoNumber();
    FirstWordParses(spans[0], a, Bare(spans[1..]), false);
  }

  lemma NothingIsNoNumber()
    ensures !CatalogueNumber("")
  {
  }

  // The result of comparing: t is a whole span, a term under b as well, or lost.
  ghost predicate Kept(spans: seq<string>, a: seq<bool>, b: seq<bool>, t: string)
    requires |a| == |b| == |spans|
  {
    t in spans || t in TermsOf(spans, b) || Lost(spans, a, b, t)
  }

  lemma {:induction false} KeptLater(spans: seq<string>, a: seq<bool>, b: seq<bool>, n: nat, t: string)
    requires |a| == |b| == |spans| && n <= |spans| && Kept(spans[n..], a[n..], b[n..], t)
    requires forall u :: u in TermsOf(spans[n..], b[n..]) ==> u in TermsOf(spans, b)
    ensures Kept(spans, a, b, t)
  {
    hide TermsOf, Lost;
    if Lost(spans[n..], a[n..], b[n..], t) {
      LostLater(spans, a, b, n, t);
    }
  }

  // Every term under the flags a is a whole span, a term under the flags b, or a lost number.
  lemma {:induction false} TermsAreKept(spans: seq<string>, a: seq<bool>, b: seq<bool>, t: string)
    requires |a| == |b| == |spans| && t in TermsOf(spans, a)
    ensures Kept(spans, a, b, t)
    decreases |spans|
  {
    hide Splits, BareParse, Short, CatalogueNumber;
    if Splits(spans[0], a[0]) != Splits(spans[0], b[0]) {
      if Splits(spans[0], a[0]) {
        GluedShortTurn(spans, a, b);
      } else {
        GluedShortTurn(spans, b, a);
      }
      AlikeIsKept(spans, a, b, t);
    } else if !Splits(spans[0], a[0]) && HobL(spans, a) != HobL(spans, b) {
      HobIsKept(spans, a, b, t);
    } else if !Splits(spans[0], a[0]) && !HobL(spans, a) && a[0] != b[0] && Short(spans[0])
              && |spans| > 1 && CatalogueNumber(spans[1]) {
      ShortIsKept(spans, a, b, t);
    } else {
      if !Splits(spans[0], a[0]) && !HobL(spans, a) {
        BareTurnsAlike(spans, a[0], b[0]);
      }
      AlikeIsKept(spans, a, b, t);
    }
  }

  lemma {:induction false} AlikeIsKept(spans: seq<string>, a: seq<bool>, b: seq<bool>, t: string)
    requires |a| == |b| == |spans| && t in TermsOf(spans, a) && Turn(spans, a) == Turn(spans, b)
    ensures Kept(spans, a, b, t)
    decreases |spans|, 0
  {
    hide Turn, Lost;
    var p := Turn(spans, a);
    if t !in p.terms {
      TermsAreKept(spans[p.used..], a[p.used..], b[p.used..], t);
      KeptLater(spans, a, b, p.used, t);
    }
  }

  lemma {:induction false} HobIsKept(spans: seq<string>, a: seq<bool>, b: seq<bool>, t: string)
    requires |a| == |b| == |spans| && spans != [] && t in TermsOf(spans, a)
    requires !Splits(spans[0], a[0]) && !Splits(spans[0], b[0]) && HobL(spans, a) != HobL(spans, b)
    ensures Kept(spans, a, b, t)
    decreases |spans|, 0
  {
    hide Splits, BareParse;
    SplitsAre(spans[1], a[1]);
    SplitsAre(spans[1], b[1]);
    if HobL(spans, a) {
      assert LostAt(spans, a, b, 0);
      HobAlone(spans, b);
    } else {
      HobAlone(spans, a);
    }
    if t != spans[0] + spans[1] && t != spans[0] && t != spans[1] {
      TermsAreKept(spans[2..], a[2..], b[2..], t);
      KeptLater(spans, a, b, 2, t);
    }
  }

  lemma {:induction false} ShortIsKept(spans: seq<string>, a: seq<bool>, b: seq<bool>, t: string)
    requires |a| == |b| == |spans| && |spans| > 1 && t in TermsOf(spans, a)
    requires a[0] != b[0] && Short(spans[0]) && CatalogueNumber(spans[1])
    ensures Kept(spans, a, b, t)
    decreases |spans|, 0
  {
    hide Splits, CatalogueNumber;
    if a[0] {
      assert LostAt(spans, a, b, 0);
      ShortApart(spans, b);
      ShortJoined(spans, a);
    } else {
      ShortApart(spans, a);
      ShortJoined(spans, b);
    }
    if t != spans[0] + spans[1] && t != spans[0] && t != spans[1] {
      TermsAreKept(spans[2..], a[2..], b[2..], t);
      KeptLater(spans, a, b, 2, t);
    }
  }

  lemma {:induction false} ShortJoined(spans: seq<string>, flags: seq<bool>)
    requires |flags| == |spans| && |spans| > 1 && Short(spans[0]) && CatalogueNumber(spans[1]) && flags[0]
    ensures TermsOf(spans, flags) == [spans[0] + spans[1]] + TermsOf(spans[2..], flags[2..])
  {
    hide Splits, ParseAt, CatalogueNumber;
    NumberIsNotSplit(spans[0], flags[0]);
    ShortNames(spans[0], spans[1]);
    FirstWordParses(spans[0], true, Bare(spans[1..]), false);
  }

  // ---------------------------------------------------------------------------
  // Letters beyond ASCII
  // ---------------------------------------------------------------------------

  predicate AsciiOnly(s: string) { forall i :: 0 <= i < |s| ==> s[i] < '\U{80}' }

  // The same spans, where one that is not ASCII may be spelled otherwise, if not in ASCII.
  predicate Respelled(spans: seq<string>, others: seq<string>) {
    && |others| == |spans|
    && forall i :: 0 <= i < |spans| ==>
         if AsciiOnly(spans[i]) then others[i] == spans[i] else !AsciiOnly(others[i])
  }

  lemma LowerIsAscii(s: string)
    requires AllLower(s)
    ensures AsciiOnly(s)
  {
    forall i | 0 <= i < |s|
      ensures s[i] < '\U{80}'
    {
      assert IsLower(s[i]);
    }
  }

  lemma AsciiTogether(s: string, t: string)
    requires AsciiOnly(s) && AsciiOnly(t)
    ensures AsciiOnly(s + t)
  {
  }

  lemma NumberIsAscii(s: string)
    requires CatalogueNumber(s)
    ensures AsciiOnly(s)
  {
    forall i | 0 <= i < |s|
      ensures s[i] < '\U{80}'
    {
      assert i < |s| - 1 ==> s[..|s| - 1][i] == s[i];
    }
  }

  lemma GluedIsAscii(s: string)
    requires IsGlued(s)
    ensures AsciiOnly(s) && AsciiOnly(Letters(s)) && AsciiOnly(Digits(s))
  {
    NumberIsAscii(Digits(s));
    LowerIsAscii(Letters(s));
    AsciiTogether(Letters(s), Digits(s));
    assert Letters(s) + Digits(s) == s;
  }

  lemma CatalogueIsAscii(s: string)
    requires Catalogue(s) != ""
    ensures AsciiOnly(s)
  {
  }

  lemma KeyIsAscii(s: string)
    requires GermanKey(s) != ""
    ensures AsciiOnly(s)
  {
  }

  lemma ModeIsAscii(s: string)
    requires GermanMode(s) != "" || Accidental(s) || Mode(s) || s == "m" || s == "hob" || Roman(s) || EnglishFlat(s) || Note(s)
    ensures AsciiOnly(s)
  {
  }

  // What the recognisers know is ASCII.
  lemma ForeignIsNothing(s: string)
    requires !AsciiOnly(s)
    ensures Catalogue(s) == "" && GermanKey(s) == "" && GermanMode(s) == "" && !EnglishFlat(s) && !Note(s)
    ensures !CatalogueNumber(s) && !Accidental(s) && !Mode(s) && s != "m" && !Roman(s) && !IsGlued(s) && s != "hob"
  {
    hide Catalogue, GermanKey, GermanMode, EnglishFlat, Note, CatalogueNumber, Accidental, Mode, Roman, IsGlued, AsciiOnly;
    if Catalogue(s) != "" {
      CatalogueIsAscii(s);
    }
    if GermanKey(s) != "" {
      KeyIsAscii(s);
    }
    if GermanMode(s) != "" || Accidental(s) || Mode(s) || s == "m" || s == "hob" || Roman(s) || EnglishFlat(s) || Note(s) {
      ModeIsAscii(s);
    }
    if CatalogueNumber(s) {
      NumberIsAscii(s);
    }
    if IsGlued(s) {
      GluedIsAscii(s);
    }
  }

  lemma ForeignTurn(spans: seq<string>, flags: seq<bool>)
    requires |flags| == |spans| && spans != [] && !AsciiOnly(spans[0])
    ensures Turn(spans, flags) == Parse(1, [spans[0]])
  {
    ForeignIsNothing(spans[0]);
    hide Catalogue, GermanKey, GermanMode, IsGlued, CatalogueNumber, Roman, AsciiOnly;
  }

  lemma RespelledNext(word: string, spans: seq<string>, others: seq<string>)
    requires Respelled(spans, others)
    ensures SameNext(word, At(Bare(spans), 0), At(Bare(others), 0))
    ensures SameThird(At(Bare(spans), 1), At(Bare(others), 1))
  {
    hide AsciiOnly, Catalogue, CatalogueNumber, Roman, IsGlued, GermanMode, GermanKey;
    forall i | 0 <= i < |spans| && !AsciiOnly(spans[i])
      ensures JoinsNoNext(spans[i]) && JoinsNoNext(others[i]) && !Roman(spans[i]) && !Roman(others[i])
      ensures JoinsNoThird(spans[i]) && JoinsNoThird(others[i])
    {
      ForeignIsNothing(spans[i]);
      ForeignIsNothing(others[i]);
    }
  }

  lemma RespelledTurn(spans: seq<string>, others: seq<string>, flags: seq<bool>)
    requires |flags| == |spans| && spans != [] && Respelled(spans, others) && AsciiOnly(spans[0])
    ensures Turn(spans, flags) == Turn(others, flags)
  {
    hide AsciiOnly, ParseAt, SameNext, SameThird;
    RespelledHobL(spans, others, flags);
    RespelledNext(spans[0], spans[1..], others[1..]);
    ParseByNext(Word(spans[0], flags[0]), Bare(spans[1..]), Bare(others[1..]));
  }

  lemma RespelledHobL(spans: seq<string>, others: seq<string>, flags: seq<bool>)
    requires |flags| == |spans| && spans != [] && Respelled(spans, others) && AsciiOnly(spans[0])
    ensures HobL(spans, flags) == HobL(others, flags) && (HobL(spans, flags) ==> spans[1] == others[1])
  {
    hide AsciiOnly, Catalogue, IsGlued;
    if |spans| > 1 && !AsciiOnly(spans[1]) {
      ForeignIsNothing(spans[1]);
      ForeignIsNothing(others[1]);
    }
  }

  lemma BareTermIsAscii(spans: seq<string>, flag: bool)
    requires spans != [] && AsciiOnly(spans[0])
    ensures forall t :: t in BareParse(spans, flag).terms ==> AsciiOnly(t)
  {
    hide AsciiOnly, Catalogue, GermanKey, GermanMode, CatalogueNumber, Roman, IsGlued, Mode, Accidental;
    var words := [Word(spans[0], flag)] + Bare(spans[1..]);
    PiecesAreAscii(spans[0], At(words, 1), At(words, 2));
    if !AsciiOnly(At(words, 1)) {
      ForeignIsNothing(At(words, 1));
    }
    if !AsciiOnly(At(words, 2)) {
      ForeignIsNothing(At(words, 2));
    }
  }

  // All the terms a turn can put together of a word and the next two.
  lemma PiecesAreAscii(word: string, next: string, third: string)
    requires AsciiOnly(word)
    ensures AsciiOnly(GermanKey(word) + GermanMode(next))
    ensures word != "" ==> AsciiOnly(word[..1] + "flat")
    ensures AsciiOnly(next) ==> AsciiOnly(Catalogue(word) + next) && AsciiOnly(word + next) && AsciiOnly(word + next + "minor")
    ensures AsciiOnly(next) && word != "" ==> AsciiOnly(word[..1] + "flat" + next)
    ensures AsciiOnly(next) && AsciiOnly(third) ==> AsciiOnly(Catalogue(word) + next + third) && AsciiOnly(word + next + third)
  {
    assert AsciiOnly("flat") && AsciiOnly("minor") && (word != "" ==> AsciiOnly(word[..1]));
    LowerIsAscii(Catalogue(word));
    LowerIsAscii(GermanKey(word));
    LowerIsAscii(GermanMode(next));
    hide AsciiOnly, Catalogue, GermanKey, GermanMode;
    AsciiTogether(GermanKey(word), GermanMode(next));
    if word != "" {
      AsciiTogether(word[..1], "flat");
    }
    if AsciiOnly(next) {
      AsciiTogether(Catalogue(word), next);
      AsciiTogether(word, next);
      AsciiTogether(word + next, "minor");
      if word != "" {
        AsciiTogether(word[..1] + "flat", next);
      }
      if AsciiOnly(third) {
        AsciiTogether(Catalogue(word) + next, third);
        AsciiTogether(word + next, third);
      }
    }
  }

  lemma TurnIsAscii(spans: seq<string>, flags: seq<bool>, t: string)
    requires |flags| == |spans| && spans != [] && AsciiOnly(spans[0]) && t in Turn(spans, flags).terms
    ensures AsciiOnly(t)
  {
    hide AsciiOnly, Catalogue, BareParse, IsGlued;
    BareTermIsAscii(spans, flags[0]);
    if Splits(spans[0], flags[0]) {
      GluedIsAscii(spans[0]);
      LowerIsAscii(Catalogue(Letters(spans[0])));
      AsciiTogether(Catalogue(Letters(spans[0])), Digits(spans[0]));
    } else if HobL(spans, flags) {
      GluedIsAscii(spans[1]);
      AsciiTogether(spans[0], spans[1]);
    }
  }

  // A term is a whole span, or ASCII and a term of the respelled spans too.
  lemma {:induction false} TermsRespelled(spans: seq<string>, others: seq<string>, flags: seq<bool>, t: string)
    requires |flags| == |spans| && Respelled(spans, others) && t in TermsOf(spans, flags)
    ensures t in spans || (AsciiOnly(t) && t in TermsOf(others, flags))
    decreases |spans|
  {
    hide Turn, AsciiOnly;
    var p := Turn(spans, flags);
    if AsciiOnly(spans[0]) {
      RespelledTurn(spans, others, flags);
      if t in p.terms {
        TurnIsAscii(spans, flags, t);
      }
    } else {
      ForeignTurn(spans, flags);
      ForeignTurn(others, flags);
    }
    if t !in p.terms {
      TermsRespelled(spans[p.used..], others[p.used..], flags[p.used..], t);
    }
  }
}
