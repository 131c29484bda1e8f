/**
 Where the API's search and the browser's, which are meant to be the same function, agree and
 where they do not.
 */
module SearchAgreement {
  import opened SearchStrings
  import opened SearchFolds
  import opened SearchParser
  import opened SearchIndexes
  import opened SearchTheorems

  // ---------------------------------------------------------------------------
  // Ranks
  // ---------------------------------------------------------------------------

  lemma {:induction false} EmptyWordStays(index: string, seen: set<string>, terms: seq<string>)
    requires index != "" && IsToken(index, "")
    ensures IsToken(WithTerms(index, seen, terms), "")
    decreases |terms|
  {
    if terms != [] {
      if terms[0] in seen {
        EmptyWordStays(index, seen, terms[1..]);
      } else {
        TokenStays(index, "", terms[0]);
        EmptyWordStays(WithTerm(index, terms[0]), seen + {terms[0]}, terms[1..]);
      }
    }
  }

  lemma {:induction false} EmptyTermIsIndexed(index: string, seen: set<string>, terms: seq<string>)
    requires index != "" && "" !in seen && "" in terms
    ensures IsToken(WithTerms(index, seen, terms), "")
    decreases |terms|
  {
    if terms[0] in seen {
      EmptyTermIsIndexed(index, seen, terms[1..]);
    } else if terms[0] == "" {
      LastIsToken(index, "");
      EmptyWordStays(index + " " + "", seen + {""}, terms[1..]);
    } else {
      EmptyTermIsIndexed(WithTerm(index, terms[0]), seen + {terms[0]}, terms[1..]);
    }
  }

  // ---------------------------------------------------------------------------
  // Terms under two notions of white space
  // ---------------------------------------------------------------------------

  // The position of the first span.
  function FirstSpan(text: Text, i: nat): (j: nat)
    requires i <= |text|
    ensures i <= j <= |text| && (forall k :: i <= k < j ==> !InSpan(text[k])) && (j < |text| ==> InSpan(text[j]))
    decreases |text| - i
  {
    if i < |text| && !InSpan(text[i]) then FirstSpan(text, i + 1) else i
  }

  lemma {:induction false} WordsStart(text: Text, i: nat, space: char -> bool)
    requires i <= |text|
    ensures WordsFrom(text, i, space) == WordsFrom(text, FirstSpan(text, i), space)
    decreases |text| - i
  {
    if i < |text| && !InSpan(text[i]) {
      WordsStart(text, i + 1, space);
    }
  }

  // After a letter, number or mark, white space plays no part.
  lemma {:induction false} LaterWordsAgree(text: Text, i: nat, first: nat)
    requires first < i <= |text| && InSpan(text[first])
    ensures WordsFrom(text, i, IsSpace) == WordsFrom(text, i, IsBrowserSpace)
    decreases |text| - i
  {
    hide SplitWord;
    if i < |text| {
      if !InSpan(text[i]) {
        LaterWordsAgree(text, i + 1, first);
      } else {
        var j := SpanEnd(text, i);
        assert !IsSpace(text[first].c) && !IsBrowserSpace(text[first].c);
        assert ShortAllowed(text, i, j, IsSpace) == ShortAllowed(text, i, j, IsBrowserSpace);
        LaterWordsAgree(text, j, first);
      }
    }
  }

  // rest stands in words after the first n.
  predicate Follows(words: seq<Word>, n: nat, rest: seq<Word>) {
    |words| == n + |rest| && forall k :: 0 <= k < |rest| ==> words[n + k] == rest[k]
  }

  lemma ParseShifts(words: seq<Word>, n: nat, rest: seq<Word>, m: nat, opusParts: bool)
    requires Follows(words, n, rest) && m < |rest|
    ensures ParseAt(words, n + m, opusParts) == ParseAt(rest, m, opusParts)
  {
  }

  lemma {:induction false} TermsShift(words: seq<Word>, n: nat, rest: seq<Word>, m: nat, opusParts: bool)
    requires Follows(words, n, rest) && m <= |rest|
    ensures TermsFrom(words, n + m, opusParts) == TermsFrom(rest, m, opusParts)
    decreases |rest| - m
  {
    hide ParseAt;
    if m < |rest| {
      ParseShifts(words, n, rest, m, opusParts);
      TermsShift(words, n, rest, m + ParseAt(rest, m, opusParts).used, opusParts);
    }
  }

  // The terms of words that start with a span's word, whatever its flag, unless it is a bare
  // S, D or L before a number.
  lemma FirstWordParses(w: string, a: bool, rest: seq<Word>, opusParts: bool)
    ensures var p := ParseAt([Word(w, a)] + rest, 0, opusParts);
            && (Short(w) && CatalogueNumber(At(rest, 0)) ==> p == if a then Parse(2, [w + At(rest, 0)]) else Parse(1, [w]))
            && (!(Short(w) && CatalogueNumber(At(rest, 0))) ==> p == ParseAt([Word(w, !a)] + rest, 0, opusParts))
  {
    var words, others := [Word(w, a)] + rest, [Word(w, !a)] + rest;
    assert At(words, 1) == At(rest, 0) == At(others, 1) && At(words, 2) == At(rest, 1) == At(others, 2);
    if Short(w) {
      ShortNames(w, At(rest, 0));
    }
    hide Catalogue, GermanKey, GermanMode;
  }

  lemma ShortNames(w: string, next: string)
    requires Short(w)
    ensures Catalogue(w) == w && w != "hob" && w != "op" && !EnglishFlat(w)
    ensures CatalogueNumber(next) ==> GermanMode(next) == "" && !Accidental(next) && !Mode(next)
  {
  }

  lemma {:induction false} FirstWordTerms(w: string, a: bool, rest: seq<Word>, opusParts: bool)
    ensures var terms := TermsFrom([Word(w, a)] + rest, 0, opusParts);
            var others := TermsFrom([Word(w, !a)] + rest, 0, opusParts);
            terms == others <==> !(Short(w) && CatalogueNumber(At(rest, 0)))
  {
    hide ParseAt;
    var words, others := [Word(w, a)] + rest, [Word(w, !a)] + rest;
    FirstWordParses(w, a, rest, opusParts);
    FirstWordParses(w, !a, rest, opusParts);
    var p, q := ParseAt(words, 0, opusParts), ParseAt(others, 0, opusParts);
    if Short(w) && CatalogueNumber(At(rest, 0)) {
      assert |w| == 1 && |w + At(rest, 0)| > 1;
      assert TermsFrom(words, 0, opusParts)[0] == p.terms[0] && TermsFrom(others, 0, opusParts)[0] == q.terms[0];
    } else {
      TermsShift(words, 1, rest, p.used - 1, opusParts);
      TermsShift(others, 1, rest, p.used - 1, opusParts);
    }
  }

  lemma {:induction false} SplitShort(w: string)
    requires IsGlued(w) && Short(w[..LeadingLetters(w)])
    ensures var k := LeadingLetters(w);
            SplitWord(w, true) == [Word(w[..k], true), Word(w[k..], false)] && SplitWord(w, false) == [Word(w, false)]
  {
  }

  lemma SplitShortParses(w: string, k: nat, rest: seq<Word>, opusParts: bool)
    requires k < |w| && Short(w[..k]) && CatalogueNumber(w[k..])
    ensures ParseAt([Word(w[..k], true), Word(w[k..], false)] + rest, 0, opusParts) == Parse(2, [w])
  {
    var words := [Word(w[..k], true), Word(w[k..], false)] + rest;
    ShortNames(w[..k], w[k..]);
    assert At(words, 1) == w[k..] && w[..k] + w[k..] == w;
    hide Catalogue, GermanKey, GermanMode;
  }

  lemma WholeShortParses(w: string, k: nat, rest: seq<Word>, opusParts: bool)
    requires 0 < k < |w| && IsDigit(w[k])
    ensures ParseAt([Word(w, false)] + rest, 0, opusParts) == Parse(1, [w])
  {
    GluedIsNoName(w, k);
    hide Catalogue, GermanKey, GermanMode;
  }

  // A glued S, D or L number is one term, split or not.
  lemma {:induction false} GluedShortTerms(w: string, rest: seq<Word>, opusParts: bool)
    requires IsGlued(w) && Short(w[..LeadingLetters(w)])
    ensures TermsFrom(SplitWord(w, true) + rest, 0, opusParts) == TermsFrom(SplitWord(w, false) + rest, 0, opusParts)
  {
    hide ParseAt, SplitWord, Short, LeadingLetters;
    var k := LeadingLetters(w);
    SplitShort(w);
    SplitShortParses(w, k, rest, opusParts);
    WholeShortParses(w, k, rest, opusParts);
    TermsShift(SplitWord(w, true) + rest, 2, rest, 0, opusParts);
    TermsShift(SplitWord(w, false) + rest, 1, rest, 0, opusParts);
  }

  lemma GluedIsNoName(w: string, k: nat)
    requires 0 < k < |w| && IsDigit(w[k])
    ensures Catalogue(w) == "" && GermanKey(w) == "" && !EnglishFlat(w) && !Note(w)
  {
  }

  // The text starts with a bare S, D or L and a number, with something before the letter
  // that only one of the programs takes for white space, and no full stop after it.
  predicate StartsInDoubt(text: Text) {
    var i := FirstSpan(text, 0);
    var j := SpanEnd(text, i);
    && ShortAllowed(text, i, j, IsSpace) != ShortAllowed(text, i, j, IsBrowserSpace)
    && Short(Strip(text, i, j)) && CatalogueNumber(At(WordsFrom(text, j, IsSpace), 0))
  }

  lemma {:induction false} SplitsAlike(w: string, a: bool)
    requires !(IsGlued(w) && Short(w[..LeadingLetters(w)]))
    ensures |SplitWord(w, a)| == 1 ==> SplitWord(w, a) == [Word(w, a)] && SplitWord(w, !a) == [Word(w, !a)]
    ensures |SplitWord(w, a)| != 1 ==>
              var k := LeadingLetters(w);
              && SplitWord(w, a) == [Word(w[..k], a)] + [Word(w[k..], false)]
              && SplitWord(w, !a) == [Word(w[..k], !a)] + [Word(w[k..], false)] && !Short(w[..k])
  {
    hide Catalogue, IsGlued, Short;
  }

  lemma GluedIsNotShort(w: string)
    requires IsGlued(w)
    ensures !Short(w)
  {
  }

  lemma Regroup(a: Word, b: Word, rest: seq<Word>)
    ensures [a] + [b] + rest == [a] + ([b] + rest)
  {
  }

  lemma {:induction false} FirstSplitTerms(w: string, a: bool, rest: seq<Word>, opusParts: bool)
    requires !(IsGlued(w) && Short(w[..LeadingLetters(w)])) && |SplitWord(w, a)| != 1 && !Short(w)
    ensures TermsFrom(SplitWord(w, a) + rest, 0, opusParts) == TermsFrom(SplitWord(w, !a) + rest, 0, opusParts)
  {
    hide TermsFrom, SplitWord, Short, LeadingLetters;
    var k := LeadingLetters(w);
    SplitsAlike(w, a);
    var more := [Word(w[k..], false)] + rest;
    FirstWordTerms(w[..k], a, more, opusParts);
    Regroup(Word(w[..k], a), Word(w[k..], false), rest);
    Regroup(Word(w[..k], !a), Word(w[k..], false), rest);
  }

  lemma {:induction false} FirstSpanTerms(w: string, a: bool, rest: seq<Word>, opusParts: bool)
    ensures TermsFrom(SplitWord(w, a) + rest, 0, opusParts) == TermsFrom(SplitWord(w, !a) + rest, 0, opusParts)
            <==> !(Short(w) && CatalogueNumber(At(rest, 0)))
  {
    hide SplitWord, TermsFrom, Short, CatalogueNumber, LeadingLetters;
    if IsGlued(w) && Short(w[..LeadingLetters(w)]) {
      GluedShortTerms(w, rest, opusParts);
      GluedIsNotShort(w);
    } else {
      SplitsAlike(w, a);
      if |SplitWord(w, a)| == 1 {
        FirstWordTerms(w, a, rest, opusParts);
      } else {
        SplitIsNotShort(w, a);
        FirstSplitTerms(w, a, rest, opusParts);
      }
    }
  }

  lemma SplitIsNotShort(w: string, a: bool)
    requires |SplitWord(w, a)| != 1
    ensures !Short(w)
  {
  }

  // The API and the browser read the same terms from a text exactly when it does not start
  // in doubt.
  lemma TermsAgreeExactlyWhen(text: Text, opusParts: bool)
    ensures Terms(text, opusParts, IsSpace) == Terms(text, opusParts, IsBrowserSpace) <==> !StartsInDoubt(text)
  {
    var i := FirstSpan(text, 0);
    var j := SpanEnd(text, i);
    WordsStart(text, 0, IsSpace);
    WordsStart(text, 0, IsBrowserSpace);
    if i < |text| {
      LaterWordsAgree(text, j, i);
      var w, rest := Strip(text, i, j), WordsFrom(text, j, IsSpace);
      var a, b := ShortAllowed(text, i, j, IsSpace), ShortAllowed(text, i, j, IsBrowserSpace);
      hide SplitWord, TermsFrom, CatalogueNumber;
      assert WordsFrom(text, 0, IsSpace) == SplitWord(w, a) + rest;
      assert WordsFrom(text, 0, IsBrowserSpace) == SplitWord(w, b) + rest;
      FirstSpanTerms(w, a, rest, opusParts);
      assert a != b ==> b == !a;
    }
  }

  lemma {:induction false} LoneLetter(text: Text, i: nat, c: char)
    requires i < |text| && text[i].c == c && IsBase(text[i]) && (i + 1 == |text| || !InSpan(text[i + 1]))
    ensures SpanEnd(text, i) == i + 1 && Strip(text, i, i + 1) == [c]
  {
    assert SpanEnd(text, i + 1) == i + 1;
    assert Strip(text, i + 1, i + 1) == "" && Strip(text, i, i + 1) == [c] + "";
  }

  lemma {:induction false} LoneDigit(text: Text, i: nat)
    requires i + 1 == |text| && text[i] == Character('9', Number)
    ensures At(WordsFrom(text, i, IsSpace), 0) == "9" && CatalogueNumber("9")
  {
    hide Catalogue;
    LoneLetter(text, i, '9');
    var allowed := ShortAllowed(text, i, i + 1, IsSpace);
    assert LeadingLetters("9") == 0 && SplitWord("9", allowed) == [Word("9", allowed)];
    assert WordsFrom(text, i, IsSpace) == SplitWord("9", allowed) + WordsFrom(text, i + 1, IsSpace);
    assert "9"[..0] == "";
  }

  // "d 9" after a byte order mark: one term for the browser, two for the API.
  lemma {:induction false} TextInDoubt()
    ensures var text := [Character('\U{FEFF}', Other), Character('d', Letter), Character(' ', Other), Character('9', Number)];
            StartsInDoubt(text)
  {
    hide SplitWord, CatalogueNumber;
    var text: Text := [Character('\U{FEFF}', Other), Character('d', Letter), Character(' ', Other), Character('9', Number)];
    assert FirstSpan(text, 1) == 1 && FirstSpan(text, 0) == 1;
    LoneLetter(text, 1, 'd');
    LoneDigit(text, 3);
    assert WordsFrom(text, 2, IsSpace) == WordsFrom(text, 3, IsSpace);
    assert !IsSpace(text[0].c) && IsBrowserSpace(text[0].c);
  }

  // ---------------------------------------------------------------------------
  // Indexes
  // ---------------------------------------------------------------------------

  // An empty word in either set of words seen changes no index.
  lemma {:induction false} SeenEmptyIsNothing(seen: set<string>, terms: seq<string>)
    requires "" !in terms || forall i :: 0 <= i < |terms| ==> terms[i] == ""
    ensures WithTerms("", seen + {""}, terms) == WithTerms("", seen, terms)
    decreases |terms|
  {
    if terms != [] {
      if "" in terms {
        OnlyEmptyTerms(seen, terms);
        OnlyEmptyTerms(seen + {""}, terms);
      } else {
        SeenBesidesEmpty("", seen, terms);
      }
    }
  }

  lemma {:induction false} OnlyEmptyTerms(seen: set<string>, terms: seq<string>)
    requires forall i :: 0 <= i < |terms| ==> terms[i] == ""
    ensures WithTerms("", seen, terms) == ""
    decreases |terms|
  {
    if terms != [] {
      OnlyEmptyTerms(seen, terms[1..]);
      OnlyEmptyTerms(seen + {""}, terms[1..]);
    }
  }

  lemma {:induction false} SeenBesidesEmpty(index: string, seen: set<string>, terms: seq<string>)
    requires "" !in terms
    ensures WithTerms(index, seen + {""}, terms) == WithTerms(index, seen, terms)
    decreases |terms|
  {
    if terms != [] {
      if terms[0] in seen {
        SeenBesidesEmpty(index, seen, terms[1..]);
      } else {
        assert seen + {""} + {terms[0]} == seen + {terms[0]} + {""};
        SeenBesidesEmpty(WithTerm(index, terms[0]), seen + {terms[0]}, terms[1..]);
      }
    }
  }

  predicate TidyWords(s: string) {
    s == "" || (s[0] != ' ' && s[|s| - 1] != ' ' && forall i :: 0 < i < |s| ==> s[i - 1] != ' ' || s[i] != ' ')
  }

  lemma {:induction false} JoinIsTidy(words: seq<string>)
    requires forall i :: 0 <= i < |words| ==> words[i] != "" && TidyWords(words[i])
    ensures TidyWords(Join(words)) && (words != [] ==> Join(words) != "")
    decreases |words|
  {
    if |words| > 1 {
      JoinIsTidy(words[1..]);
      var first, rest := words[0], Join(words[1..]);
      var s := first + " " + rest;
      forall i | 0 < i < |s|
        ensures s[i - 1] != ' ' || s[i] != ' '
      {
        if i < |first| {
          assert s[i - 1] == first[i - 1] && s[i] == first[i];
        } else if i > |first| + 1 {
          assert s[i - 1] == rest[i - |first| - 2] && s[i] == rest[i - |first| - 1];
        }
      }
    }
  }

  // A fold is words with one space between them.
  lemma FoldIsTidy(text: Text)
    ensures TidyWords(Fold(text))
  {
    FoldIsJoined(text);
    var words := NonEmpty(SpanTexts(text, 0));
    forall i | 0 <= i < |words|
      ensures words[i] != "" && TidyWords(words[i])
    {
      NonEmptyHas(SpanTexts(text, 0), words[i]);
      SpanIsUnbroken(text, 0, words[i]);
    }
    hide SpanTexts, Fold;
    JoinIsTidy(words);
  }

  lemma {:induction false} SpanIsUnbroken(text: Text, i: nat, w: string)
    requires i <= |text| && w in SpanTexts(text, i)
    ensures Unbroken(w)
    decreases |text| - i
  {
    if !InSpan(text[i]) {
      SpanIsUnbroken(text, i + 1, w);
    } else {
      var j := SpanEnd(text, i);
      StripIsUnbroken(text, i, j);
      if w != Strip(text, i, j) {
        SpanIsUnbroken(text, j, w);
      }
    }
  }

  lemma RawIsTidy(fields: seq<Text>)
    ensures TidyWords(RawFolds(fields))
  {
    hide Fold;
    var words := NonEmpty(Folds(fields));
    forall i | 0 <= i < |words|
      ensures words[i] != "" && TidyWords(words[i])
    {
      NonEmptyHas(Folds(fields), words[i]);
      FoldsHas(fields, words[i]);
      var k :| 0 <= k < |fields| && Fold(fields[k]) == words[i];
      FoldIsTidy(fields[k]);
    }
    JoinIsTidy(words);
  }

  // Tidy words have no empty one among them.
  lemma TidyHasNoEmptyWord(s: string)
    requires TidyWords(s) && s != ""
    ensures "" !in Blanks(s)
  {
    SplitHas(s, IsBlank, "");
    forall a: nat, b: nat | PieceAt(s, a, b, IsBlank)
      ensures s[a..b] != ""
    {
      assert a != b;
    }
  }

  // The words the two programs start an index from.
  lemma SameWordsSeen(raw: string)
    requires OnlyBlanks(raw) && TidyWords(raw)
    ensures raw != "" ==> Elements(Fields(raw)) == Elements(Blanks(raw))
    ensures raw == "" ==> Elements(Blanks(raw)) == Elements(Fields(raw)) + {""}
  {
    forall w
      ensures w in Fields(raw) <==> w in Blanks(raw) && w != ""
    {
      FieldsAreBlanks(raw, w);
    }
    if raw != "" {
      TidyHasNoEmptyWord(raw);
    } else {
      assert Blanks(raw) == [""];
    }
  }

  lemma {:induction false} FieldTermsAgree(fields: seq<Text>)
    requires forall k :: 0 <= k < |fields| ==> !StartsInDoubt(fields[k])
    ensures FieldTerms(fields, IsSpace) == FieldTerms(fields, IsBrowserSpace)
    decreases |fields|
  {
    hide Terms, StartsInDoubt;
    if fields != [] {
      TermsAgreeExactlyWhen(fields[0], true);
      FieldTermsAgree(fields[1..]);
    }
  }

  // Without any fold there is no word, so every term is empty.
  lemma {:induction false} NoFoldNoTerms(fields: seq<Text>)
    requires RawFolds(fields) == ""
    ensures forall i :: 0 <= i < |FieldTerms(fields, IsSpace)| ==> FieldTerms(fields, IsSpace)[i] == ""
    decreases |fields|
  {
    hide Terms, Fold;
    if fields != [] {
      NoFoldHere(fields);
      NoFoldNoTerms(fields[1..]);
    }
  }

  lemma NoFoldHere(fields: seq<Text>)
    requires fields != [] && RawFolds(fields) == ""
    ensures RawFolds(fields[1..]) == ""
    ensures forall i :: 0 <= i < |Terms(fields[0], true, IsSpace)| ==> Terms(fields[0], true, IsSpace)[i] == ""
  {
    hide Fold, Terms;
    var words := NonEmpty(Folds(fields));
    if words != [] {
      SomeFoldIsRaw(words, Folds(fields));
    }
    assert Fold(fields[0]) == "" by {
      NonEmptyHas(Folds(fields), Fold(fields[0]));
    }
    EmptyFoldEmptyTerms(fields[0]);
  }

  lemma {:induction false} SomeFoldIsRaw(words: seq<string>, folds: seq<string>)
    requires words == NonEmpty(folds) && words != []
    ensures Join(words) != ""
  {
    NonEmptyHas(folds, words[0]);
    assert StartsWith(Join(words), words[0]);
  }

  lemma EmptyFoldEmptyTerms(text: Text)
    requires Fold(text) == ""
    ensures forall i :: 0 <= i < |Terms(text, true, IsSpace)| ==> Terms(text, true, IsSpace)[i] == ""
  {
    var words := WordsFrom(text, 0, IsSpace);
    forall w | w in SpanTexts(text, 0)
      ensures w == ""
    {
      WordInFold(text, w);
      var k: nat :| OccursAt("", w, k);
    }
    forall k | 0 <= k < |words|
      ensures words[k].text == ""
    {
      EmptySpansEmptyWords(text, 0, IsSpace, k);
    }
    EmptyWordsEmptyTerms(words, 0);
  }

  lemma EmptySplitsWhole(allowed: bool)
    ensures SplitWord("", allowed) == [Word("", allowed)]
  {
    hide Catalogue;
  }

  lemma {:induction false} EmptySpansEmptyWords(text: Text, i: nat, space: char -> bool, k: nat)
    requires i <= |text| && k < |WordsFrom(text, i, space)| && forall w :: w in SpanTexts(text, i) ==> w == ""
    ensures WordsFrom(text, i, space)[k].text == ""
    decreases |text| - i
  {
    hide SplitWord, Strip, IsSpace, IsBrowserSpace;
    if !InSpan(text[i]) {
      assert SpanTexts(text, i) == SpanTexts(text, i + 1);
      EmptySpansEmptyWords(text, i + 1, space, k);
    } else {
      var j := SpanEnd(text, i);
      assert SpanTexts(text, i) == [Strip(text, i, j)] + SpanTexts(text, j);
      assert Strip(text, i, j) in SpanTexts(text, i) && forall w :: w in SpanTexts(text, j) ==> w in SpanTexts(text, i);
      EmptySplitsWhole(ShortAllowed(text, i, j, space));
      if k > 0 {
        EmptySpansEmptyWords(text, j, space, k - 1);
      }
    }
  }

  lemma {:induction false} EmptyWordsEmptyTerms(words: seq<Word>, i: nat)
    requires i <= |words| && forall k :: 0 <= k < |words| ==> words[k].text == ""
    ensures forall j :: 0 <= j < |TermsFrom(words, i, true)| ==> TermsFrom(words, i, true)[j] == ""
    decreases |words| - i
  {
    hide ParseAt;
    if i < |words| {
      EmptyWordAlone(words, i);
      EmptyWordsEmptyTerms(words, i + 1);
    }
  }

  lemma EmptyWordAlone(words: seq<Word>, i: nat)
    requires i < |words| && words[i].text == ""
    ensures ParseAt(words, i, true) == Parse(1, [""])
  {
  }

  // The browser's index of fields none of which starts in doubt is the one the API stores.
  lemma IndexesAgree(fields: seq<Text>)
    requires forall k :: 0 <= k < |fields| ==> !StartsInDoubt(fields[k])
    ensures BrowserIndex(fields, IsBrowserSpace) == SearchIndex(fields)
  {
    hide RawFolds, FieldTerms, Fields, WithTerms, StartsInDoubt;
    var raw := RawFolds(fields);
    RawFoldsAreBlanked(fields);
    RawIsTidy(fields);
    SameWordsSeen(raw);
    FieldTermsAgree(fields);
    if raw == "" {
      NoFoldNoTerms(fields);
      SeenEmptyIsNothing(Elements(Fields(raw)), FieldTerms(fields, IsSpace));
    }
  }

  // ---------------------------------------------------------------------------
  // Words of marks alone
  // ---------------------------------------------------------------------------

  // Without any fold the index is empty, and split(' ') finds one empty word in it.
  lemma NoFoldEmptyIndex(fields: seq<Text>)
    requires RawFolds(fields) == ""
    ensures SearchIndex(fields) == "" && "" in Blanks("")
  {
    hide RawFolds, FieldTerms;
    NoFoldNoTerms(fields);
    OnlyEmptyTerms(Elements(Fields("")), FieldTerms(fields, IsSpace));
    assert Blanks("") == [""];
  }

  lemma {:induction false} SomeFoldEmptyWord(fields: seq<Text>)
    requires RawFolds(fields) != "" && "" in FieldTerms(fields, IsSpace)
    ensures "" in Blanks(SearchIndex(fields))
  {
    hide RawFolds, FieldTerms;
    var raw := RawFolds(fields);
    NonEmptyHas(Split(raw, IsSpace), "");
    EmptyTermIsIndexed(raw, Elements(Fields(raw)), FieldTerms(fields, IsSpace));
    SplitHas(SearchIndex(fields), IsBlank, "");
  }

  // A piece whose field has a word of marks alone is ranked worse by the API than by the
  // browser for that field's own text.
  lemma MarksAloneMisranks(fields: seq<Text>, k: nat)
    requires k < |fields| && "" in SpanTexts(fields[k], 0)
    ensures var index, terms := SearchIndex(fields), SearchTerms(fields[k]);
            Misses(Blanks(index), terms) < Misses(Fields(index), terms)
  {
    hide RawFolds, FieldTerms, Terms, Misses, SpanTexts;
    EmptyTermMeansMarksAlone(fields[k], false, IsSpace);
    EmptyTermMeansMarksAlone(fields[k], true, IsSpace);
    FieldTermsHas(fields, IsSpace, k, "");
    if RawFolds(fields) == "" {
      NoFoldEmptyIndex(fields);
    } else {
      SomeFoldEmptyWord(fields);
    }
    IndexKeeps(fields);
    RanksAgreeExactlyWhen(SearchIndex(fields), SearchTerms(fields[k]));
  }

  // A combining acute accent by itself is such a word: a search for it has an empty term.
  lemma LoneMark()
    ensures var text := [Character('\U{301}', Mark)];
            "" in SpanTexts(text, 0) && "" in SearchTerms(text)
  {
    var text: Text := [Character('\U{301}', Mark)];
    assert SpanEnd(text, 1) == 1 && SpanEnd(text, 0) == 1;
    assert Strip(text, 1, 1) == "" && Strip(text, 0, 1) == "" + "";
    assert SpanTexts(text, 0) == [Strip(text, 0, 1)] + SpanTexts(text, 1);
    EmptyTermMeansMarksAlone(text, false, IsSpace);
  }
}
