/**
 What search promises, and where the API and the browser agree.
 */
module SearchTheorems {
  import opened SearchStrings
  import opened SearchFolds
  import opened SearchParser
  import opened SearchIndexes

  // ---------------------------------------------------------------------------
  // The index holds its folds and terms
  // ---------------------------------------------------------------------------

  lemma PutIsBlanked(folded: string, gap: bool, w: string)
    requires OnlyBlanks(folded) && Unbroken(w)
    ensures OnlyBlanks(Put(folded, gap, w))
  {
  }

  lemma {:induction false} FoldIsBlanked(text: Text, i: nat, folded: string, gap: bool)
    requires i <= |text| && OnlyBlanks(folded)
    ensures OnlyBlanks(FoldRun(text, i, folded, gap))
    decreases |text| - i
  {
    if i < |text| {
      if text[i].kind.Mark? {
        FoldIsBlanked(text, i + 1, folded, gap);
      } else if IsBase(text[i]) {
        PutIsBlanked(folded, gap, [text[i].c]);
        FoldIsBlanked(text, i + 1, Put(folded, gap, [text[i].c]), false);
      } else {
        FoldIsBlanked(text, i + 1, folded, true);
      }
    }
  }

  lemma {:induction false} JoinIsBlanked(words: seq<string>)
    requires forall i :: 0 <= i < |words| ==> OnlyBlanks(words[i])
    ensures OnlyBlanks(Join(words))
    decreases |words|
  {
    if |words| > 1 {
      JoinIsBlanked(words[1..]);
    }
  }

  lemma {:induction false} FoldsHas(fields: seq<Text>, w: string)
    ensures w in Folds(fields) <==> exists k :: 0 <= k < |fields| && Fold(fields[k]) == w
    decreases |fields|
  {
    hide Fold;
    if fields != [] {
      FoldsHas(fields[1..], w);
      assert forall k :: 0 <= k < |fields| - 1 ==> fields[1..][k] == fields[k + 1];
    }
  }

  lemma RawFoldsAreBlanked(fields: seq<Text>)
    ensures OnlyBlanks(RawFolds(fields))
  {
    hide Fold;
    var words := NonEmpty(Folds(fields));
    forall i | 0 <= i < |words|
      ensures OnlyBlanks(words[i])
    {
      NonEmptyHas(Folds(fields), words[i]);
      FoldsHas(fields, words[i]);
      var k :| 0 <= k < |fields| && Fold(fields[k]) == words[i];
      FoldOnlyBlanks(fields[k]);
    }
    JoinIsBlanked(words);
  }

  lemma FoldOnlyBlanks(text: Text)
    ensures OnlyBlanks(Fold(text))
  {
    FoldIsBlanked(text, 0, "", false);
  }

  lemma WithTermIsBlanked(index: string, term: string)
    requires OnlyBlanks(index) && Unbroken(term)
    ensures OnlyBlanks(WithTerm(index, term))
  {
  }

  lemma WithTermHas(index: string, term: string, w: string)
    requires Unbroken(term) && (IsToken(index, w) || w == term) && (index == "" && w != term ==> w != "")
    ensures IsToken(WithTerm(index, term), w)
  {
    if index == "" {
      if w == term {
        WholeIsToken(term);
      }
    } else if IsToken(index, w) {
      TokenStays(index, w, term);
    } else {
      LastIsToken(index, term);
    }
  }

  ghost predicate AllSeen(index: string, seen: set<string>) {
    forall w :: w in seen && w != "" ==> IsToken(index, w)
  }

  // Every new term becomes a whole word of the index, and what was there stays.
  lemma {:induction false} WithTermsKeeps(index: string, seen: set<string>, terms: seq<string>)
    requires OnlyBlanks(index) && AllSeen(index, seen) && forall i :: 0 <= i < |terms| ==> Unbroken(terms[i])
    ensures var r := WithTerms(index, seen, terms);
            && OnlyBlanks(r) && Contains(r, index) && (index != "" ==> StartsWith(r, index))
            && forall w :: (w in seen || w in terms) && w != "" ==> IsToken(r, w)
    decreases |terms|
  {
    if terms == [] {
      ContainsItself(index);
    } else if terms[0] in seen {
      WithTermsKeeps(index, seen, terms[1..]);
    } else {
      var t, next := terms[0], WithTerm(index, terms[0]);
      WithTermIsBlanked(index, t);
      forall w | w in seen + {t} && w != ""
        ensures IsToken(next, w)
      {
        WithTermHas(index, t, w);
      }
      WithTermsKeeps(next, seen + {t}, terms[1..]);
      NextContains(index, t);
      ContainsTrans(WithTerms(next, seen + {t}, terms[1..]), next, index);
    }
  }

  lemma NextContains(index: string, t: string)
    ensures Contains(WithTerm(index, t), index) && (index != "" ==> StartsWith(WithTerm(index, t), index))
  {
    var next := WithTerm(index, t);
    assert next[0..0 + |index|] == index;
    assert OccursAt(next, index, 0);
  }

  lemma {:induction false} FieldTermsHas(fields: seq<Text>, space: char -> bool, k: nat, t: string)
    requires k < |fields| && t in Terms(fields[k], true, space)
    ensures t in FieldTerms(fields, space)
    decreases k
  {
    hide Terms;
    if k > 0 {
      assert fields[1..][k - 1] == fields[k];
      FieldTermsHas(fields[1..], space, k - 1, t);
    }
  }

  lemma {:induction false} FieldTermsAreUnbroken(fields: seq<Text>, space: char -> bool, t: string)
    requires t in FieldTerms(fields, space)
    ensures Unbroken(t)
    decreases |fields|
  {
    hide Terms;
    if t in Terms(fields[0], true, space) {
      TextTermsAreUnbroken(fields[0], true, space, t);
    } else {
      FieldTermsAreUnbroken(fields[1..], space, t);
    }
  }

  lemma RawWordsAreSeen(fields: seq<Text>)
    ensures AllSeen(RawFolds(fields), Elements(Fields(RawFolds(fields))))
  {
    hide RawFolds;
    var raw := RawFolds(fields);
    RawFoldsAreBlanked(fields);
    forall w | w in Elements(Fields(raw)) && w != ""
      ensures IsToken(raw, w)
    {
      FieldsAreBlanks(raw, w);
      SplitHas(raw, IsBlank, w);
    }
  }

  // The index: its only white space is single characters ' ', it holds every fold, and each
  // term of a field is a whole word of it.
  lemma {:induction false} IndexKeeps(fields: seq<Text>)
    ensures var index := SearchIndex(fields);
            && OnlyBlanks(index) && Contains(index, RawFolds(fields))
            && (RawFolds(fields) != "" ==> StartsWith(index, RawFolds(fields)))
            && forall t :: t in FieldTerms(fields, IsSpace) && t != "" ==> IsToken(index, t)
  {
    hide RawFolds, FieldTerms, Fields;
    var terms := FieldTerms(fields, IsSpace);
    RawFoldsAreBlanked(fields);
    RawWordsAreSeen(fields);
    forall i | 0 <= i < |terms|
      ensures Unbroken(terms[i])
    {
      FieldTermsAreUnbroken(fields, IsSpace, terms[i]);
    }
    WithTermsKeeps(RawFolds(fields), Elements(Fields(RawFolds(fields))), terms);
  }

  lemma IndexHoldsFold(fields: seq<Text>, k: nat)
    requires k < |fields|
    ensures Contains(SearchIndex(fields), Fold(fields[k]))
  {
    hide Fold;
    var folded, index := Fold(fields[k]), SearchIndex(fields);
    if folded == "" {
      assert OccursAt(index, folded, 0);
    } else {
      IndexKeeps(fields);
      FoldsHas(fields, folded);
      NonEmptyHas(Folds(fields), folded);
      JoinContains(NonEmpty(Folds(fields)), folded);
      ContainsTrans(index, RawFolds(fields), folded);
    }
  }

  // ---------------------------------------------------------------------------
  // Any text finds itself
  // ---------------------------------------------------------------------------

  lemma TokenMatches(index: string, t: string)
    requires OnlyBlanks(index) && IsToken(index, t) && t != ""
    ensures Matches(index, t)
  {
    TokenIsContained(index, t);
    SplitHas(index, IsBlank, t);
    FieldsAreBlanks(index, t);
    if IsKeyTerm(t) {
      var i :| 0 <= i < |Fields(index)| && Fields(index)[i] == t;
      assert MatchesWord(Fields(index)[i], t);
    }
  }

  // Every term of a search for a field's text matches the index of any fields that hold it,
  // although the stored terms read opus parts and the search does not.
  lemma FindsItself(fields: seq<Text>, k: nat, t: string)
    requires k < |fields| && t in SearchTerms(fields[k])
    ensures Matches(SearchIndex(fields), t)
  {
    var words := WordsFrom(fields[k], 0, IsSpace);
    ModesAlign(words, 0, t);
    IndexKeeps(fields);
    if t == "" {
      assert OccursAt(SearchIndex(fields), t, 0);
    } else if t in Terms(fields[k], true, IsSpace) {
      FieldTermsHas(fields, IsSpace, k, t);
      TokenMatches(SearchIndex(fields), t);
    } else {
      PartIsInFold(fields[k], IsSpace, t);
      IndexHoldsFold(fields, k);
      ContainsTrans(SearchIndex(fields), Fold(fields[k]), t);
      assert !IsKeyTerm(t) by {
        assert IsDigit(t[0]);
      }
    }
  }

  // ---------------------------------------------------------------------------
  // Empty terms
  // ---------------------------------------------------------------------------

  lemma EmptyIsNoName(words: seq<Word>, i: nat)
    requires i < |words|
    ensures GermanMode("") == "" && (words[i].text == "" ==> CatalogueOf(words[i]) == "" && GermanKey(words[i].text) == "")
  {
  }

  // Words after the first that a turn of the parser uses are not empty, and it emits an
  // empty term only for an empty word.
  lemma EmptyAt(words: seq<Word>, i: nat, opusParts: bool)
    requires i < |words|
    ensures var p := ParseAt(words, i, opusParts);
            && (forall k :: i < k < i + p.used ==> words[k].text != "")
            && ("" in p.terms <==> words[i].text == "")
  {
    hide Catalogue, GermanKey, GermanMode, CatalogueOf;
    EmptyIsNoName(words, i);
  }

  ghost predicate SomeEmpty(words: seq<Word>, i: nat) { exists k :: i <= k < |words| && words[k].text == "" }

  lemma {:induction false} EmptyTermsComeFrom(words: seq<Word>, i: nat, opusParts: bool)
    requires i <= |words|
    ensures "" in TermsFrom(words, i, opusParts) <==> SomeEmpty(words, i)
    decreases |words| - i
  {
    hide ParseAt;
    if i < |words| {
      EmptyAt(words, i, opusParts);
      EmptyTermsComeFrom(words, i + ParseAt(words, i, opusParts).used, opusParts);
    }
  }

  lemma SomeEmptyTogether(first: seq<Word>, rest: seq<Word>)
    ensures SomeEmpty(first + rest, 0) <==> SomeEmpty(first, 0) || SomeEmpty(rest, 0)
  {
    assert forall k :: 0 <= k < |rest| ==> (first + rest)[|first| + k] == rest[k];
    assert forall k :: 0 <= k < |first| ==> (first + rest)[k] == first[k];
  }

  lemma EmptySplit(w: string, allowed: bool)
    ensures SomeEmpty(SplitWord(w, allowed), 0) <==> w == ""
  {
    hide Catalogue;
    var words := SplitWord(w, allowed);
    assert words[0].text == "" <==> w == "";
  }

  lemma {:induction false} EmptyWordsComeFrom(text: Text, i: nat, space: char -> bool)
    requires i <= |text|
    ensures SomeEmpty(WordsFrom(text, i, space), 0) <==> "" in SpanTexts(text, i)
    decreases |text| - i
  {
    hide SplitWord;
    if i == |text| {
      assert !SomeEmpty([], 0);
    } else if !InSpan(text[i]) {
      EmptyWordsComeFrom(text, i + 1, space);
    } else {
      var j := SpanEnd(text, i);
      var first := SplitWord(Strip(text, i, j), ShortAllowed(text, i, j, space));
      EmptyWordsComeFrom(text, j, space);
      EmptySplit(Strip(text, i, j), ShortAllowed(text, i, j, space));
      SomeEmptyTogether(first, WordsFrom(text, j, space));
    }
  }

  // A search has an empty term exactly when some word of its text is made of marks alone.
  lemma {:induction false} EmptyTermMeansMarksAlone(text: Text, opusParts: bool, space: char -> bool)
    ensures "" in Terms(text, opusParts, space) <==> "" in SpanTexts(text, 0)
  {
    hide TermsFrom, WordsFrom, SpanTexts, SomeEmpty;
    EmptyTermsComeFrom(WordsFrom(text, 0, space), 0, opusParts);
    EmptyWordsComeFrom(text, 0, space);
  }

  // ---------------------------------------------------------------------------
  // The API and the browser
  // ---------------------------------------------------------------------------

  // The two matchers agree on every index the API stores, for every non-empty term.
  lemma MatchersAgree(index: string, term: string)
    requires OnlyBlanks(index)
    ensures Matches(index, term) <==> BrowserMatches(index, term)
  {
    if IsKeyTerm(term) {
      forall w
        ensures w in Fields(index) && MatchesWord(w, term) <==> w in Blanks(index) && MatchesWord(w, term)
      {
        FieldsAreBlanks(index, w);
      }
      assert Matches(index, term) <==> exists w :: w in Fields(index) && MatchesWord(w, term);
      assert BrowserMatches(index, term) <==> exists w :: w in Blanks(index) && MatchesWord(w, term);
    }
  }

  // The API ranks a piece below the browser only for an empty term, when split(' ') finds
  // an empty word in the index.
  lemma {:induction false} RanksAgreeExactlyWhen(index: string, terms: seq<string>)
    requires OnlyBlanks(index)
    ensures Misses(Blanks(index), terms) <= Misses(Fields(index), terms)
    ensures Misses(Blanks(index), terms) == Misses(Fields(index), terms) <==> !("" in terms && "" in Blanks(index))
    decreases |terms|
  {
    if terms != [] {
      FieldsAreBlanks(index, terms[0]);
      RanksAgreeExactlyWhen(index, terms[1..]);
    }
  }
}
