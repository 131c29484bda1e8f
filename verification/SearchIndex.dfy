/**
 The search index and the matcher: searchIndex, matchesSearchTerm and exactTermRank in
 internal/app/search.go and web/src/app/core/search.ts, and what search promises: any text
 finds itself.
 */
module SearchIndexes {
  import opened SearchStrings
  import opened SearchFolds
  import opened SearchParser

  // ---------------------------------------------------------------------------
  // The index
  // ---------------------------------------------------------------------------

  function Folds(fields: seq<Text>): seq<string> {
    if fields == [] then [] else [Fold(fields[0])] + Folds(fields[1..])
  }

  function FieldTerms(fields: seq<Text>, space: char -> bool): seq<string> {
    if fields == [] then [] else Terms(fields[0], true, space) + FieldTerms(fields[1..], space)
  }

  function WithTerm(index: string, term: string): string { if index == "" then term else index + " " + term }

  // The terms not seen yet, appended in order.
  function WithTerms(index: string, seen: set<string>, terms: seq<string>): string
    decreases |terms|
  {
    if terms == [] then index
    else if terms[0] in seen then WithTerms(index, seen, terms[1..])
    else WithTerms(WithTerm(index, terms[0]), seen + {terms[0]}, terms[1..])
  }

  function RawFolds(fields: seq<Text>): string { Join(NonEmpty(Folds(fields))) }

  function Elements(words: seq<string>): set<string> { set w | w in words }

  // The API's index, and the browser's: it starts from split(' ') in place of Fields.
  function SearchIndex(fields: seq<Text>): string {
    WithTerms(RawFolds(fields), Elements(Fields(RawFolds(fields))), FieldTerms(fields, IsSpace))
  }

  function BrowserIndex(fields: seq<Text>, space: char -> bool): string {
    WithTerms(RawFolds(fields), Elements(Blanks(RawFolds(fields))), FieldTerms(fields, space))
  }

  lemma {:induction false} NonEmptyAppends(a: seq<string>, b: seq<string>)
    ensures NonEmpty(a + b) == NonEmpty(a) + NonEmpty(b)
    decreases |a|
  {
    if a == [] {
      assert a + b == b;
    } else {
      assert (a + b)[1..] == a[1..] + b;
      NonEmptyAppends(a[1..], b);
    }
  }

  method FoldFields(fields: seq<Text>) returns (folds: seq<string>, terms: seq<string>)
    ensures folds == NonEmpty(Folds(fields)) && terms == FieldTerms(fields, IsSpace)
  {
    hide Terms, Fold;
    folds, terms := [], [];
    for i := 0 to |fields|
      invariant folds + NonEmpty(Folds(fields[i..])) == NonEmpty(Folds(fields))
      invariant terms + FieldTerms(fields[i..], IsSpace) == FieldTerms(fields, IsSpace)
    {
      assert fields[i..][0] == fields[i] && fields[i..][1..] == fields[i + 1..];
      var folded := FoldSearch(fields[i]);
      NonEmptyAppends([folded], Folds(fields[i + 1..]));
      assert NonEmpty([folded]) == if folded == "" then [] else [folded];
      if folded != "" {
        folds := folds + [folded];
      }
      var more := CatalogueTerms(fields[i], true);
      terms := terms + more;
    }
  }

  method AppendTerms(folds: string, terms: seq<string>) returns (index: string)
    ensures index == WithTerms(folds, Elements(Fields(folds)), terms)
  {
    hide Fields;
    index := folds;
    var seen := Elements(Fields(folds));
    ghost var all := WithTerms(folds, seen, terms);
    for i := 0 to |terms|
      invariant WithTerms(index, seen, terms[i..]) == all
    {
      assert terms[i..][0] == terms[i] && terms[i..][1..] == terms[i + 1..];
      ghost var before := index;
      if terms[i] !in seen {
        seen := seen + {terms[i]};
        if index != "" {
          index := index + " ";
        }
        index := index + terms[i];
        assert index == WithTerm(before, terms[i]);
      }
    }
  }

  method BuildIndex(fields: seq<Text>) returns (index: string)
    ensures index == SearchIndex(fields)
  {
    var folds, terms := FoldFields(fields);
    index := AppendTerms(Join(folds), terms);
  }

  // ---------------------------------------------------------------------------
  // The matcher
  // ---------------------------------------------------------------------------

  predicate HasMode(t: string) { |t| >= 5 && Mode(t[|t| - 5..]) }

  // ^[a-g](sharp|flat)?(major|minor)$|^[a-g](sharp|flat)$
  predicate IsKeyTerm(t: string) {
    && t != "" && 'a' <= t[0] <= 'g'
    && (Mode(t[1..]) || Accidental(t[1..])
        || (HasMode(t) && |t| > 6 && Accidental(t[1..|t| - 5])))
  }

  predicate MatchesWord(word: string, term: string) {
    word == term || (!HasMode(term) && StartsWith(word, term))
  }

  // The API reads the words of the index with Fields, the browser with split(' ').
  ghost predicate Matches(index: string, term: string) {
    if !IsKeyTerm(term) then Contains(index, term)
    else exists i :: 0 <= i < |Fields(index)| && MatchesWord(Fields(index)[i], term)
  }

  ghost predicate BrowserMatches(index: string, term: string) {
    if !IsKeyTerm(term) then Contains(index, term)
    else exists i :: 0 <= i < |Blanks(index)| && MatchesWord(Blanks(index)[i], term)
  }

  method ContainsTerm(index: string, term: string) returns (found: bool)
    ensures found <==> Contains(index, term)
  {
    for k := 0 to |index| + 1
      invariant forall j: nat :: j < k ==> !OccursAt(index, term, j)
    {
      if OccursAt(index, term, k) {
        return true;
      }
    }
    return false;
  }

  method MatchesSearchTerm(index: string, term: string) returns (found: bool)
    ensures found <==> Matches(index, term)
  {
    hide IsKeyTerm, Fields, Contains;
    if !IsKeyTerm(term) {
      found := ContainsTerm(index, term);
      return;
    }
    var words := Fields(index);
    for i := 0 to |words|
      invariant forall k :: 0 <= k < i ==> !MatchesWord(words[k], term)
    {
      if words[i] == term || (!HasMode(term) && StartsWith(words[i], term)) {
        return true;
      }
    }
    return false;
  }

  // How many terms are not whole words, by the words a program reads from the index.
  function Misses(words: seq<string>, terms: seq<string>): nat {
    if terms == [] then 0 else (if terms[0] in words then 0 else 1) + Misses(words, terms[1..])
  }

  method ExactTermRank(index: string, terms: seq<string>) returns (rank: nat)
    ensures rank == Misses(Fields(index), terms)
  {
    var words := Fields(index);
    rank := 0;
    for i := 0 to |terms|
      invariant rank + Misses(words, terms[i..]) == Misses(words, terms)
    {
      assert terms[i..][1..] == terms[i + 1..];
      if terms[i] !in words {
        rank := rank + 1;
      }
    }
  }

  // ---------------------------------------------------------------------------
  // What the parser emits
  // ---------------------------------------------------------------------------

  // A number that one mode reads as an opus part and the other as a word.
  predicate PartAt(words: seq<Word>, k: nat) {
    1 <= k < |words| && OpusPart(words[k].text) && CatalogueNumber(words[k - 1].text)
  }

  ghost predicate IsPart(words: seq<Word>, t: string) { exists k: nat :: PartAt(words, k) && words[k].text == t }

  // A number at the start of a parse is one term by itself.
  lemma PartAlone(words: seq<Word>, k: nat, opusParts: bool)
    requires k < |words| && OpusPart(words[k].text)
    ensures ParseAt(words, k, opusParts) == Parse(1, [words[k].text])
  {
    NumberIsNoName(words[k].text);
  }

  // Where the two modes part, the search mode uses the catalogue number and then the number.
  lemma ModesAt(words: seq<Word>, i: nat)
    requires i < |words|
    ensures var search, stored := ParseAt(words, i, false), ParseAt(words, i, true);
            || search == stored
            || (i + 2 < |words| && search.used == 2 && stored.used == 3 && PartAt(words, i + 2)
                && |search.terms| == 1 && search.terms[0] in stored.terms)
  {
  }

  // Every term of the search mode is one of the stored mode, or a number left alone.
  lemma {:induction false} ModesAlign(words: seq<Word>, i: nat, t: string)
    requires i <= |words| && t in TermsFrom(words, i, false)
    ensures t in TermsFrom(words, i, true) || IsPart(words, t)
    decreases |words| - i
  {
    hide ParseAt;
    if i < |words| {
      var search, stored := ParseAt(words, i, false), ParseAt(words, i, true);
      ModesAt(words, i);
      if t !in search.terms {
        if search == stored {
          ModesAlign(words, i + search.used, t);
        } else {
          PartAlone(words, i + 2, false);
          if t != words[i + 2].text {
            ModesAlign(words, i + 3, t);
          }
        }
      }
    }
  }

  // ---------------------------------------------------------------------------
  // Where words come from
  // ---------------------------------------------------------------------------

  predicate IsName(w: Word) { w.text != "" && IsLower(w.text[0]) }

  // Word k is a whole word of the fold, the letters of a glued number, or its digits.
  ghost predicate ComesFrom(words: seq<Word>, k: nat, spans: seq<string>)
    requires k < |words|
  {
    words[k].text in spans || IsName(words[k]) || (k >= 1 && IsName(words[k - 1]))
  }

  lemma {:induction false} WordsComeFrom(text: Text, i: nat, space: char -> bool, k: nat)
    requires i <= |text| && k < |WordsFrom(text, i, space)|
    ensures ComesFrom(WordsFrom(text, i, space), k, SpanTexts(text, i))
    decreases |text| - i
  {
    hide Catalogue;
    if !InSpan(text[i]) {
      WordsComeFrom(text, i + 1, space, k);
    } else {
      var j := SpanEnd(text, i);
      var first := SplitWord(Strip(text, i, j), ShortAllowed(text, i, j, space));
      if k >= |first| {
        WordsComeFrom(text, j, space, k - |first|);
      }
    }
  }

  // A number that stands alone in a search is a word of the fold.
  lemma {:induction false} PartIsInFold(text: Text, space: char -> bool, t: string)
    requires IsPart(WordsFrom(text, 0, space), t)
    ensures Contains(Fold(text), t)
  {
    var words := WordsFrom(text, 0, space);
    var k: nat :| PartAt(words, k) && words[k].text == t;
    WordsComeFrom(text, 0, space, k);
    WordInFold(text, t);
  }

  // ---------------------------------------------------------------------------
  // Terms are words
  // ---------------------------------------------------------------------------

  lemma {:induction false} WordsAreUnbroken(text: Text, i: nat, space: char -> bool, k: nat)
    requires i <= |text| && k < |WordsFrom(text, i, space)|
    ensures Unbroken(WordsFrom(text, i, space)[k].text)
    decreases |text| - i
  {
    hide Catalogue;
    if !InSpan(text[i]) {
      WordsAreUnbroken(text, i + 1, space, k);
    } else {
      var j := SpanEnd(text, i);
      StripIsUnbroken(text, i, j);
      var first := SplitWord(Strip(text, i, j), ShortAllowed(text, i, j, space));
      if k >= |first| {
        WordsAreUnbroken(text, j, space, k - |first|);
      }
    }
  }

  lemma LowerIsUnbroken(s: string)
    requires AllLower(s)
    ensures Unbroken(s)
  {
  }

  lemma NamesAreUnbroken(w: string)
    ensures Unbroken(Catalogue(w)) && Unbroken(GermanKey(w)) && Unbroken(GermanMode(w))
    ensures Unbroken("flat") && Unbroken("minor") && Unbroken("no")
  {
    hide Catalogue, GermanKey, GermanMode;
    LowerIsUnbroken(Catalogue(w));
    LowerIsUnbroken(GermanKey(w));
    LowerIsUnbroken(GermanMode(w));
    LowerIsUnbroken("flat");
    LowerIsUnbroken("minor");
    LowerIsUnbroken("no");
  }

  // What one turn of the parser emits is unbroken.
  lemma ParsedAreUnbroken(words: seq<Word>, i: nat, opusParts: bool)
    requires i < |words| && forall k :: 0 <= k < |words| ==> Unbroken(words[k].text)
    ensures forall t :: t in ParseAt(words, i, opusParts).terms ==> Unbroken(t)
  {
    hide Catalogue, GermanKey, GermanMode;
    NamesAreUnbroken(words[i].text);
    NamesAreUnbroken(At(words, i + 1));
  }

  lemma {:induction false} TermsAreUnbroken(words: seq<Word>, i: nat, opusParts: bool, t: string)
    requires i <= |words| && (forall k :: 0 <= k < |words| ==> Unbroken(words[k].text))
    requires t in TermsFrom(words, i, opusParts)
    ensures Unbroken(t)
    decreases |words| - i
  {
    hide ParseAt;
    var p := ParseAt(words, i, opusParts);
    ParsedAreUnbroken(words, i, opusParts);
    if t !in p.terms {
      TermsAreUnbroken(words, i + p.used, opusParts, t);
    }
  }

  lemma TextTermsAreUnbroken(text: Text, opusParts: bool, space: char -> bool, t: string)
    requires t in Terms(text, opusParts, space)
    ensures Unbroken(t)
  {
    var words := WordsFrom(text, 0, space);
    forall k | 0 <= k < |words|
      ensures Unbroken(words[k].text)
    {
      WordsAreUnbroken(text, 0, space, k);
    }
    TermsAreUnbroken(words, 0, opusParts, t);
  }
}
