/**
 Search terms and the search index: catalogueTerms, searchTerms and searchIndex in
 internal/app/search.go and web/src/app/core/search.ts.

 A text's spans become words, glued catalogue numbers two of them; a parser of varying
 stride turns words into terms, in two modes. The main result is that any text finds itself:
 every term of a search for a field matches the index of fields that hold it.
 */
module SearchParser {
  import opened SearchStrings
  import opened SearchFolds

  // ---------------------------------------------------------------------------
  // Names and numbers
  // ---------------------------------------------------------------------------

  predicate IsDigit(c: char) { '0' <= c <= '9' }

  predicate IsLower(c: char) { 'a' <= c <= 'z' }

  predicate AllDigits(s: string) { forall i :: 0 <= i < |s| ==> IsDigit(s[i]) }

  predicate AllLower(s: string) { forall i :: 0 <= i < |s| ==> IsLower(s[i]) }

  // Opus and catalogue abbreviations, in the form search keeps; "" for other words.
  function Catalogue(word: string): (c: string)
    ensures AllLower(c)
  {
    if word == "op" || word == "opus" then "op"
    else if word == "no" || word == "nr" then "no"
    else if word == "k" || word == "kv" then "k"
    else if word in ["bwv", "hob", "d", "l", "s", "hwv", "rv", "bb", "woo", "sz"] then word
    else ""
  }

  // German note names, in the form of a key term; "" for other words.
  function GermanKey(word: string): (key: string)
    ensures AllLower(key)
  {
    if word in ["c", "d", "e", "f", "g", "a"] then word
    else if word == "h" then "b"
    else if word == "b" then "bflat"
    else if word in ["cis", "dis", "eis", "fis", "gis", "ais"] then [word[0]] + "sharp"
    else if word == "his" then "bsharp"
    else if word in ["ces", "des", "fes", "ges"] then [word[0]] + "flat"
    else if word == "es" then "eflat"
    else if word == "as" then "aflat"
    else ""
  }

  function GermanMode(word: string): (mode: string)
    ensures AllLower(mode)
  {
    if word == "dur" then "major" else if word == "moll" then "minor" else ""
  }

  predicate Short(word: string) { word == "s" || word == "d" || word == "l" }

  // ^[0-9]+[a-z]?$
  predicate CatalogueNumber(s: string) {
    && s != "" && IsDigit(s[0]) && AllDigits(s[..|s| - 1])
    && (IsDigit(s[|s| - 1]) || IsLower(s[|s| - 1]))
  }

  function LeadingLetters(s: string): (k: nat)
    ensures k <= |s| && AllLower(s[..k]) && (k < |s| ==> !IsLower(s[k]))
  {
    if s != "" && IsLower(s[0]) then
      var k := LeadingLetters(s[1..]);
      assert s[..k + 1] == [s[0]] + s[1..][..k];
      k + 1
    else 0
  }

  // ^([a-z]+)([0-9]+[a-z]?)$
  predicate IsGlued(s: string) {
    var k := LeadingLetters(s);
    0 < k && CatalogueNumber(s[k..])
  }

  // ^[0-9]{1,3}$
  predicate OpusPart(s: string) { 1 <= |s| <= 3 && AllDigits(s) }

  // ^[ivxl]+$
  predicate Roman(s: string) { s != "" && forall i :: 0 <= i < |s| ==> s[i] in {'i', 'v', 'x', 'l'} }

  predicate Note(s: string) { |s| == 1 && 'a' <= s[0] <= 'g' }

  // ^[a-g]b$
  predicate EnglishFlat(s: string) { |s| == 2 && 'a' <= s[0] <= 'g' && s[1] == 'b' }

  predicate Accidental(s: string) { s == "sharp" || s == "flat" }

  predicate Mode(s: string) { s == "major" || s == "minor" }

  // Numbers are no catalogue, key or note.
  lemma NumberIsNoName(s: string)
    requires s != "" && IsDigit(s[0])
    ensures Catalogue(s) == "" && GermanKey(s) == "" && !EnglishFlat(s) && !Note(s)
  {
  }

  // ---------------------------------------------------------------------------
  // Words
  // ---------------------------------------------------------------------------

  // A word of a text, and whether an S, D or L there may name a catalogue.
  datatype Word = Word(text: string, short: bool)

  // At the start of the text, or before a full stop. `space` is the program's white space.
  predicate ShortAllowed(text: Text, i: nat, j: nat, space: char -> bool)
    requires i <= j <= |text|
  {
    (forall k :: 0 <= k < i ==> space(text[k].c)) || (j < |text| && text[j].c == '.')
  }

  function SplitWord(w: string, allowed: bool): seq<Word> {
    var k := LeadingLetters(w);
    if IsGlued(w) && Catalogue(w[..k]) != "" && (!Short(w[..k]) || allowed) then
      [Word(w[..k], allowed), Word(w[k..], false)]
    else [Word(w, allowed)]
  }

  function WordsFrom(text: Text, i: nat, space: char -> bool): seq<Word>
    requires i <= |text|
    decreases |text| - i
  {
    if i == |text| then []
    else if !InSpan(text[i]) then WordsFrom(text, i + 1, space)
    else
      var j := SpanEnd(text, i);
      SplitWord(Strip(text, i, j), ShortAllowed(text, i, j, space)) + WordsFrom(text, j, space)
  }

  // ---------------------------------------------------------------------------
  // Terms
  // ---------------------------------------------------------------------------

  function At(words: seq<Word>, i: nat): string { if i < |words| then words[i].text else "" }

  // What the parser makes of the words from one position: how many it uses, and the terms.
  datatype Parse = Parse(used: nat, terms: seq<string>)

  function CatalogueOf(w: Word): string { if Short(w.text) && !w.short then "" else Catalogue(w.text) }

  function ParseAt(words: seq<Word>, i: nat, opusParts: bool): (p: Parse)
    requires i < |words|
    ensures 1 <= p.used <= |words| - i && p.terms != []
  {
    var word, next, catalogue := words[i].text, At(words, i + 1), CatalogueOf(words[i]);
    if catalogue == "hob" && Roman(next) && CatalogueNumber(At(words, i + 2)) then
      Parse(3, [catalogue + next + At(words, i + 2)])
    else if catalogue != "" && CatalogueNumber(next) then
      if opusParts && catalogue == "op" && OpusPart(At(words, i + 2)) then
        Parse(3, [catalogue + next, "no" + At(words, i + 2)])
      else Parse(2, [catalogue + next])
    else if GermanKey(word) != "" && GermanMode(next) != "" then Parse(2, [GermanKey(word) + GermanMode(next)])
    else if EnglishFlat(word) then
      if Mode(next) then Parse(2, [word[..1] + "flat" + next]) else Parse(1, [word[..1] + "flat"])
    else if Note(word) && Accidental(next) then
      var third := At(words, i + 2);
      if Mode(third) then Parse(3, [word + next + third])
      else if third == "m" then Parse(3, [word + next + "minor"])
      else Parse(2, [word + next])
    else if Note(word) && Mode(next) then Parse(2, [word + next])
    else Parse(1, [word])
  }

  function TermsFrom(words: seq<Word>, i: nat, opusParts: bool): seq<string>
    requires i <= |words|
    decreases |words| - i
  {
    if i == |words| then []
    else ParseAt(words, i, opusParts).terms + TermsFrom(words, i + ParseAt(words, i, opusParts).used, opusParts)
  }

  // The terms of a text in a program with this white space; a search leaves opus parts be.
  function Terms(text: Text, opusParts: bool, space: char -> bool): seq<string> {
    TermsFrom(WordsFrom(text, 0, space), 0, opusParts)
  }

  function SearchTerms(text: Text): seq<string> { Terms(text, false, IsSpace) }

  // The next span and its fold.
  method FoldSpanAt(text: Text, start: nat) returns (end: nat, word: string)
    requires start < |text| && InSpan(text[start])
    ensures start < end == SpanEnd(text, start) && word == Strip(text, start, end)
  {
    hide IsSpace, IsBrowserSpace;
    end, word := start, "";
    while end < |text| && InSpan(text[end])
      invariant start <= end <= |text|
      invariant SpanEnd(text, start) == SpanEnd(text, end)
      invariant word + Strip(text, end, SpanEnd(text, end)) == Strip(text, start, SpanEnd(text, start))
    {
      if IsBase(text[end]) {
        word := word + [text[end].c];
      }
      end := end + 1;
    }
  }

  method AppendWord(words: seq<Word>, word: string, allowed: bool) returns (r: seq<Word>)
    ensures r == words + SplitWord(word, allowed)
  {
    var k := LeadingLetters(word);
    if IsGlued(word) && Catalogue(word[..k]) != "" && (!Short(word[..k]) || allowed) {
      return words + [Word(word[..k], allowed), Word(word[k..], false)];
    }
    return words + [Word(word, allowed)];
  }

  // The first loop of catalogueTerms.
  method CatalogueWords(text: Text) returns (words: seq<Word>)
    ensures words == WordsFrom(text, 0, IsSpace)
  {
    hide SplitWord;
    words := [];
    var start := 0;
    while start < |text|
      invariant start <= |text|
      invariant words + WordsFrom(text, start, IsSpace) == WordsFrom(text, 0, IsSpace)
      decreases |text| - start
    {
      if !InSpan(text[start]) {
        start := start + 1;
        continue;
      }
      var end, word := FoldSpanAt(text, start);
      words := AppendWord(words, word, ShortAllowed(text, start, end, IsSpace));
      start := end;
    }
  }

  // One turn of its second loop: how far it moves on, and what it appends.
  method ParseWord(words: seq<Word>, start: nat, opusParts: bool) returns (i: nat, terms: seq<string>)
    requires start < |words|
    ensures i > start && Parse(i - start, terms) == ParseAt(words, start, opusParts)
  {
    hide Catalogue, GermanKey, GermanMode, CatalogueNumber, Roman, OpusPart;
    i, terms := start, [];
    var word, next := words[i].text, At(words, i + 1);
    var catalogue := Catalogue(word);
    if Short(word) && !words[i].short {
      catalogue := "";
    }
    if catalogue == "hob" && Roman(next) && CatalogueNumber(At(words, i + 2)) {
      terms := terms + [catalogue + next + At(words, i + 2)];
      i := i + 2;
    } else if catalogue != "" && CatalogueNumber(next) {
      terms := terms + [catalogue + next];
      i := i + 1;
      if opusParts && catalogue == "op" && OpusPart(At(words, i + 1)) {
        terms := terms + ["no" + At(words, i + 1)];
        i := i + 1;
      }
    } else if GermanKey(word) != "" && GermanMode(next) != "" {
      terms := terms + [GermanKey(word) + GermanMode(next)];
      i := i + 1;
    } else if EnglishFlat(word) {
      var mode := "";
      if Mode(next) {
        mode := next;
        i := i + 1;
      }
      terms := terms + [word[..1] + "flat" + mode];
      assert word[..1] + "flat" + "" == word[..1] + "flat";
    } else if Note(word) && Accidental(next) {
      var key := word + next;
      i := i + 1;
      if Mode(At(words, i + 1)) || At(words, i + 1) == "m" {
        var mode := At(words, i + 1);
        if mode == "m" {
          mode := "minor";
        }
        key := key + mode;
        i := i + 1;
      }
      terms := terms + [key];
    } else if Note(word) && Mode(next) {
      terms := terms + [word + next];
      i := i + 1;
    } else {
      terms := terms + [word];
    }
    i := i + 1;
  }

  method CatalogueTerms(text: Text, opusParts: bool) returns (terms: seq<string>)
    ensures terms == Terms(text, opusParts, IsSpace)
  {
    hide ParseAt;
    var words := CatalogueWords(text);
    terms := [];
    var i := 0;
    while i < |words|
      invariant i <= |words|
      invariant terms + TermsFrom(words, i, opusParts) == TermsFrom(words, 0, opusParts)
    {
      var next, more := ParseWord(words, i, opusParts);
      i, terms := next, terms + more;
    }
  }
}
