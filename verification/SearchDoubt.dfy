/**
 Queries the API and the browser read differently: which terms each reads, and which pieces
 tell the two apart.
 */
module SearchDoubts {
  import opened SearchStrings
  import opened SearchFolds
  import opened SearchParser
  import opened SearchIndexes
  import opened SearchAgreement

  // ---------------------------------------------------------------------------
  // The two readings
  // ---------------------------------------------------------------------------

  // Of a text in doubt: the letter, the number after it, and the terms after both.
  function FirstEnd(text: Text): nat { SpanEnd(text, FirstSpan(text, 0)) }

  function DoubtLetter(text: Text): string { Strip(text, FirstSpan(text, 0), FirstEnd(text)) }

  function AfterLetter(text: Text): seq<Word> { WordsFrom(text, FirstEnd(text), IsSpace) }

  function DoubtNumber(text: Text): string { At(AfterLetter(text), 0) }

  function LaterTerms(text: Text): seq<string> {
    if AfterLetter(text) == [] then [] else TermsFrom(AfterLetter(text), 1, false)
  }

  function Joined(text: Text): seq<string> { [DoubtLetter(text) + DoubtNumber(text)] + LaterTerms(text) }

  function Apart(text: Text): seq<string> { [DoubtLetter(text), DoubtNumber(text)] + LaterTerms(text) }

  lemma ShortIsWhole(w: string, a: bool)
    requires Short(w)
    ensures SplitWord(w, a) == [Word(w, a)]
  {
    hide Catalogue;
    assert LeadingLetters(w[1..]) == 0 && w[1..] == "";
  }

  // A short letter and a number are one term where the letter may be a catalogue, and two
  // where it may not.
  lemma {:induction false} ShortTerms(w: string, a: bool, rest: seq<Word>)
    requires Short(w) && CatalogueNumber(At(rest, 0))
    ensures var n, later := At(rest, 0), TermsFrom(rest, 1, false);
            TermsFrom([Word(w, a)] + rest, 0, false) == if a then [w + n] + later else [w, n] + later
  {
    hide ParseAt, Short, CatalogueNumber;
    NumberParses(rest);
    var words, n, later := [Word(w, a)] + rest, At(rest, 0), TermsFrom(rest, 1, false);
    FirstWordParses(w, a, rest, false);
    if a {
      TermsShift(words, 1, rest, 1, false);
    } else {
      TermsShift(words, 1, rest, 0, false);
      assert [w] + ([n] + later) == [w, n] + later;
    }
  }

  lemma NumberParses(rest: seq<Word>)
    requires CatalogueNumber(At(rest, 0))
    ensures rest != [] && ParseAt(rest, 0, false) == Parse(1, [At(rest, 0)])
  {
    NumberIsNoName(At(rest, 0));
    hide Catalogue, GermanKey, GermanMode;
  }

  // One program reads a text in doubt as the joined number, the other as letter and number.
  lemma TwoReadings(text: Text)
    requires StartsInDoubt(text)
    ensures {Terms(text, false, IsSpace), Terms(text, false, IsBrowserSpace)} == {Joined(text), Apart(text)}
  {
    var i, j := FirstSpan(text, 0), FirstEnd(text);
    var w, rest := DoubtLetter(text), AfterLetter(text);
    var a, b := ShortAllowed(text, i, j, IsSpace), ShortAllowed(text, i, j, IsBrowserSpace);
    WordsStart(text, 0, IsSpace);
    WordsStart(text, 0, IsBrowserSpace);
    ShortIsWhole(w, a);
    ShortIsWhole(w, b);
    assert i < |text|;
    LaterWordsAgree(text, j, i);
    hide SplitWord, TermsFrom, CatalogueNumber, Short;
    assert WordsFrom(text, 0, IsSpace) == [Word(w, a)] + rest;
    assert WordsFrom(text, 0, IsBrowserSpace) == [Word(w, b)] + rest;
    ShortTerms(w, a, rest);
    ShortTerms(w, b, rest);
  }

  // ---------------------------------------------------------------------------
  // Which pieces tell them apart
  // ---------------------------------------------------------------------------

  ghost predicate AllMatch(index: string, terms: seq<string>) {
    forall i :: 0 <= i < |terms| ==> BrowserMatches(index, terms[i])
  }

  // Some later term holds the joined number again.
  ghost predicate Repeats(text: Text) {
    exists i :: 0 <= i < |LaterTerms(text)| && Contains(LaterTerms(text)[i], DoubtLetter(text) + DoubtNumber(text))
  }

  lemma LowerTogether(s: string, k: nat)
    requires k <= |s| && AllLower(s[..k]) && AllLower(s[k..])
    ensures AllLower(s)
  {
    forall i | 0 <= i < |s|
      ensures IsLower(s[i])
    {
      assert i < k ==> s[..k][i] == s[i];
      assert i >= k ==> s[k..][i - k] == s[i];
    }
  }

  lemma NamesAreLower(t: string)
    requires Mode(t) || Accidental(t)
    ensures AllLower(t)
  {
  }

  lemma KeyTermIsLower(t: string)
    requires IsKeyTerm(t)
    ensures AllLower(t)
  {
    hide Mode, Accidental;
    if Mode(t[1..]) || Accidental(t[1..]) {
      NamesAreLower(t[1..]);
    } else {
      var k := |t| - 5;
      assert t[1..][..k - 1] == t[1..k] && t[1..][k - 1..] == t[k..];
      NamesAreLower(t[1..k]);
      NamesAreLower(t[k..]);
      LowerTogether(t[1..], k - 1);
    }
    assert t[..1] == [t[0]];
    LowerTogether(t, 1);
  }

  // What holds a digit is matched as part of the index.
  lemma DigitIsNoKey(t: string, u: string, k: nat)
    requires Contains(t, u) && k < |u| && IsDigit(u[k])
    ensures !IsKeyTerm(t)
  {
    var n: nat :| OccursAt(t, u, n);
    assert t[n + k] == u[k];
    if IsKeyTerm(t) {
      KeyTermIsLower(t);
      assert false;
    }
  }

  // The joined number is found only where the letter and the number are.
  lemma JoinedIsBoth(index: string, w: string, n: string)
    requires Contains(index, w + n)
    ensures Contains(index, w) && Contains(index, n)
  {
    assert (w + n)[0..0 + |w|] == w && (w + n)[|w|..|w| + |n|] == n;
    assert OccursAt(w + n, w, 0) && OccursAt(w + n, n, |w|);
    ContainsTrans(index, w + n, w);
    ContainsTrans(index, w + n, n);
  }

  lemma DoubtIsNoKey(w: string, n: string)
    requires Short(w) && CatalogueNumber(n)
    ensures !IsKeyTerm(w) && !IsKeyTerm(n) && !IsKeyTerm(w + n)
  {
    ContainsItself(n);
    ContainsItself(w + n);
    DigitIsNoKey(n, n, 0);
    DigitIsNoKey(w + n, w + n, 1);
  }

  lemma FirstMatches(index: string, t: string, terms: seq<string>)
    ensures AllMatch(index, [t] + terms) <==> BrowserMatches(index, t) && AllMatch(index, terms)
  {
    hide BrowserMatches;
    assert ([t] + terms)[0] == t && forall i :: 0 <= i < |terms| ==> ([t] + terms)[i + 1] == terms[i];
  }

  lemma MatchJoined(index: string, text: Text)
    requires StartsInDoubt(text)
    ensures AllMatch(index, Joined(text))
            <==> Contains(index, DoubtLetter(text) + DoubtNumber(text)) && AllMatch(index, LaterTerms(text))
    ensures AllMatch(index, Apart(text))
            <==> Contains(index, DoubtLetter(text)) && Contains(index, DoubtNumber(text)) && AllMatch(index, LaterTerms(text))
  {
    hide AllMatch, StartsInDoubt, IsKeyTerm, Contains, LaterTerms, DoubtNumber, DoubtLetter, Blanks;
    var w, n, later := DoubtLetter(text), DoubtNumber(text), LaterTerms(text);
    InDoubt(text);
    DoubtIsNoKey(w, n);
    FirstMatches(index, w + n, later);
    FirstMatches(index, n, later);
    FirstMatches(index, w, [n] + later);
    assert Apart(text) == [w] + ([n] + later);
  }

  lemma InDoubt(text: Text)
    requires StartsInDoubt(text)
    ensures Short(DoubtLetter(text)) && CatalogueNumber(DoubtNumber(text))
  {
    hide Short, CatalogueNumber;
  }

  // Where the joined number comes again, both readings match the same pieces.
  lemma RepeatsMatchAlike(index: string, text: Text)
    requires StartsInDoubt(text) && Repeats(text)
    ensures AllMatch(index, Joined(text)) <==> AllMatch(index, Apart(text))
  {
    hide StartsInDoubt, IsKeyTerm, LaterTerms, DoubtNumber, DoubtLetter, Joined, Apart;
    var w, n, later := DoubtLetter(text), DoubtNumber(text), LaterTerms(text);
    MatchJoined(index, text);
    InDoubt(text);
    var i :| 0 <= i < |later| && Contains(later[i], w + n);
    DigitIsNoKey(later[i], w + n, 1);
    if AllMatch(index, later) {
      assert BrowserMatches(index, later[i]);
      ContainsTrans(index, later[i], w + n);
      JoinedIsBoth(index, w, n);
    }
  }

  // ---------------------------------------------------------------------------
  // A piece that tells them apart
  // ---------------------------------------------------------------------------

  predicate OneWord(u: string) { u != "" && forall i :: 0 <= i < |u| ==> u[i] != ' ' }

  lemma BlankInside(u: string, i: nat)
    requires i < |u| && u[i] == ' '
    ensures !OneWord(u)
  {
  }

  // A word occurs in joined words only in one of them.
  lemma {:induction false} JoinHoldsNot(words: seq<string>, u: string)
    requires OneWord(u) && forall k :: 0 <= k < |words| ==> !Contains(words[k], u)
    ensures !Contains(Join(words), u)
    decreases |words|
  {
    hide Contains;
    if words == [] {
      LongerIsNotHeld("", u);
    } else if |words| > 1 {
      JoinHoldsNot(words[1..], u);
      OccursBeside(words[0], Join(words[1..]), u);
    }
  }

  lemma LongerIsNotHeld(s: string, u: string)
    requires OneWord(u) && |s| < |u|
    ensures !Contains(s, u)
  {
  }

  lemma OccursBeside(first: string, rest: string, u: string)
    requires OneWord(u)
    ensures Contains(first + " " + rest, u) ==> Contains(first, u) || Contains(rest, u)
  {
    hide OneWord;
    var s := first + " " + rest;
    if k: nat :| OccursAt(s, u, k) {
      assert forall i :: 0 <= i < |u| ==> s[k + i] == u[i];
      if k + |u| <= |first| {
        assert first[k..k + |u|] == u;
        assert OccursAt(first, u, k);
      } else if k > |first| {
        var n := k - |first| - 1;
        assert rest[n..n + |u|] == s[k..k + |u|];
        assert OccursAt(rest, u, n);
      } else {
        assert s[k + (|first| - k)] == u[|first| - k];
        BlankInside(u, |first| - k);
      }
    }
  }

  lemma TokenBehind(first: string, rest: string, w: string)
    requires IsToken(rest, w)
    ensures IsToken(first + " " + rest, w)
  {
    var a: nat, b: nat :| PieceAt(rest, a, b, IsBlank) && rest[a..b] == w;
    var s, n := first + " " + rest, |first| + 1;
    assert forall k :: 0 <= k < |rest| ==> s[n + k] == rest[k];
    assert PieceAt(s, n + a, n + b, IsBlank) && s[n + a..n + b] == w;
  }

  lemma {:induction false} JoinHasToken(words: seq<string>, w: string)
    requires w in words && forall i :: 0 <= i < |words| ==> Unbroken(words[i])
    ensures IsToken(Join(words), w)
    decreases |words|
  {
    hide Unbroken;
    WholeIsToken(words[0]);
    if |words| > 1 {
      if w == words[0] {
        TokenStays(w, w, Join(words[1..]));
      } else {
        JoinHasToken(words[1..], w);
        TokenBehind(words[0], Join(words[1..]), w);
      }
    }
  }

  lemma {:induction false} JoinMatches(words: seq<string>, w: string)
    requires w in words && forall i :: 0 <= i < |words| ==> Unbroken(words[i])
    ensures BrowserMatches(Join(words), w)
  {
    hide IsKeyTerm, Unbroken;
    JoinContains(words, w);
    JoinHasToken(words, w);
    SplitHas(Join(words), IsBlank, w);
    if IsKeyTerm(w) {
      var i :| 0 <= i < |Blanks(Join(words))| && Blanks(Join(words))[i] == w;
      assert MatchesWord(Blanks(Join(words))[i], w);
    }
  }

  // The words of a query in doubt, its number before its letter.
  function Turned(text: Text): seq<string> { [DoubtNumber(text), DoubtLetter(text)] + LaterTerms(text) }

  lemma TurnedAreUnbroken(text: Text)
    requires StartsInDoubt(text)
    ensures forall i :: 0 <= i < |Turned(text)| ==> Unbroken(Turned(text)[i])
  {
    hide StartsInDoubt, Terms, Unbroken, DoubtLetter, DoubtNumber, LaterTerms;
    TwoReadings(text);
    forall i | 0 <= i < |Turned(text)|
      ensures Unbroken(Turned(text)[i])
    {
      var t := Turned(text)[i];
      assert Apart(text)[if i == 0 then 1 else if i == 1 then 0 else i] == t;
      if Terms(text, false, IsSpace) == Apart(text) {
        TextTermsAreUnbroken(text, false, IsSpace, t);
      } else {
        TextTermsAreUnbroken(text, false, IsBrowserSpace, t);
      }
    }
  }

  lemma SumIsOneWord(w: string, n: string)
    requires Short(w) && CatalogueNumber(n)
    ensures OneWord(w + n) && |w| == 1 && |n| >= 1
  {
    forall i | 0 <= i < |n|
      ensures n[i] != ' '
    {
      assert i < |n| - 1 ==> n[..|n| - 1][i] == n[i];
    }
  }

  // A piece whose search text is those words is found by one program only.
  lemma TurnedTellsApart(text: Text)
    requires StartsInDoubt(text) && !Repeats(text)
    ensures AllMatch(Join(Turned(text)), Apart(text)) && !AllMatch(Join(Turned(text)), Joined(text))
  {
    hide StartsInDoubt, DoubtLetter, DoubtNumber, LaterTerms, BrowserMatches, Contains;
    var w, n, words := DoubtLetter(text), DoubtNumber(text), Turned(text);
    InDoubt(text);
    TurnedAreUnbroken(text);
    forall i | 0 <= i < |Apart(text)|
      ensures BrowserMatches(Join(words), Apart(text)[i])
    {
      assert words[if i == 0 then 1 else if i == 1 then 0 else i] == Apart(text)[i];
      JoinMatches(words, Apart(text)[i]);
    }
    SumIsOneWord(w, n);
    LongerIsNotHeld(w, w + n);
    LongerIsNotHeld(n, w + n);
    forall k | 0 <= k < |words|
      ensures !Contains(words[k], w + n)
    {
      assert k >= 2 ==> words[k] == LaterTerms(text)[k - 2];
    }
    JoinHoldsNot(words, w + n);
    MatchJoined(Join(words), text);
  }
}
