/**
 The SQL rendering of the matcher: searchPattern and likeEscape in internal/app/search.go,
 with LIKE as section 8.5 of SQL-92 defines it for ESCAPE '\'. A piece is matched by the
 database exactly when the browser's matcher finds it.
 */
module SearchSql {
  import opened SearchStrings
  import opened SearchParser
  import opened SearchIndexes

  // ---------------------------------------------------------------------------
  // LIKE
  // ---------------------------------------------------------------------------

  // Whether s is LIKE the pattern: % stands for any characters, _ for any one, and a
  // backslash makes the next character stand for itself.
  predicate Like(s: string, pattern: string)
    decreases |pattern|, |s|
  {
    if pattern == "" then s == ""
    else if pattern[0] == '%' then Like(s, pattern[1..]) || (s != "" && Like(s[1..], pattern))
    else if s == "" then false
    else if pattern[0] == '_' then Like(s[1..], pattern[1..])
    else if pattern[0] == '\\' && |pattern| > 1 then s[0] == pattern[1] && Like(s[1..], pattern[2..])
    else s[0] == pattern[0] && Like(s[1..], pattern[1..])
  }

  function LikeEscape(s: string): string {
    if s == "" then ""
    else (if s[0] in {'\\', '%', '_'} then ['\\', s[0]] else [s[0]]) + LikeEscape(s[1..])
  }

  // The column a term is matched against, and the pattern.
  function SearchColumn(index: string, term: string): string {
    if IsKeyTerm(term) then " " + index + " " else index
  }

  function SearchPattern(term: string): string {
    if IsKeyTerm(term) then "% " + LikeEscape(term) + (if HasMode(term) then " %" else "%")
    else "%" + LikeEscape(term) + "%"
  }

  // An escaped text at the head of a pattern is exactly that text at the head of s.
  lemma {:induction false} EscapedIsLiteral(s: string, t: string, rest: string)
    ensures Like(s, LikeEscape(t) + rest) <==> StartsWith(s, t) && Like(s[|t|..], rest)
    decreases |t|
  {
    if t == "" {
      assert "" + rest == rest && s[0..] == s;
    } else {
      var head := if t[0] in {'\\', '%', '_'} then ['\\', t[0]] else [t[0]];
      var tail := LikeEscape(t[1..]) + rest;
      assert LikeEscape(t) + rest == head + tail;
      assert (head + tail)[|head|..] == tail;
      if s != "" {
        EscapedIsLiteral(s[1..], t[1..], rest);
        assert Like(s, head + tail) <==> s[0] == t[0] && Like(s[1..], tail);
        StartsOneMore(s, t);
        if |t| <= |s| {
          assert s[1..][|t| - 1..] == s[|t|..];
        }
      }
    }
  }

  lemma StartsOneMore(s: string, t: string)
    requires s != "" && t != ""
    ensures StartsWith(s, t) <==> s[0] == t[0] && StartsWith(s[1..], t[1..])
  {
  }

  lemma {:induction false} PercentMatchesAll(s: string)
    ensures Like(s, "%")
    decreases |s|
  {
    if s != "" {
      PercentMatchesAll(s[1..]);
    } else {
      assert "%"[1..] == "";
    }
  }

  // %t% holds of the strings that contain t.
  lemma {:induction false} SurroundedIsContained(s: string, t: string)
    ensures Like(s, "%" + LikeEscape(t) + "%") <==> Contains(s, t)
    decreases |s|
  {
    var pattern := "%" + LikeEscape(t) + "%";
    assert pattern[1..] == LikeEscape(t) + "%";
    EscapedIsLiteral(s, t, "%");
    if StartsWith(s, t) {
      PercentMatchesAll(s[|t|..]);
      assert s[0..0 + |t|] == t;
      assert OccursAt(s, t, 0);
    } else if s != "" {
      SurroundedIsContained(s[1..], t);
      LaterOccurs(s, t);
    } else {
      assert !Contains(s, t);
    }
  }

  lemma LaterOccurs(s: string, t: string)
    requires s != "" && !StartsWith(s, t)
    ensures Contains(s[1..], t) <==> Contains(s, t)
  {
    if Contains(s[1..], t) {
      var k: nat :| OccursAt(s[1..], t, k);
      assert s[k + 1..k + 1 + |t|] == s[1..][k..k + |t|];
      assert OccursAt(s, t, k + 1);
    }
    if Contains(s, t) {
      var k: nat :| OccursAt(s, t, k);
      assert k != 0 by {
        assert s[0..0 + |t|] == s[..|t|];
      }
      assert s[1..][k - 1..k - 1 + |t|] == s[k..k + |t|];
      assert OccursAt(s[1..], t, k - 1);
    }
  }

  // ---------------------------------------------------------------------------
  // Words between spaces
  // ---------------------------------------------------------------------------

  predicate NoBlank(t: string) { forall i :: 0 <= i < |t| ==> t[i] != ' ' }

  // The characters of t stand in s from k on.
  predicate Stands(s: string, k: nat, t: string) {
    k + |t| <= |s| && forall i :: 0 <= i < |t| ==> s[k + i] == t[i]
  }

  lemma StandsOccurs(s: string, k: nat, t: string)
    ensures Stands(s, k, t) <==> OccursAt(s, t, k)
  {
  }

  lemma StandsTogether(s: string, k: nat, t: string, u: string)
    ensures Stands(s, k, t + u) <==> Stands(s, k, t) && Stands(s, k + |t|, u)
  {
    if Stands(s, k, t + u) {
      forall i | 0 <= i < |t|
        ensures s[k + i] == t[i]
      {
        assert (t + u)[i] == t[i];
      }
      forall i | 0 <= i < |u|
        ensures s[k + |t| + i] == u[i]
      {
        assert s[k + (|t| + i)] == (t + u)[|t| + i];
      }
    }
  }

  // t stands in index exactly when it stands one later between two more spaces.
  lemma StandsPadded(index: string, k: nat, t: string)
    requires k + |t| <= |index|
    ensures var s := " " + index + " ";
            && (Stands(s, k, " ") <==> k == 0 || index[k - 1] == ' ')
            && (Stands(s, k + 1, t) <==> Stands(index, k, t))
            && (Stands(s, k + 1 + |t|, " ") <==> k + |t| == |index| || index[k + |t|] == ' ')
  {
    var s := " " + index + " ";
    assert forall i :: 0 <= i < |index| ==> s[1 + i] == index[i];
    if Stands(s, k + 1, t) {
      forall i | 0 <= i < |t|
        ensures index[k + i] == t[i]
      {
        assert s[k + 1 + i] == t[i] && s[1 + (k + i)] == index[k + i];
      }
    }
    assert s[|index| + 1] == ' ';
    assert Stands(s, k, " ") <==> s[k] == ' ';
  }

  lemma WordPadded(index: string, k: nat, t: string)
    requires k + |t| <= |index|
    ensures Stands(" " + index + " ", k, " " + t)
            <==> Stands(index, k, t) && (k == 0 || index[k - 1] == ' ')
    ensures Stands(" " + index + " ", k, " " + t + " ")
            <==> Stands(index, k, t) && (k == 0 || index[k - 1] == ' ')
                 && (k + |t| == |index| || index[k + |t|] == ' ')
  {
    hide Stands;
    StandsPadded(index, k, t);
    StandsTogether(" " + index + " ", k, " ", t);
    StandsTogether(" " + index + " ", k, " " + t, " ");
  }

  lemma PieceIsToken(index: string, k: nat, t: string)
    requires NoBlank(t) && Stands(index, k, t) && (k == 0 || index[k - 1] == ' ')
    requires k + |t| == |index| || index[k + |t|] == ' '
    ensures IsToken(index, t)
  {
    forall j | k <= j < k + |t|
      ensures !IsBlank(index[j])
    {
      assert index[k + (j - k)] == t[j - k];
    }
    assert PieceAt(index, k, k + |t|, IsBlank) && index[k..k + |t|] == t;
  }

  // A word of the index is a text between spaces once a space stands at both ends.
  lemma WordIsBetweenSpaces(index: string, t: string)
    requires NoBlank(t)
    ensures IsToken(index, t) <==> Contains(" " + index + " ", " " + t + " ")
  {
    var s, u := " " + index + " ", " " + t + " ";
    if IsToken(index, t) {
      var a: nat, b: nat :| PieceAt(index, a, b, IsBlank) && index[a..b] == t;
      assert Stands(index, a, t);
      WordPadded(index, a, t);
      StandsOccurs(s, a, u);
    }
    if Contains(s, u) {
      var k: nat :| OccursAt(s, u, k);
      StandsOccurs(s, k, u);
      WordPadded(index, k, t);
      PieceIsToken(index, k, t);
    }
  }

  ghost predicate SomeWordStarts(index: string, t: string) {
    exists w :: IsToken(index, w) && StartsWith(w, t)
  }

  // The end of the word that starts at a.
  function WordEnd(index: string, a: nat): (b: nat)
    requires a <= |index|
    ensures a <= b <= |index| && (forall k :: a <= k < b ==> index[k] != ' ') && (b < |index| ==> index[b] == ' ')
    decreases |index| - a
  {
    if a < |index| && index[a] != ' ' then WordEnd(index, a + 1) else a
  }

  lemma WordStarts(index: string, t: string, k: nat)
    requires NoBlank(t) && Stands(index, k, t) && (k == 0 || index[k - 1] == ' ')
    ensures SomeWordStarts(index, t)
  {
    var b := WordEnd(index, k);
    forall j | k <= j < k + |t|
      ensures index[j] != ' '
    {
      assert index[k + (j - k)] == t[j - k];
    }
    assert PieceAt(index, k, b, IsBlank);
    assert index[k..b][..|t|] == t;
    assert IsToken(index, index[k..b]);
  }

  // Some word starts with t exactly when t stands after a space, once one stands in front.
  lemma PrefixIsAfterSpace(index: string, t: string)
    requires NoBlank(t) && t != ""
    ensures SomeWordStarts(index, t) <==> Contains(" " + index + " ", " " + t)
  {
    var s, u := " " + index + " ", " " + t;
    if SomeWordStarts(index, t) {
      var w :| IsToken(index, w) && StartsWith(w, t);
      var a: nat, b: nat :| PieceAt(index, a, b, IsBlank) && index[a..b] == w;
      assert forall i :: 0 <= i < |t| ==> index[a + i] == w[i] == w[..|t|][i];
      WordPadded(index, a, t);
      StandsOccurs(s, a, u);
    }
    if Contains(s, u) {
      var k: nat :| OccursAt(s, u, k);
      StandsOccurs(s, k, u);
      assert k + |t| <= |index| by {
        assert s[k + |t|] == u[|t|] == t[|t| - 1];
      }
      WordPadded(index, k, t);
      WordStarts(index, t, k);
    }
  }

  // ---------------------------------------------------------------------------
  // The matcher and the pattern
  // ---------------------------------------------------------------------------

  lemma NamesHaveNoBlank(t: string)
    requires Mode(t) || Accidental(t)
    ensures NoBlank(t)
  {
  }

  lemma NoBlankTogether(s: string, k: nat)
    requires k <= |s| && NoBlank(s[..k]) && NoBlank(s[k..])
    ensures NoBlank(s)
  {
    forall i | 0 <= i < |s|
      ensures s[i] != ' '
    {
      assert i < k ==> s[..k][i] == s[i];
      assert i >= k ==> s[k..][i - k] == s[i];
    }
  }

  lemma KeyTermHasNoBlank(term: string)
    requires IsKeyTerm(term)
    ensures NoBlank(term)
  {
    hide Mode, Accidental;
    if Mode(term[1..]) || Accidental(term[1..]) {
      NamesHaveNoBlank(term[1..]);
    } else {
      var k := |term| - 5;
      assert term[1..][..k - 1] == term[1..k] && term[1..][k - 1..] == term[k..];
      NamesHaveNoBlank(term[1..k]);
      NamesHaveNoBlank(term[k..]);
      NoBlankTogether(term[1..], k - 1);
    }
    NoBlankTogether(term, 1);
  }

  lemma BrowserMatchesWords(index: string, term: string)
    requires IsKeyTerm(term)
    ensures BrowserMatches(index, term) <==> exists w :: IsToken(index, w) && MatchesWord(w, term)
  {
    hide IsKeyTerm, MatchesWord;
    forall w
      ensures w in Blanks(index) <==> IsToken(index, w)
    {
      SplitHas(index, IsBlank, w);
    }
    assert BrowserMatches(index, term) <==> exists w :: w in Blanks(index) && MatchesWord(w, term);
  }

  lemma {:induction false} KeyPatternWithMode(s: string, term: string)
    ensures Like(s, "% " + LikeEscape(term) + " %") <==> Contains(s, " " + term + " ")
  {
    SurroundedIsContained(s, " " + term + " ");
    EscapeAppends(" " + term, " ");
    EscapeAppends(" ", term);
    assert LikeEscape(" ") == " " + LikeEscape("") == " ";
    assert "%" + (" " + LikeEscape(term) + " ") + "%" == "% " + LikeEscape(term) + " %";
  }

  lemma {:induction false} KeyPatternWithoutMode(s: string, term: string)
    ensures Like(s, "% " + LikeEscape(term) + "%") <==> Contains(s, " " + term)
  {
    SurroundedIsContained(s, " " + term);
    EscapeAppends(" ", term);
    assert LikeEscape(" ") == " " + LikeEscape("") == " ";
    assert "%" + (" " + LikeEscape(term)) + "%" == "% " + LikeEscape(term) + "%";
  }

  lemma {:induction false} EscapeAppends(s: string, t: string)
    ensures LikeEscape(s + t) == LikeEscape(s) + LikeEscape(t)
    decreases |s|
  {
    if s == "" {
      assert s + t == t;
    } else {
      assert (s + t)[1..] == s[1..] + t;
      EscapeAppends(s[1..], t);
    }
  }

  // For every index and every term, the pattern matches the column exactly when the
  // browser's matcher finds the term in the index.
  lemma PatternIsTheMatcher(index: string, term: string)
    ensures Like(SearchColumn(index, term), SearchPattern(term)) <==> BrowserMatches(index, term)
  {
    if !IsKeyTerm(term) {
      SurroundedIsContained(index, term);
    } else {
      KeyTermHasNoBlank(term);
      BrowserMatchesWords(index, term);
      var column := " " + index + " ";
      if HasMode(term) {
        KeyPatternWithMode(column, term);
        WordIsBetweenSpaces(index, term);
      } else {
        KeyPatternWithoutMode(column, term);
        PrefixIsAfterSpace(index, term);
        assert StartsWith(term, term);
        assert forall w :: MatchesWord(w, term) <==> StartsWith(w, term);
      }
    }
  }
}
