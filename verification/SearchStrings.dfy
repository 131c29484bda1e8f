/**
 The string operations search is written with: contains, split, join, trim, and Go's
 strings.Fields.
 */
module SearchStrings {

  // Go's unicode.IsSpace.
  predicate IsSpace(c: char) {
    || '\t' <= c <= '\r' || c == ' ' || c == '\U{85}' || c == '\U{A0}' || c == '\U{1680}'
    || '\U{2000}' <= c <= '\U{200A}' || c == '\U{2028}' || c == '\U{2029}' || c == '\U{202F}' || c == '\U{205F}'
    || c == '\U{3000}'
  }

  // JavaScript's white space: it has the byte order mark, and no U+0085.
  predicate IsBrowserSpace(c: char) { (IsSpace(c) && c != '\U{85}') || c == '\U{FEFF}' }

  predicate IsBlank(c: char) { c == ' ' }

  predicate OccursAt(s: string, t: string, k: nat) { k + |t| <= |s| && s[k..k + |t|] == t }

  ghost predicate Contains(s: string, t: string) { exists k: nat :: OccursAt(s, t, k) }

  predicate StartsWith(s: string, t: string) { |t| <= |s| && s[..|t|] == t }

  lemma ContainsIn(r: string, s: string, q: string, t: string)
    requires Contains(s, t)
    ensures Contains(r + s + q, t)
  {
    var k: nat :| OccursAt(s, t, k);
    assert (r + s + q)[|r| + k..|r| + k + |t|] == s[k..k + |t|];
    assert OccursAt(r + s + q, t, |r| + k);
  }

  lemma ContainsItself(s: string)
    ensures Contains(s, s)
  {
    assert s[0..0 + |s|] == s;
    assert OccursAt(s, s, 0);
  }

  // ---------------------------------------------------------------------------
  // Splitting
  // ---------------------------------------------------------------------------

  // The pieces of s[start..] between separators, where none stands in s[start..i].
  function SplitFrom(s: string, start: nat, i: nat, sep: char -> bool): seq<string>
    requires start <= i <= |s|
    decreases |s| - i
  {
    if i == |s| then [s[start..]]
    else if sep(s[i]) then [s[start..i]] + SplitFrom(s, i + 1, i + 1, sep)
    else SplitFrom(s, start, i + 1, sep)
  }

  function Split(s: string, sep: char -> bool): seq<string> { SplitFrom(s, 0, 0, sep) }

  function NonEmpty(pieces: seq<string>): seq<string> {
    if pieces == [] then []
    else if pieces[0] == "" then NonEmpty(pieces[1..])
    else [pieces[0]] + NonEmpty(pieces[1..])
  }

  // Go's strings.Fields, and JavaScript's split(' ').
  function Fields(s: string): seq<string> { NonEmpty(Split(s, IsSpace)) }

  function Blanks(s: string): seq<string> { Split(s, IsBlank) }

  // s[a..b] lies between two separators and holds none.
  predicate PieceAt(s: string, a: nat, b: nat, sep: char -> bool) {
    && a <= b <= |s|
    && (a == 0 || sep(s[a - 1])) && (b == |s| || sep(s[b]))
    && forall k :: a <= k < b ==> !sep(s[k])
  }

  ghost predicate IsPiece(s: string, start: nat, w: string, sep: char -> bool) {
    exists a: nat, b: nat :: start <= a && PieceAt(s, a, b, sep) && s[a..b] == w
  }

  lemma {:induction false} SplitFromHas(s: string, start: nat, i: nat, sep: char -> bool, w: string)
    requires start <= i <= |s| && (start == 0 || sep(s[start - 1])) && forall k :: start <= k < i ==> !sep(s[k])
    ensures w in SplitFrom(s, start, i, sep) <==> IsPiece(s, start, w, sep)
    decreases |s| - i
  {
    if i == |s| {
      assert PieceAt(s, start, i, sep);
      assert s[start..] == s[start..i];
    } else if sep(s[i]) {
      SplitFromHas(s, i + 1, i + 1, sep, w);
      assert PieceAt(s, start, i, sep);
      assert forall a: nat, b: nat :: start <= a && PieceAt(s, a, b, sep) && a <= i ==> a == start && b == i;
    } else {
      SplitFromHas(s, start, i + 1, sep, w);
    }
  }

  lemma SplitHas(s: string, sep: char -> bool, w: string)
    ensures w in Split(s, sep) <==> IsPiece(s, 0, w, sep)
  {
    SplitFromHas(s, 0, 0, sep, w);
  }

  lemma {:induction false} NonEmptyHas(pieces: seq<string>, w: string)
    ensures w in NonEmpty(pieces) <==> w in pieces && w != ""
    decreases |pieces|
  {
    if pieces != [] {
      NonEmptyHas(pieces[1..], w);
    }
  }

  predicate OnlyBlanks(s: string) { forall i :: 0 <= i < |s| && IsSpace(s[i]) ==> s[i] == ' ' }

  lemma {:induction false} SameSplit(s: string, start: nat, i: nat)
    requires OnlyBlanks(s) && start <= i <= |s|
    ensures SplitFrom(s, start, i, IsSpace) == SplitFrom(s, start, i, IsBlank)
    decreases |s| - i
  {
    if i < |s| {
      if IsBlank(s[i]) {
        SameSplit(s, i + 1, i + 1);
      } else {
        SameSplit(s, start, i + 1);
      }
    }
  }

  // Where a space is the only white space, the two programs see the same non-empty words.
  lemma FieldsAreBlanks(s: string, w: string)
    requires OnlyBlanks(s)
    ensures w in Fields(s) <==> w in Blanks(s) && w != ""
  {
    SameSplit(s, 0, 0);
    NonEmptyHas(Blanks(s), w);
  }

  // ---------------------------------------------------------------------------
  // Tokens
  // ---------------------------------------------------------------------------

  ghost predicate IsToken(s: string, w: string) { IsPiece(s, 0, w, IsBlank) }

  predicate Unbroken(w: string) { forall i :: 0 <= i < |w| ==> !IsSpace(w[i]) }

  lemma TokenIsContained(s: string, w: string)
    requires IsToken(s, w)
    ensures Contains(s, w)
  {
    var a: nat, b: nat :| PieceAt(s, a, b, IsBlank) && s[a..b] == w;
    assert OccursAt(s, w, a);
  }

  lemma TokenStays(s: string, w: string, t: string)
    requires IsToken(s, w)
    ensures IsToken(s + " " + t, w)
  {
    var a: nat, b: nat :| PieceAt(s, a, b, IsBlank) && s[a..b] == w;
    assert PieceAt(s + " " + t, a, b, IsBlank) && (s + " " + t)[a..b] == s[a..b];
  }

  lemma WholeIsToken(t: string)
    requires Unbroken(t)
    ensures IsToken(t, t)
  {
    assert PieceAt(t, 0, |t|, IsBlank) && t[0..|t|] == t;
  }

  lemma LastIsToken(s: string, t: string)
    requires Unbroken(t)
    ensures IsToken(s + " " + t, t)
  {
    var u := s + " " + t;
    assert forall k :: 0 <= k < |t| ==> u[|s| + 1 + k] == t[k];
    assert PieceAt(u, |s| + 1, |u|, IsBlank) && u[|s| + 1..|u|] == t;
  }

  // ---------------------------------------------------------------------------
  // Joining and trimming
  // ---------------------------------------------------------------------------

  function Join(words: seq<string>): string {
    if words == [] then ""
    else if |words| == 1 then words[0]
    else words[0] + " " + Join(words[1..])
  }

  lemma {:induction false} JoinContains(words: seq<string>, w: string)
    requires w in words
    ensures Contains(Join(words), w)
    decreases |words|
  {
    if |words| == 1 {
      ContainsItself(w);
    } else if words[0] == w {
      ContainsItself(w);
      ContainsIn("", w, " " + Join(words[1..]), w);
      assert Join(words) == "" + w + (" " + Join(words[1..]));
    } else {
      JoinContains(words[1..], w);
      ContainsIn(words[0] + " ", Join(words[1..]), "", w);
      assert Join(words) == words[0] + " " + Join(words[1..]) + "";
    }
  }

  lemma ContainsTrans(s: string, t: string, u: string)
    requires Contains(s, t) && Contains(t, u)
    ensures Contains(s, u)
  {
    var j: nat :| OccursAt(s, t, j);
    var k: nat :| OccursAt(t, u, k);
    assert forall i :: 0 <= i < |t| ==> s[j + i] == t[i];
    assert forall i :: 0 <= i < |u| ==> t[k + i] == u[i];
    assert s[j + k..j + k + |u|] == u;
    assert OccursAt(s, u, j + k);
  }

  function TrimLeft(s: string): string {
    if s != "" && s[0] == ' ' then TrimLeft(s[1..]) else s
  }

  function TrimRight(s: string): string {
    if s != "" && s[|s| - 1] == ' ' then TrimRight(s[..|s| - 1]) else s
  }

  function Trim(s: string): string { TrimLeft(TrimRight(s)) }

  // Go's strings.TrimSpace.
  function TrimSpaceLeft(s: string): string { if s != "" && IsSpace(s[0]) then TrimSpaceLeft(s[1..]) else s }

  function TrimSpaceRight(s: string): string {
    if s != "" && IsSpace(s[|s| - 1]) then TrimSpaceRight(s[..|s| - 1]) else s
  }

  function TrimSpace(s: string): string { TrimSpaceLeft(TrimSpaceRight(s)) }
}
