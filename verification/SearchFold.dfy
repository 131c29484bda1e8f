/**
 The library's search form of a text: foldSearch in internal/app/search.go and fold in
 web/src/app/core/search.ts.

 A text is what is left after number signs, compatibility decomposition, lower case and the
 leftover letters have been replaced (normalizedSearch): characters with their Unicode
 class. That normalisation itself is not part of the model.
 */
module SearchFolds {
  import opened SearchStrings

  datatype Kind = Letter | Number | Mark | Other

  datatype Character = Character(c: char, kind: Kind)

  // No letter, number or mark is white space in either program.
  type Glyph = g: Character | !g.kind.Other? ==> !IsSpace(g.c) && !IsBrowserSpace(g.c) witness Character('a', Letter)

  type Text = seq<Glyph>

  predicate IsBase(g: Glyph) { g.kind.Letter? || g.kind.Number? }

  // Letters, numbers and marks make up the words of a text.
  predicate InSpan(g: Glyph) { !g.kind.Other? }

  // ---------------------------------------------------------------------------
  // Folding
  // ---------------------------------------------------------------------------

  // A word put after what is folded already, with a space if there is a gap between them.
  function Put(folded: string, gap: bool, w: string): string {
    if w == "" then folded else folded + (if gap && folded != "" then " " else "") + w
  }

  // The API's fold of text[i..] onto what is folded already; gap says that other
  // characters came since.
  function FoldRun(text: Text, i: nat, folded: string, gap: bool): string
    requires i <= |text|
    decreases |text| - i
  {
    if i == |text| then folded
    else
      var g := text[i];
      if g.kind.Mark? then FoldRun(text, i + 1, folded, gap)
      else if IsBase(g) then FoldRun(text, i + 1, Put(folded, gap, [g.c]), false)
      else FoldRun(text, i + 1, folded, true)
  }

  function Fold(text: Text): string { FoldRun(text, 0, "", false) }

  method FoldSearch(text: Text) returns (folded: string)
    ensures folded == Fold(text)
  {
    folded := "";
    var gap := false;
    for i := 0 to |text|
      invariant Fold(text) == FoldRun(text, i, folded, gap)
    {
      var g := text[i];
      match g.kind {
        case Mark =>
        case Letter | Number =>
          ghost var before := folded;
          if gap && |folded| > 0 {
            folded := folded + " ";
          }
          assert folded + [g.c] == Put(before, gap, [g.c]);
          gap := false;
          folded := folded + [g.c];
        case Other =>
          gap := true;
      }
    }
  }

  // The browser's fold: strip the marks, make every run of others one space, trim.
  function NoMarks(text: Text, i: nat): Text
    requires i <= |text|
    decreases |text| - i
  {
    if i == |text| then []
    else (if text[i].kind.Mark? then [] else [text[i]]) + NoMarks(text, i + 1)
  }

  function Spaced(text: Text, inRun: bool): string {
    if text == [] then ""
    else if IsBase(text[0]) then [text[0].c] + Spaced(text[1..], false)
    else (if inRun then "" else " ") + Spaced(text[1..], true)
  }

  function BrowserFold(text: Text): string { Trim(Spaced(NoMarks(text, 0), false)) }

  predicate Tidy(s: string) { s == "" || (s[0] != ' ' && s[|s| - 1] != ' ') }

  lemma {:induction false} TrimsTo(lead: string, s: string, trail: string)
    requires Tidy(s) && s != "" && lead in {"", " "} && trail in {"", " "}
    ensures Trim(lead + s + trail) == s
  {
    assert TrimRight(lead + s) == lead + s by {
      assert (lead + s)[|lead + s| - 1] == s[|s| - 1];
    }
    if trail == " " {
      assert (lead + s + trail)[..|lead + s + trail| - 1] == lead + s;
    } else {
      assert lead + s + trail == lead + s;
    }
    assert TrimLeft(s) == s;
    if lead == " " {
      assert (lead + s)[1..] == s;
    } else {
      assert lead + s == s;
    }
  }

  // What the browser has written when lead, the fold so far and the gap are behind it.
  function Written(lead: string, folded: string, gap: bool): string { lead + folded + if gap then " " else "" }

  lemma WrittenTrims(lead: string, folded: string, gap: bool)
    requires Tidy(folded) && lead in {"", " "} && (folded == "" ==> lead == "")
    ensures Trim(Written(lead, folded, gap)) == folded
  {
    if folded != "" {
      TrimsTo(lead, folded, if gap then " " else "");
    } else if gap {
      assert Written(lead, folded, gap) == " ";
      assert TrimRight(" ") == TrimRight(" "[..0]) == "";
    } else {
      assert Written(lead, folded, gap) == "";
    }
  }

  // Writing a base character keeps the two in step.
  lemma WrittenBase(lead: string, folded: string, gap: bool, c: char, rest: string)
    requires Tidy(folded) && lead in {"", " "} && (folded == "" ==> lead == "") && c != ' '
    ensures var next := Put(folded, gap, [c]);
            var lead' := if folded == "" && gap then " " else lead;
            && Tidy(next) && next != "" && lead' in {"", " "}
            && Written(lead, folded, gap) + ([c] + rest) == Written(lead', next, false) + rest
  {
  }

  // Writing another character opens a gap once.
  lemma WrittenOther(lead: string, folded: string, gap: bool, rest: string)
    ensures Written(lead, folded, gap) + ((if gap then "" else " ") + rest) == Written(lead, folded, true) + rest
  {
  }

  lemma {:induction false} SpacedFirst(g: Glyph, rest: Text, inRun: bool)
    ensures Spaced([g] + rest, inRun)
            == if IsBase(g) then [g.c] + Spaced(rest, false) else (if inRun then "" else " ") + Spaced(rest, true)
  {
  }

  // The two folds in step.
  lemma {:induction false} FoldsInStep(text: Text, i: nat, lead: string, folded: string, gap: bool)
    requires i <= |text| && Tidy(folded) && lead in {"", " "} && (folded == "" ==> lead == "")
    ensures Trim(Written(lead, folded, gap) + Spaced(NoMarks(text, i), gap)) == FoldRun(text, i, folded, gap)
    decreases |text| - i
  {
    var written := Written(lead, folded, gap);
    if i == |text| {
      WrittenTrims(lead, folded, gap);
      assert written + "" == written;
    } else {
      var g, rest := text[i], NoMarks(text, i + 1);
      if g.kind.Mark? {
        assert [] + rest == rest;
        FoldsInStep(text, i + 1, lead, folded, gap);
      } else {
        SpacedFirst(g, rest, gap);
        if IsBase(g) {
          WrittenBase(lead, folded, gap, g.c, Spaced(rest, false));
          FoldsInStep(text, i + 1, if folded == "" && gap then " " else lead, Put(folded, gap, [g.c]), false);
        } else {
          FoldsInStep(text, i + 1, lead, folded, true);
          WrittenOther(lead, folded, gap, Spaced(rest, true));
        }
      }
    }
  }

  // The API and the browser fold every text to the same string.
  lemma FoldsAgree(text: Text)
    ensures BrowserFold(text) == Fold(text)
  {
    FoldsInStep(text, 0, "", "", false);
    assert Written("", "", false) + Spaced(NoMarks(text, 0), false) == Spaced(NoMarks(text, 0), false);
  }

  // ---------------------------------------------------------------------------
  // The words of a fold
  // ---------------------------------------------------------------------------

  function SpanEnd(text: Text, i: nat): (j: nat)
    requires i <= |text|
    ensures i <= j <= |text| && (forall k :: i <= k < j ==> InSpan(text[k])) && (j < |text| ==> !InSpan(text[j]))
    decreases |text| - i
  {
    if i < |text| && InSpan(text[i]) then SpanEnd(text, i + 1) else i
  }

  // The base characters of text[i..j].
  function Strip(text: Text, i: nat, j: nat): string
    requires i <= j <= |text|
    decreases j - i
  {
    if i == j then "" else (if IsBase(text[i]) then [text[i].c] else "") + Strip(text, i + 1, j)
  }

  // The spans of text[i..] without their marks; a span of marks alone leaves "".
  function SpanTexts(text: Text, i: nat): seq<string>
    requires i <= |text|
    decreases |text| - i
  {
    if i == |text| then []
    else if !InSpan(text[i]) then SpanTexts(text, i + 1)
    else [Strip(text, i, SpanEnd(text, i))] + SpanTexts(text, SpanEnd(text, i))
  }

  lemma {:induction false} StripIsUnbroken(text: Text, i: nat, j: nat)
    requires i <= j <= |text|
    ensures Unbroken(Strip(text, i, j))
    decreases j - i
  {
    if i < j {
      StripIsUnbroken(text, i + 1, j);
    }
  }

  lemma PutMore(folded: string, gap: bool, c: char, w: string)
    ensures Put(Put(folded, gap, [c]), false, w) == Put(folded, gap, [c] + w)
  {
  }

  // Folding a span appends its base characters.
  lemma {:induction false} FoldSpan(text: Text, i: nat, j: nat, folded: string, gap: bool)
    requires i <= j <= |text| && forall k :: i <= k < j ==> InSpan(text[k])
    ensures var w := Strip(text, i, j);
            FoldRun(text, i, folded, gap) == FoldRun(text, j, Put(folded, gap, w), gap && w == "")
    decreases j - i
  {
    if i < j {
      var w := Strip(text, i + 1, j);
      if IsBase(text[i]) {
        FoldSpan(text, i + 1, j, Put(folded, gap, [text[i].c]), false);
        PutMore(folded, gap, text[i].c, w);
      } else {
        FoldSpan(text, i + 1, j, folded, gap);
        assert "" + w == w;
      }
    }
  }

  function Glued(folded: string, words: seq<string>): string
    decreases |words|
  {
    if words == [] then folded else Glued(Put(folded, true, words[0]), words[1..])
  }

  lemma {:induction false} FoldGlues(text: Text, i: nat, folded: string, gap: bool)
    requires i <= |text| && (gap || folded == "")
    ensures FoldRun(text, i, folded, gap) == Glued(folded, NonEmpty(SpanTexts(text, i)))
    decreases |text| - i
  {
    hide IsSpace, IsBrowserSpace, Strip, Put;
    if i < |text| {
      if !InSpan(text[i]) {
        FoldGlues(text, i + 1, folded, true);
      } else {
        var j := SpanEnd(text, i);
        var w := Strip(text, i, j);
        FoldSpan(text, i, j, folded, gap);
        FirstNeedsNoGap(folded, gap, w);
        GluedFirst(folded, w, SpanTexts(text, j));
        if j < |text| {
          FoldGlues(text, j + 1, Put(folded, true, w), true);
        }
      }
    }
  }

  lemma FirstNeedsNoGap(folded: string, gap: bool, w: string)
    requires gap || folded == ""
    ensures Put(folded, gap, w) == Put(folded, true, w) && (w == "" ==> Put(folded, gap, w) == folded)
  {
  }

  lemma {:induction false} GluedFirst(folded: string, w: string, rest: seq<string>)
    ensures Glued(folded, NonEmpty([w] + rest)) == Glued(Put(folded, true, w), NonEmpty(rest))
  {
  }

  lemma {:induction false} GluedIsJoined(folded: string, words: seq<string>)
    requires folded != "" && "" !in words
    ensures Glued(folded, words) == Join([folded] + words)
    decreases |words|
  {
    assert ([folded] + words)[1..] == words;
    if words != [] {
      var next := Put(folded, true, words[0]);
      GluedIsJoined(next, words[1..]);
      assert ([next] + words[1..])[1..] == words[1..];
      if |words| > 1 {
        assert next + " " + Join(words[1..]) == folded + " " + (words[0] + " " + Join(words[1..]));
      }
    }
  }

  // The fold of a text is the words of its spans, one space between them.
  lemma {:induction false} FoldIsJoined(text: Text)
    ensures Fold(text) == Join(NonEmpty(SpanTexts(text, 0)))
  {
    FoldGlues(text, 0, "", false);
    var words := NonEmpty(SpanTexts(text, 0));
    if words != [] {
      NonEmptyHas(SpanTexts(text, 0), words[0]);
      NonEmptyHas(SpanTexts(text, 0), "");
      GluedIsJoined(words[0], words[1..]);
      assert Put("", true, words[0]) == words[0];
      assert [words[0]] + words[1..] == words;
    }
  }

  // A word of the text is found in its fold.
  lemma {:induction false} WordInFold(text: Text, w: string)
    requires w in SpanTexts(text, 0)
    ensures Contains(Fold(text), w)
  {
    FoldIsJoined(text);
    NonEmptyHas(SpanTexts(text, 0), w);
    if w == "" {
      assert OccursAt(Fold(text), w, 0);
    } else {
      JoinContains(NonEmpty(SpanTexts(text, 0)), w);
    }
  }
}
