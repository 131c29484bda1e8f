/**
 The file names of exported scores: exportScorePath in internal/app/export.go. They are
 portable, and no two scores of an export share one.
 */
module ExportPaths {
  import opened Wrappers

  const MAX_NAME_BYTES := 120

  // unicode.IsControl.
  predicate IsControl(c: char) { c < ' ' || '\U{7F}' <= c <= '\U{9F}' }

  predicate IsUnsafe(c: char) { c in {'/', '\\', '<', '>', ':', '"', '|', '?', '*'} }

  // The length of a character in UTF-8.
  function Utf8(c: char): (n: nat)
    ensures 1 <= n <= 4
  {
    if c < '\U{80}' then 1 else if c < '\U{800}' then 2 else if c < '\U{10000}' then 3 else 4
  }

  function Utf8Length(s: string): nat {
    if s == "" then 0 else Utf8Length(s[..|s| - 1]) + Utf8(s[|s| - 1])
  }

  // isFormat is Unicode's category Cf.
  predicate IsPortable(name: string, isFormat: char -> bool) {
    forall i :: 0 <= i < |name| ==> !IsControl(name[i]) && !isFormat(name[i]) && !IsUnsafe(name[i])
  }

  predicate IsTrimmed(c: char) { c == ' ' || c == '.' }

  function TrimLeft(s: string): string { if s != "" && IsTrimmed(s[0]) then TrimLeft(s[1..]) else s }

  function TrimRight(s: string): string { if s != "" && IsTrimmed(s[|s| - 1]) then TrimRight(s[..|s| - 1]) else s }

  function Itoa(n: nat): (s: string)
    ensures s != "" && forall i :: 0 <= i < |s| ==> '0' <= s[i] <= '9'
  {
    var digit := ('0' as int + n % 10) as char;
    if n < 10 then [digit] else Itoa(n / 10) + [digit]
  }

  function ScorePath(base: string, short: string, ordinal: nat): string {
    "scores/score-" + base + "-" + short + "-" + Itoa(ordinal) + ".pdf"
  }

  // What is kept of a title: its first characters, made safe, that fit in 120 bytes.
  function NameFrom(title: string, i: nat, name: string, isFormat: char -> bool): string
    requires i <= |title|
    decreases |title| - i
  {
    if i == |title| then name
    else if IsControl(title[i]) || isFormat(title[i]) then NameFrom(title, i + 1, name, isFormat)
    else
      var c := if IsUnsafe(title[i]) then '-' else title[i];
      if Utf8Length(name) + Utf8(c) > MAX_NAME_BYTES then name else NameFrom(title, i + 1, name + [c], isFormat)
  }

  function BaseName(title: string, isFormat: char -> bool): string {
    var base := TrimLeft(TrimRight(NameFrom(title, 0, "", isFormat)));
    if base == "" then "score" else base
  }

  // short is the start of the piece's identifier, None when it is no UUID.
  function PathOf(title: string, short: Option<string>, ordinal: nat, isFormat: char -> bool): Option<string> {
    if short.None? then None else Some(ScorePath(BaseName(title, isFormat), short.value, ordinal))
  }

  method ExportScorePath(title: string, short: Option<string>, ordinal: nat, isFormat: char -> bool)
    returns (path: Option<string>)
    ensures path == PathOf(title, short, ordinal, isFormat)
  {
    if short.None? {
      return None;
    }
    var name := "";
    var i := 0;
    while i < |title|
      invariant i <= |title| && NameFrom(title, i, name, isFormat) == NameFrom(title, 0, "", isFormat)
    {
      var c := title[i];
      if IsControl(c) || isFormat(c) {
        i := i + 1;
        continue;
      }
      if IsUnsafe(c) {
        c := '-';
      }
      if Utf8Length(name) + Utf8(c) > MAX_NAME_BYTES {
        break;
      }
      name := name + [c];
      i := i + 1;
    }
    var base := TrimLeft(TrimRight(name));
    if base == "" {
      base := "score";
    }
    return Some(ScorePath(base, short.value, ordinal));
  }

  // ---------------------------------------------------------------------------
  // Portable
  // ---------------------------------------------------------------------------

  lemma {:induction false} NameIsPortable(title: string, i: nat, name: string, isFormat: char -> bool)
    requires i <= |title| && IsPortable(name, isFormat) && Utf8Length(name) <= MAX_NAME_BYTES && !isFormat('-')
    ensures IsPortable(NameFrom(title, i, name, isFormat), isFormat)
    ensures Utf8Length(NameFrom(title, i, name, isFormat)) <= MAX_NAME_BYTES
    decreases |title| - i
  {
    if i < |title| {
      if IsControl(title[i]) || isFormat(title[i]) {
        NameIsPortable(title, i + 1, name, isFormat);
      } else {
        var c := if IsUnsafe(title[i]) then '-' else title[i];
        if Utf8Length(name) + Utf8(c) <= MAX_NAME_BYTES {
          assert (name + [c])[..|name|] == name;
          NameIsPortable(title, i + 1, name + [c], isFormat);
        }
      }
    }
  }

  lemma {:induction false} TrimLeftIsPart(s: string)
    ensures Utf8Length(TrimLeft(s)) <= Utf8Length(s) && (forall c :: c in TrimLeft(s) ==> c in s)
    ensures TrimLeft(s) != "" ==> !IsTrimmed(TrimLeft(s)[0]) && TrimLeft(s)[|TrimLeft(s)| - 1] == s[|s| - 1]
    decreases |s|
  {
    if s != "" && IsTrimmed(s[0]) {
      TrimLeftIsPart(s[1..]);
      DropFirst(s);
    }
  }

  lemma {:induction false} DropFirst(s: string)
    requires s != ""
    ensures Utf8Length(s) == Utf8(s[0]) + Utf8Length(s[1..])
    decreases |s|
  {
    if |s| > 1 {
      var init := s[..|s| - 1];
      DropFirst(init);
      assert s[1..][..|s| - 2] == init[1..];
    }
  }

  lemma {:induction false} TrimRightIsPart(s: string)
    ensures Utf8Length(TrimRight(s)) <= Utf8Length(s) && (forall c :: c in TrimRight(s) ==> c in s)
    ensures TrimRight(s) != "" ==> !IsTrimmed(TrimRight(s)[|TrimRight(s)| - 1])
    decreases |s|
  {
    if s != "" && IsTrimmed(s[|s| - 1]) {
      TrimRightIsPart(s[..|s| - 1]);
    }
  }

  // Whatever the title, the name is not empty, at most 120 bytes, free of control, format and
  // reserved characters, and neither starts nor ends with a space or a full stop.
  lemma BaseIsPortable(title: string, isFormat: char -> bool)
    requires !isFormat('-') && forall i :: 0 <= i < 5 ==> !isFormat("score"[i])
    ensures var base := BaseName(title, isFormat);
            && base != "" && Utf8Length(base) <= MAX_NAME_BYTES && IsPortable(base, isFormat)
            && !IsTrimmed(base[0]) && !IsTrimmed(base[|base| - 1])
  {
    var name := NameFrom(title, 0, "", isFormat);
    NameIsPortable(title, 0, "", isFormat);
    TrimRightIsPart(name);
    TrimLeftIsPart(TrimRight(name));
    var base := TrimLeft(TrimRight(name));
    if base == "" {
      ScoreLength();
    } else {
      forall i | 0 <= i < |base|
        ensures base[i] in name
      {
        assert base[i] in base;
      }
    }
  }

  lemma ScoreLength()
    ensures Utf8Length("score") <= 5 * 4
  {
    UpToFourBytes("score");
  }

  lemma {:induction false} UpToFourBytes(s: string)
    ensures Utf8Length(s) <= 4 * |s|
    decreases |s|
  {
    if s != "" {
      UpToFourBytes(s[..|s| - 1]);
    }
  }

  // ---------------------------------------------------------------------------
  // Distinct
  // ---------------------------------------------------------------------------

  lemma {:induction false} ItoaIsInjective(m: nat, n: nat)
    requires Itoa(m) == Itoa(n)
    ensures m == n
    decreases m
  {
    var s, t := Itoa(m), Itoa(n);
    assert s[|s| - 1] == t[|t| - 1];
    if m >= 10 && n >= 10 {
      assert s[..|s| - 1] == Itoa(m / 10) && t[..|t| - 1] == Itoa(n / 10);
      ItoaIsInjective(m / 10, n / 10);
    }
  }

  // Where the last hyphen stands, -1 if there is none.
  function LastHyphen(s: string): (i: int)
    ensures -1 <= i < |s|
  {
    if s == "" then -1 else if s[|s| - 1] == '-' then |s| - 1 else LastHyphen(s[..|s| - 1])
  }

  lemma {:induction false} HyphenBeforeDigits(p: string, d: string)
    requires forall i :: 0 <= i < |d| ==> '0' <= d[i] <= '9'
    ensures LastHyphen(p + "-" + d) == |p|
    decreases |d|
  {
    var s := p + "-" + d;
    if d == "" {
      assert s[|s| - 1] == '-';
    } else {
      assert s[|s| - 1] == d[|d| - 1] && s[..|s| - 1] == p + "-" + d[..|d| - 1];
      HyphenBeforeDigits(p, d[..|d| - 1]);
    }
  }

  lemma DigitsAlign(p: string, d: string, q: string, e: string)
    requires p + "-" + d == q + "-" + e
    requires forall i :: 0 <= i < |d| ==> '0' <= d[i] <= '9'
    requires forall i :: 0 <= i < |e| ==> '0' <= e[i] <= '9'
    ensures d == e
  {
    HyphenBeforeDigits(p, d);
    HyphenBeforeDigits(q, e);
    assert d == (p + "-" + d)[|p| + 1..] && e == (q + "-" + e)[|q| + 1..];
  }

  // Two scores of one export never share a path, and none is a metadata file's.
  lemma PathsAreDistinct(base: string, short: string, n: nat, base2: string, short2: string, m: nat)
    requires n != m
    ensures ScorePath(base, short, n) != ScorePath(base2, short2, m)
    ensures ScorePath(base, short, n) != "library.json" && ScorePath(base, short, n) != "pieces.csv"
  {
    var p, q := "scores/score-" + base + "-" + short, "scores/score-" + base2 + "-" + short2;
    var a, b := ScorePath(base, short, n), ScorePath(base2, short2, m);
    assert a[0] == 's';
    if a == b {
      assert a == p + "-" + Itoa(n) + ".pdf" && b == q + "-" + Itoa(m) + ".pdf";
      assert p + "-" + Itoa(n) == a[..|a| - 4] == b[..|b| - 4] == q + "-" + Itoa(m);
      DigitsAlign(p, Itoa(n), q, Itoa(m));
      ItoaIsInjective(n, m);
    }
  }
}
