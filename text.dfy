/** Models of the ECMAScript string built-ins that the studio's logic relies on:
    `String.prototype.trim`, `split` with a one-character separator,
    `replace(/\s+/g, '-')` and `toLowerCase`. Strings are sequences of
    Unicode scalar values. */
module Text {

  /** The ECMAScript WhiteSpace and LineTerminator code points. `trim` strips
      exactly these, and the regular-expression class `\s` matches exactly
      these. */
  const WhitespaceChars: set<char> := {
    '\t', '\n', '\U{000B}', '\U{000C}', '\r', ' ', '\U{00A0}', '\U{1680}',
    '\U{2000}', '\U{2001}', '\U{2002}', '\U{2003}', '\U{2004}', '\U{2005}',
    '\U{2006}', '\U{2007}', '\U{2008}', '\U{2009}', '\U{200A}',
    '\U{2028}', '\U{2029}', '\U{202F}', '\U{205F}', '\U{3000}', '\U{FEFF}'
  }

  predicate IsWhitespace(c: char) {
    c in WhitespaceChars
  }

  /** Every character is white space (the empty string included). */
  predicate IsBlank(s: string) {
    forall i :: 0 <= i < |s| ==> IsWhitespace(s[i])
  }

  predicate NoWhitespace(s: string) {
    forall i :: 0 <= i < |s| ==> !IsWhitespace(s[i])
  }

  /** `s` without its leading white space. */
  function TrimStart(s: string): (r: string)
    ensures |r| <= |s|
  {
    if s != [] && IsWhitespace(s[0]) then TrimStart(s[1..]) else s
  }

  /** `s` without its trailing white space. */
  function TrimEnd(s: string): (r: string)
    ensures |r| <= |s|
  {
    if s != [] && IsWhitespace(s[|s| - 1]) then TrimEnd(s[..|s| - 1]) else s
  }

  /** `s.trim()`. */
  function Trim(s: string): (r: string) {
    TrimEnd(TrimStart(s))
  }

  lemma BlankConcat(a: string, b: string)
    ensures IsBlank(a + b) <==> IsBlank(a) && IsBlank(b)
  {
    if IsBlank(a) && IsBlank(b) {
      forall i | 0 <= i < |a + b| ensures IsWhitespace((a + b)[i]) {
        if i >= |a| { assert (a + b)[i] == b[i - |a|]; }
      }
    }
    if IsBlank(a + b) {
      forall i | 0 <= i < |a| ensures IsWhitespace(a[i]) {
        assert a[i] == (a + b)[i];
      }
      forall i | 0 <= i < |b| ensures IsWhitespace(b[i]) {
        assert b[i] == (a + b)[|a| + i];
      }
    }
  }

  /** TrimStart drops exactly the leading run: what it drops is blank and
      what it keeps does not start with white space. */
  lemma {:induction false} TrimStartSlice(s: string)
    ensures TrimStart(s) == s[|s| - |TrimStart(s)|..]
    ensures IsBlank(s[..|s| - |TrimStart(s)|])
    ensures TrimStart(s) == [] || !IsWhitespace(TrimStart(s)[0])
  {
    if s != [] && IsWhitespace(s[0]) {
      TrimStartSlice(s[1..]);
      var k := |s| - |TrimStart(s)|;
      assert s[..k] == [s[0]] + s[1..][..k - 1];
      BlankConcat([s[0]], s[1..][..k - 1]);
    }
  }

  /** TrimEnd drops exactly the trailing run. */
  lemma {:induction false} TrimEndSlice(s: string)
    ensures TrimEnd(s) == s[..|TrimEnd(s)|]
    ensures IsBlank(s[|TrimEnd(s)|..])
    ensures TrimEnd(s) == [] || !IsWhitespace(TrimEnd(s)[|TrimEnd(s)| - 1])
  {
    if s != [] && IsWhitespace(s[|s| - 1]) {
      var init := s[..|s| - 1];
      TrimEndSlice(init);
      var k := |TrimEnd(s)|;
      assert s[k..] == init[k..] + [s[|s| - 1]];
      BlankConcat(init[k..], [s[|s| - 1]]);
    }
  }

  /** Trimming ignores a blank prefix. */
  lemma {:induction false} TrimStartBlankPrefix(a: string, x: string)
    requires IsBlank(a)
    ensures TrimStart(a + x) == TrimStart(x)
  {
    if a == [] {
      assert a + x == x;
    } else {
      assert (a + x)[0] == a[0] && (a + x)[1..] == a[1..] + x;
      TrimStartBlankPrefix(a[1..], x);
    }
  }

  /** Trimming ignores a blank suffix. */
  lemma {:induction false} TrimEndBlankSuffix(x: string, b: string)
    requires IsBlank(b)
    ensures TrimEnd(x + b) == TrimEnd(x)
  {
    if b == [] {
      assert x + b == x;
    } else {
      var n := |x + b|;
      assert (x + b)[n - 1] == b[|b| - 1] && (x + b)[..n - 1] == x + b[..|b| - 1];
      TrimEndBlankSuffix(x, b[..|b| - 1]);
    }
  }

  /** What trimming keeps: `s` is a blank prefix, the result and a blank
      suffix, and the result neither starts nor ends with white space. */
  lemma TrimSlice(s: string)
    ensures exists i :: 0 <= i <= |s| - |Trim(s)| && s[i..i + |Trim(s)|] == Trim(s)
                        && IsBlank(s[..i]) && IsBlank(s[i + |Trim(s)|..])
    ensures Trim(s) == [] || (!IsWhitespace(Trim(s)[0]) && !IsWhitespace(Trim(s)[|Trim(s)| - 1]))
  {
    var t := TrimStart(s);
    TrimStartSlice(s);
    TrimEndSlice(t);
    var i := |s| - |t|;
    var r := Trim(s);
    assert s[i..i + |r|] == r;
    assert s[i + |r|..] == t[|r|..];
  }

  /** The trimmed string is empty exactly when the string is blank. */
  lemma TrimEmptyIffBlank(s: string)
    ensures Trim(s) == [] <==> IsBlank(s)
  {
    var t := TrimStart(s);
    TrimStartSlice(s);
    TrimEndSlice(t);
    var k := |s| - |t|;
    assert s == s[..k] + t;
    BlankConcat(s[..k], t);
    if Trim(s) == [] {
      assert t == Trim(s) + t[0..];
    }
  }

  /** Trim is determined by its contract: whatever blank prefix and suffix
      surround a string without outer white space, trimming recovers it. */
  lemma TrimUnique(a: string, m: string, b: string)
    requires IsBlank(a) && IsBlank(b)
    requires m == [] || (!IsWhitespace(m[0]) && !IsWhitespace(m[|m| - 1]))
    ensures Trim(a + m + b) == m
  {
    assert a + m + b == a + (m + b);
    TrimStartBlankPrefix(a, m + b);
    if m == [] {
      assert m + b == b;
      TrimEmptyIffBlank(b);
    } else {
      assert (m + b)[0] == m[0];
      assert TrimStart(m + b) == m + b;
      TrimEndBlankSuffix(m, b);
    }
  }

  /** Trimming twice is trimming once. */
  lemma TrimIdempotent(s: string)
    ensures Trim(Trim(s)) == Trim(s)
  {
    var r := Trim(s);
    TrimSlice(s);
    assert [] + r + [] == r;
    TrimUnique([], r, []);
  }

  /** Index of the first occurrence of `c`. */
  function FirstIndexOf(s: string, c: char): (i: nat)
    requires c in s
    ensures i < |s| && s[i] == c && c !in s[..i]
  {
    if s[0] == c then 0 else 1 + FirstIndexOf(s[1..], c)
  }

  /** `s.split(sep)` for a one-character separator: the pieces between
      successive separators, so an empty string gives one empty piece and a
      trailing separator gives a trailing empty piece. */
  function Split(s: string, sep: char): (parts: seq<string>)
    ensures |parts| >= 1
    ensures forall k :: 0 <= k < |parts| ==> sep !in parts[k]
    decreases |s|
  {
    if sep !in s then [s]
    else
      var i := FirstIndexOf(s, sep);
      [s[..i]] + Split(s[i + 1..], sep)
  }

  /** `parts.join(sep)`, the inverse of Split. */
  function Join(parts: seq<string>, sep: char): (s: string)
    requires |parts| >= 1
  {
    if |parts| == 1 then parts[0] else parts[0] + [sep] + Join(parts[1..], sep)
  }

  lemma JoinCons(first: string, pieces: seq<string>, sep: char)
    requires |pieces| >= 1
    ensures Join([first] + pieces, sep) == first + [sep] + Join(pieces, sep)
  {
    assert ([first] + pieces)[1..] == pieces;
  }

  /** Splitting loses nothing: joining the pieces gives the string back. */
  lemma {:induction false} JoinSplit(s: string, sep: char)
    ensures Join(Split(s, sep), sep) == s
    decreases |s|
  {
    if sep in s {
      var i := FirstIndexOf(s, sep);
      var first, rest := s[..i], s[i + 1..];
      var pieces := Split(rest, sep);
      assert Split(s, sep) == [first] + pieces;
      JoinCons(first, pieces, sep);
      JoinSplit(rest, sep);
      assert Join(Split(s, sep), sep) == first + [sep] + rest;
      assert s == first + [sep] + rest;
    } else {
      assert Split(s, sep) == [s];
    }
  }

  /** A string that starts with a separator-free piece and a separator
      splits into that piece followed by the split of the rest. */
  lemma SplitAfterFirst(p: string, sep: char, t: string)
    requires sep !in p
    ensures Split(p + [sep] + t, sep) == [p] + Split(t, sep)
  {
    var s := p + [sep] + t;
    assert s[|p|] == sep;
    var i := FirstIndexOf(s, sep);
    assert s[..|p|] == p;
    assert i == |p|;
    assert s[..i] == p && s[i + 1..] == t;
  }

  /** Pieces free of the separator are recovered by splitting their join. */
  lemma {:induction false} SplitJoin(parts: seq<string>, sep: char)
    requires |parts| >= 1
    requires forall k :: 0 <= k < |parts| ==> sep !in parts[k]
    ensures Split(Join(parts, sep), sep) == parts
  {
    if |parts| > 1 {
      SplitAfterFirst(parts[0], sep, Join(parts[1..], sep));
      SplitJoin(parts[1..], sep);
      assert parts == [parts[0]] + parts[1..];
    }
  }

  predicate AllBlank(pieces: seq<string>) {
    forall k :: 0 <= k < |pieces| ==> IsBlank(pieces[k])
  }

  lemma AllBlankCons(x: string, pieces: seq<string>)
    ensures AllBlank([x] + pieces) <==> IsBlank(x) && AllBlank(pieces)
  {
    var ps := [x] + pieces;
    assert ps[0] == x;
    assert forall k :: 0 <= k < |pieces| ==> ps[k + 1] == pieces[k];
    if IsBlank(x) && AllBlank(pieces) {
      forall k | 0 <= k < |ps| ensures IsBlank(ps[k]) {
        if k > 0 { assert ps[k] == pieces[k - 1]; }
      }
    }
  }

  /** Around one white-space character, a string is blank exactly when the
      parts before and after it are. */
  lemma BlankAroundSeparator(first: string, sep: char, rest: string)
    requires IsWhitespace(sep)
    ensures IsBlank(first + [sep] + rest) <==> IsBlank(first) && IsBlank(rest)
  {
    assert first + [sep] + rest == first + ([sep] + rest);
    BlankConcat(first, [sep] + rest);
    BlankConcat([sep], rest);
  }

  /** With a white-space separator, a string is blank exactly when every
      piece of its split is. */
  lemma {:induction false} BlankIffPiecesBlank(s: string, sep: char)
    requires IsWhitespace(sep)
    ensures IsBlank(s) <==> AllBlank(Split(s, sep))
    decreases |s|
  {
    if sep in s {
      var i := FirstIndexOf(s, sep);
      var first, rest := s[..i], s[i + 1..];
      var pieces := Split(rest, sep);
      assert Split(s, sep) == [first] + pieces;
      assert s == first + [sep] + rest;
      BlankAroundSeparator(first, sep, rest);
      BlankIffPiecesBlank(rest, sep);
      AllBlankCons(first, pieces);
    } else {
      assert Split(s, sep) == [s] + [];
      AllBlankCons(s, []);
    }
  }

  /** The first piece of a split (`s.split(sep)[0]`) is the longest prefix
      without the separator. */
  lemma FirstPiece(s: string, sep: char)
    ensures Split(s, sep)[0] <= s
    ensures sep !in Split(s, sep)[0]
    ensures |Split(s, sep)[0]| == |s| || s[|Split(s, sep)[0]|] == sep
  {
  }

  /** `s.replace(/\s+/g, '-')`: every maximal run of white space becomes one
      dash. Read left to right, a white-space character followed by more white
      space is dropped and the last one of its run becomes the dash. */
  function DashWhitespaceRuns(s: string): (r: string)
    ensures |r| <= |s|
    ensures NoWhitespace(r)
  {
    if s == [] then []
    else if !IsWhitespace(s[0]) then [s[0]] + DashWhitespaceRuns(s[1..])
    else if |s| > 1 && IsWhitespace(s[1]) then DashWhitespaceRuns(s[1..])
    else ['-'] + DashWhitespaceRuns(s[1..])
  }

  /** A string without white space is left as it is. */
  lemma {:induction false} DashRunsIdentity(s: string)
    requires NoWhitespace(s)
    ensures DashWhitespaceRuns(s) == s
  {
    if s != [] {
      DashRunsIdentity(s[1..]);
    }
  }

  /** A whole non-empty run becomes exactly one dash. */
  lemma {:induction false} DashRunsOfRun(s: string)
    requires s != [] && IsBlank(s)
    ensures DashWhitespaceRuns(s) == "-"
  {
    if |s| > 1 {
      DashRunsOfRun(s[1..]);
    }
  }

  /** Replacing runs distributes over a concatenation that does not cut a
      run in two: together with the two lemmas above this pins the replacement
      down to "each maximal run becomes one dash". */
  lemma {:induction false} DashRunsConcat(a: string, b: string)
    requires a == [] || b == [] || !IsWhitespace(a[|a| - 1]) || !IsWhitespace(b[0])
    ensures DashWhitespaceRuns(a + b) == DashWhitespaceRuns(a) + DashWhitespaceRuns(b)
  {
    if a != [] {
      var s := a + b;
      assert s[0] == a[0] && s[1..] == a[1..] + b;
      assert |a| > 1 ==> s[1] == a[1];
      assert |a| == 1 && b != [] ==> s[1] == b[0];
      DashRunsConcat(a[1..], b);
      var x, y := DashWhitespaceRuns(a[1..]), DashWhitespaceRuns(b);
      assert [a[0]] + (x + y) == ([a[0]] + x) + y;
      assert ['-'] + (x + y) == (['-'] + x) + y;
    } else {
      assert a + b == b;
    }
  }

  predicate IsUpper(c: char) {
    ('A' <= c <= 'Z') || ('\U{00C0}' <= c <= '\U{00DE}' && c != '\U{00D7}')
  }

  /** `toLowerCase` on one character, for the Basic Latin and Latin-1
      letters: each upper-case letter maps to the one 0x20 above it. */
  function LowerChar(c: char): (d: char)
    ensures IsWhitespace(d) <==> IsWhitespace(c)
    ensures !IsUpper(d)
    ensures d != c ==> IsUpper(c)
  {
    if IsUpper(c) then (c as int + 0x20) as char else c
  }

  function Lower(s: string): (r: string)
  {
    seq(|s|, i requires 0 <= i < |s| => LowerChar(s[i]))
  }

  /** Lower-casing keeps the length, keeps white space where it was, and is
      idempotent. */
  lemma LowerProperties(s: string)
    ensures |Lower(s)| == |s|
    ensures NoWhitespace(s) ==> NoWhitespace(Lower(s))
    ensures Lower(Lower(s)) == Lower(s)
  {
  }
}
