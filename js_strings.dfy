/**
 * The JavaScript string built-ins the core relies on: `trim`, `split` on a
 * one-character separator, `startsWith` and the regular-expression class `\s`.
 */
module JsStrings {
  import opened Common

  /** The characters ECMAScript calls WhiteSpace or LineTerminator: what `trim` removes and `\s` matches. */
  predicate IsWhitespace(c: char) {
    || c == '\t' || c == '\n' || c == '\U{B}' || c == '\U{C}' || c == '\r' || c == ' '
    || c == '\U{A0}' || c == '\U{1680}' || ('\U{2000}' <= c <= '\U{200A}')
    || c == '\U{2028}' || c == '\U{2029}' || c == '\U{202F}' || c == '\U{205F}'
    || c == '\U{3000}' || c == '\U{FEFF}'
  }

  predicate AllWhitespace(s: string) {
    forall i :: 0 <= i < |s| ==> IsWhitespace(s[i])
  }

  /** `s.startsWith(prefix)`. */
  predicate StartsWith(s: string, prefix: string) {
    prefix <= s
  }

  /** A string that differs from `prefix` at `i`, or ends before it, does not start with `prefix`. */
  lemma {:induction false} NotPrefixAt(s: string, prefix: string, i: int)
    requires 0 <= i < |prefix| && (i >= |s| || s[i] != prefix[i])
    ensures !StartsWith(s, prefix)
  {
  }

  /** Removes the leading whitespace: the result is a suffix of `s` and only whitespace was dropped. */
  function TrimStart(s: string): (r: string)
    ensures |r| <= |s| && r == s[|s| - |r|..]
    ensures AllWhitespace(s[..|s| - |r|])
    ensures r == [] || !IsWhitespace(r[0])
  {
    if s != [] && IsWhitespace(s[0]) then
      var r := TrimStart(s[1..]);
      assert s[..|s| - |r|] == [s[0]] + s[1..][..|s| - 1 - |r|];
      r
    else
      s
  }

  /** Removes the trailing whitespace: the result is a prefix of `s` and only whitespace was dropped. */
  function TrimEnd(s: string): (r: string)
    ensures |r| <= |s| && r == s[..|r|]
    ensures AllWhitespace(s[|r|..])
    ensures r == [] || !IsWhitespace(r[|r| - 1])
  {
    if s != [] && IsWhitespace(s[|s| - 1]) then
      var r := TrimEnd(s[..|s| - 1]);
      assert s[|r|..] == s[..|s| - 1][|r|..] + [s[|s| - 1]];
      r
    else
      s
  }

  /** `s.trim()`: empty exactly when `s` is all whitespace; otherwise it starts and ends with a non-space. */
  function Trim(s: string): (r: string)
    ensures |r| <= |s|
    ensures r == [] <==> AllWhitespace(s)
    ensures r != [] ==> !IsWhitespace(r[0]) && !IsWhitespace(r[|r| - 1])
    ensures exists i, j :: 0 <= i <= j <= |s| && r == s[i..j] && AllWhitespace(s[..i]) && AllWhitespace(s[j..])
  {
    var t := TrimStart(s);
    var r := TrimEnd(t);
    TrimEmptyIff(s, t, r);
    TrimMiddle(s, t, r);
    r
  }

  /** Trimming both ends keeps a middle part of `s`, with only whitespace on either side. */
  lemma {:induction false} TrimMiddle(s: string, t: string, r: string)
    requires |t| <= |s| && t == s[|s| - |t|..] && AllWhitespace(s[..|s| - |t|])
    requires |r| <= |t| && r == t[..|r|] && AllWhitespace(t[|r|..])
    ensures exists i, j :: 0 <= i <= j <= |s| && r == s[i..j] && AllWhitespace(s[..i]) && AllWhitespace(s[j..])
  {
    var i := |s| - |t|;
    var j := i + |r|;
    assert r == s[i..j];
    assert s[j..] == t[|r|..];
  }

  lemma {:induction false} TrimEmptyIff(s: string, t: string, r: string)
    requires |t| <= |s| && t == s[|s| - |t|..] && AllWhitespace(s[..|s| - |t|])
    requires t == [] || !IsWhitespace(t[0])
    requires |r| <= |t| && r == t[..|r|] && AllWhitespace(t[|r|..])
    ensures r == [] <==> AllWhitespace(s)
  {
    assert s == s[..|s| - |t|] + t;
    if r == [] {
      assert t[|r|..] == t;
      assert t == [];
      assert s[..|s| - |t|] == s;
    } else {
      assert s[|s| - |t|] == r[0];
    }
  }

  /** `s.split(sep)` for a one-character separator (no limit argument). */
  function Split(s: string, sep: char): (parts: seq<string>)
    ensures |parts| >= 1
    ensures forall p :: p in parts ==> sep !in p
    decreases |s|
  {
    var k := IndexOf(s, sep);
    if k < 0 then [s]
    else
      var rest := Split(s[k + 1..], sep);
      assert forall p :: p in [s[..k]] + rest ==> p == s[..k] || p in rest;
      [s[..k]] + rest
  }

  /** `parts.join(sep)`: the inverse of `Split`. */
  function Join(parts: seq<string>, sep: char): string
    requires |parts| >= 1
  {
    if |parts| == 1 then parts[0] else parts[0] + [sep] + Join(parts[1..], sep)
  }

  /** Number of occurrences of `c` in `s`. */
  function Count(s: string, c: char): nat {
    if s == [] then 0 else (if s[0] == c then 1 else 0) + Count(s[1..], c)
  }

  /** `t` occurs in `s` at `i` and is bounded on both sides by `sep` or by an end of `s`. */
  predicate FieldAt(s: string, t: string, i: int, sep: char) {
    && 0 <= i && i + |t| <= |s| && s[i..i + |t|] == t
    && (i == 0 || s[i - 1] == sep)
    && (i + |t| == |s| || s[i + |t|] == sep)
  }

  /** Splitting loses nothing: joining the fields with the separator gives back the string. */
  lemma {:induction false} JoinSplit(s: string, sep: char)
    ensures Join(Split(s, sep), sep) == s
    decreases |s|
  {
    var k := IndexOf(s, sep);
    if k >= 0 {
      var r := s[k + 1..];
      var parts := Split(r, sep);
      JoinSplit(r, sep);
      assert Split(s, sep) == [s[..k]] + parts;
      JoinCons(s[..k], parts, sep);
      assert s[k] == sep;
      Rejoin(s, k);
    }
  }

  lemma {:induction false} JoinCons(first: string, rest: seq<string>, sep: char)
    requires |rest| >= 1
    ensures Join([first] + rest, sep) == first + [sep] + Join(rest, sep)
  {
    assert ([first] + rest)[1..] == rest;
  }

  lemma {:induction false} Rejoin(s: string, k: int)
    requires 0 <= k < |s|
    ensures s[..k] + [s[k]] + s[k + 1..] == s
  {
  }

  lemma {:induction false} CountAppend(a: string, b: string, c: char)
    ensures Count(a + b, c) == Count(a, c) + Count(b, c)
    decreases |a|
  {
    if a == [] {
      assert a + b == b;
    } else {
      var ab := a + b;
      assert ab[1..] == a[1..] + b;
      assert ab[0] == a[0];
      CountAppend(a[1..], b, c);
      assert Count(ab, c) == (if ab[0] == c then 1 else 0) + Count(ab[1..], c);
    }
  }

  lemma {:induction false} CountAbsent(s: string, c: char)
    requires c !in s
    ensures Count(s, c) == 0
    decreases |s|
  {
    if s != [] {
      assert forall x :: x in s[1..] ==> x in s;
      CountAbsent(s[1..], c);
    }
  }

  /** `split` yields one more field than there are separators. */
  lemma {:induction false} SplitCount(s: string, sep: char)
    ensures |Split(s, sep)| == Count(s, sep) + 1
    decreases |s|
  {
    var k := IndexOf(s, sep);
    if k < 0 {
      CountAbsent(s, sep);
    } else {
      SplitCount(s[k + 1..], sep);
      CountAtSeparator(s, k, sep);
      assert Split(s, sep) == [s[..k]] + Split(s[k + 1..], sep);
    }
  }

  /** Up to and including its first separator, a string holds exactly one separator. */
  lemma {:induction false} CountAtSeparator(s: string, k: int, sep: char)
    requires 0 <= k < |s| && s[k] == sep && sep !in s[..k]
    ensures Count(s, sep) == 1 + Count(s[k + 1..], sep)
  {
    assert s == s[..k] + ([sep] + s[k + 1..]);
    CountAppend(s[..k], [sep] + s[k + 1..], sep);
    CountAbsent(s[..k], sep);
    assert ([sep] + s[k + 1..])[1..] == s[k + 1..];
  }

  /** A string splits into a single field exactly when it holds no separator. */
  lemma {:induction false} SingleFieldIff(s: string, sep: char)
    ensures |Split(s, sep)| == 1 <==> sep !in s
  {
    var k := IndexOf(s, sep);
  }

  /** Two separator-free fields joined by one separator split back into those two fields. */
  lemma {:induction false} SplitPair(a: string, b: string, sep: char)
    requires sep !in a && sep !in b
    ensures Split(a + [sep] + b, sep) == [a, b]
  {
    var s := a + [sep] + b;
    IndexOfFirst(a, sep, b);
    assert s[..|a|] == a;
    assert s[|a| + 1..] == b;
    assert IndexOf(b, sep) < 0;
  }

  lemma {:induction false} JoinThree(f: seq<string>, sep: char)
    requires |f| == 3
    ensures Join(f, sep) == f[0] + [sep] + f[1] + [sep] + f[2]
  {
    var tail := f[1..];
    assert tail[1..] == [f[2]];
    assert Join(tail, sep) == f[1] + [sep] + f[2];
    assert f[0] + [sep] + (f[1] + [sep] + f[2]) == f[0] + [sep] + f[1] + [sep] + f[2];
  }

  /** A string of three fields is those fields joined by single separators. */
  lemma {:induction false} ThreeFields(s: string, sep: char)
    requires |Split(s, sep)| == 3
    ensures var f := Split(s, sep);
      && s == f[0] + [sep] + f[1] + [sep] + f[2]
      && sep !in f[0] && sep !in f[1] && sep !in f[2]
  {
    var f := Split(s, sep);
    JoinSplit(s, sep);
    JoinThree(f, sep);
    assert f[0] in f && f[1] in f && f[2] in f;
  }

  /** Three separator-free fields joined by single separators split back into those three fields. */
  lemma {:induction false} SplitTriple(a: string, b: string, c: string, sep: char)
    requires sep !in a && sep !in b && sep !in c
    ensures Split(a + [sep] + b + [sep] + c, sep) == [a, b, c]
  {
    var s := a + [sep] + b + [sep] + c;
    var rest := b + [sep] + c;
    assert s == a + [sep] + rest;
    IndexOfFirst(a, sep, rest);
    assert s[..|a|] == a;
    assert s[|a| + 1..] == rest;
    SplitPair(b, c, sep);
  }

  /** A bounded occurrence in the text after the separator at `k` is one in the whole text too. */
  lemma {:induction false} FieldShift(s: string, k: int, t: string, j: int, sep: char)
    requires 0 <= k < |s| && s[k] == sep && FieldAt(s[k + 1..], t, j, sep)
    ensures FieldAt(s, t, j + k + 1, sep)
  {
    var r := s[k + 1..];
    var i := j + k + 1;
    assert s[i..i + |t|] == r[j..j + |t|];
    assert i + |t| < |s| ==> s[i + |t|] == r[j + |t|];
    assert j > 0 ==> s[i - 1] == r[j - 1];
  }

  /** A string without the separator is its only field, bounded by both ends. */
  lemma {:induction false} WholeField(s: string, t: string, sep: char)
    requires IndexOf(s, sep) < 0 && t in Split(s, sep)
    ensures FieldAt(s, t, 0, sep)
  {
    assert t == s;
    assert s[0..|s|] == s;
  }

  /** The text before the first separator is bounded by the start and that separator. */
  lemma {:induction false} FirstField(s: string, k: int, sep: char)
    requires 0 <= k < |s| && s[k] == sep
    ensures FieldAt(s, s[..k], 0, sep)
  {
    assert s[0..k] == s[..k];
  }

  /** A field other than the first is a field of the text after the first separator. */
  lemma {:induction false} LaterField(s: string, t: string, k: int, sep: char)
    requires k == IndexOf(s, sep) && k >= 0 && t in Split(s, sep) && t != s[..k]
    ensures t in Split(s[k + 1..], sep)
  {
    assert Split(s, sep) == [s[..k]] + Split(s[k + 1..], sep);
  }

  /** Every field of `split` occurs in `s` bounded by separators or ends. */
  lemma {:induction false} FieldOfSplit(s: string, t: string, sep: char) returns (i: int)
    requires t in Split(s, sep)
    ensures FieldAt(s, t, i, sep)
    decreases |s|, 1
  {
    var k := IndexOf(s, sep);
    if k < 0 {
      WholeField(s, t, sep);
      i := 0;
    } else if t == s[..k] {
      FirstField(s, k, sep);
      i := 0;
    } else {
      LaterField(s, t, k, sep);
      i := FieldAfterSeparator(s, t, k, sep);
    }
  }

  /** A field of the text after a separator occurs, bounded, in the whole text. */
  lemma {:induction false} FieldAfterSeparator(s: string, t: string, k: int, sep: char) returns (i: int)
    requires 0 <= k < |s| && s[k] == sep && t in Split(s[k + 1..], sep)
    ensures FieldAt(s, t, i, sep)
    decreases |s|, 0
  {
    var j := FieldOfSplit(s[k + 1..], t, sep);
    FieldShift(s, k, t, j, sep);
    i := j + k + 1;
  }

  /** Every separator-free field bounded by separators or ends is one of the fields of `split`. */
  lemma {:induction false} SplitOfField(s: string, t: string, i: int, sep: char)
    requires sep !in t && FieldAt(s, t, i, sep)
    ensures t in Split(s, sep)
    decreases |s|
  {
    var k := IndexOf(s, sep);
    if k < 0 {
      assert i == 0 && i + |t| == |s|;
      assert t == s;
    } else if i <= k {
      assert i == 0;
      assert forall j :: 0 <= j < |t| ==> t[j] == s[j];
      assert |t| <= k;
      assert t == s[..k];
    } else {
      var r := s[k + 1..];
      FieldUnshift(s, k, t, i, sep);
      SplitOfField(r, t, i - k - 1, sep);
      assert Split(s, sep) == [s[..k]] + Split(r, sep);
    }
  }

  /** A bounded occurrence after the separator at `k` is one in the text after that separator too. */
  lemma {:induction false} FieldUnshift(s: string, k: int, t: string, i: int, sep: char)
    requires 0 <= k < i && k < |s| && s[k] == sep && FieldAt(s, t, i, sep)
    ensures FieldAt(s[k + 1..], t, i - k - 1, sep)
  {
    var r := s[k + 1..];
    var j := i - k - 1;
    assert r[j..j + |t|] == s[i..i + |t|];
  }

  /** `s.split(sep).includes(t)`, stated without `split`. */
  lemma {:induction false} InSplitIff(s: string, t: string, sep: char)
    ensures t in Split(s, sep) <==> sep !in t && exists i :: FieldAt(s, t, i, sep)
  {
    if t in Split(s, sep) {
      var i := FieldOfSplit(s, t, sep);
    }
    if sep !in t && exists i :: FieldAt(s, t, i, sep) {
      var i :| FieldAt(s, t, i, sep);
      SplitOfField(s, t, i, sep);
    }
  }
}
