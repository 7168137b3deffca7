/**
  The few string operations of JavaScript that the judging pipeline relies on:
  `String.prototype.trim`, `String.prototype.toUpperCase`, `Array.prototype.join`
  and `String.prototype.split`. A JavaScript string is modelled as the sequence of
  its code points.
 */
module JsString {

  /** The characters `trim` removes: ECMAScript's WhiteSpace and LineTerminator. */
  predicate IsWhitespace(c: char) {
    || c == '\t' || c == '\n' || c == '\U{000B}' || c == '\U{000C}' || c == '\r'
    || c == ' ' || c == '\U{00A0}' || c == '\U{1680}'
    || ('\U{2000}' <= c <= '\U{200A}')
    || c == '\U{2028}' || c == '\U{2029}' || c == '\U{202F}' || c == '\U{205F}'
    || c == '\U{3000}' || c == '\U{FEFF}'
  }

  predicate AllWhitespace(s: string) {
    forall k :: 0 <= k < |s| ==> IsWhitespace(s[k])
  }

  /** The index of the first non-whitespace character at or after `i`, or `|s|`. */
  function SkipLeading(s: string, i: nat): (j: nat)
    requires i <= |s|
    ensures i <= j <= |s|
    ensures forall k :: i <= k < j ==> IsWhitespace(s[k])
    ensures j == |s| || !IsWhitespace(s[j])
    decreases |s| - i
  {
    if i < |s| && IsWhitespace(s[i]) then SkipLeading(s, i + 1) else i
  }

  /** The index just past the last non-whitespace character in `s[lo..j]`, or `lo`. */
  function SkipTrailing(s: string, lo: nat, j: nat): (k: nat)
    requires lo <= j <= |s|
    ensures lo <= k <= j
    ensures forall m :: k <= m < j ==> IsWhitespace(s[m])
    ensures k == lo || !IsWhitespace(s[k - 1])
    decreases j - lo
  {
    if lo < j && IsWhitespace(s[j - 1]) then SkipTrailing(s, lo, j - 1) else j
  }

  /** Whitespace from `i` up to a non-whitespace character at `j` (or the end) is exactly what SkipLeading passes. */
  lemma {:induction false} SkipLeadingAt(s: string, i: nat, j: nat)
    requires i <= j <= |s|
    requires forall k :: i <= k < j ==> IsWhitespace(s[k])
    requires j == |s| || !IsWhitespace(s[j])
    ensures SkipLeading(s, i) == j
    decreases j - i
  {
    if i < j {
      SkipLeadingAt(s, i + 1, j);
    }
  }

  /** Whitespace from `k` up to `j` after a non-whitespace character (or `lo`) is exactly what SkipTrailing passes. */
  lemma {:induction false} SkipTrailingAt(s: string, lo: nat, j: nat, k: nat)
    requires lo <= k <= j <= |s|
    requires forall m :: k <= m < j ==> IsWhitespace(s[m])
    requires k == lo || !IsWhitespace(s[k - 1])
    ensures SkipTrailing(s, lo, j) == k
    decreases j - k
  {
    if k < j {
      SkipTrailingAt(s, lo, j - 1, k);
    }
  }

  /**
    JavaScript's `s.trim()`: the slice of `s` between its leading and its trailing
    whitespace; only leading and trailing whitespace goes.
   */
  function Trim(s: string): (r: string)
    ensures var i := SkipLeading(s, 0);
      && i + |r| <= |s|
      && r == s[i..i + |r|]
      && (forall k :: 0 <= k < i ==> IsWhitespace(s[k]))
      && (forall k :: i + |r| <= k < |s| ==> IsWhitespace(s[k]))
    ensures r == [] || (!IsWhitespace(r[0]) && !IsWhitespace(r[|r| - 1]))
  {
    var i := SkipLeading(s, 0);
    s[i..SkipTrailing(s, i, |s|)]
  }

  /**
    Trim is determined by the decomposition of its input into leading whitespace,
    a core that neither starts nor ends with whitespace, and trailing whitespace.
   */
  lemma TrimOfPadded(a: string, m: string, b: string)
    requires AllWhitespace(a) && AllWhitespace(b)
    requires m == [] || (!IsWhitespace(m[0]) && !IsWhitespace(m[|m| - 1]))
    ensures Trim(a + m + b) == m
  {
    var s := a + m + b;
    if m == [] {
      SkipLeadingAt(s, 0, |s|);
    } else {
      SkipLeadingAt(s, 0, |a|);
      SkipTrailingAt(s, |a|, |s|, |a| + |m|);
      assert s[|a|..|a| + |m|] == m;
    }
  }

  /** Trimming twice is trimming once. */
  lemma TrimIdempotent(s: string)
    ensures Trim(Trim(s)) == Trim(s)
  {
    var m := Trim(s);
    assert [] + m + [] == m;
    TrimOfPadded([], m, []);
  }

  /** Padding on the left moves the whitespace prefix of `s` along with it. */
  lemma PaddedPrefix(w1: string, s: string, w2: string, i: nat)
    requires AllWhitespace(w1) && i <= |s|
    requires forall k :: 0 <= k < i ==> IsWhitespace(s[k])
    ensures forall k :: 0 <= k < |w1| + i ==> IsWhitespace((w1 + s + w2)[k])
  {
    var t := w1 + s + w2;
    forall k | 0 <= k < |w1| + i ensures IsWhitespace(t[k]) {
      if k < |w1| { assert t[k] == w1[k]; } else { assert t[k] == s[k - |w1|]; }
    }
  }

  /** Padding on the right extends the whitespace suffix of `s`. */
  lemma PaddedSuffix(w1: string, s: string, w2: string, j: nat)
    requires AllWhitespace(w2) && j <= |s|
    requires forall k :: j <= k < |s| ==> IsWhitespace(s[k])
    ensures forall k :: |w1| + j <= k < |w1 + s + w2| ==> IsWhitespace((w1 + s + w2)[k])
  {
    var t := w1 + s + w2;
    forall k | |w1| + j <= k < |t| ensures IsWhitespace(t[k]) {
      if k < |w1| + |s| { assert t[k] == s[k - |w1|]; } else { assert t[k] == w2[k - |w1| - |s|]; }
    }
  }

  /** The scans over a padded string stop where the scans over `s` stop, shifted by the left padding. */
  lemma PaddedScans(w1: string, s: string, w2: string)
    requires AllWhitespace(w1) && AllWhitespace(w2)
    requires SkipLeading(s, 0) < |s|
    ensures SkipLeading(w1 + s + w2, 0) == |w1| + SkipLeading(s, 0)
    ensures SkipTrailing(w1 + s + w2, |w1| + SkipLeading(s, 0), |w1 + s + w2|)
            == |w1| + SkipTrailing(s, SkipLeading(s, 0), |s|)
  {
    var t := w1 + s + w2;
    var i := SkipLeading(s, 0);
    var j := SkipTrailing(s, i, |s|);
    PaddedPrefix(w1, s, w2, i);
    PaddedSuffix(w1, s, w2, j);
    assert t[|w1| + i] == s[i];
    SkipLeadingAt(t, 0, |w1| + i);
    assert t[|w1| + j - 1] == s[j - 1];
    SkipTrailingAt(t, |w1| + i, |t|, |w1| + j);
  }

  /** Surrounding a string with whitespace does not change what it trims to. */
  lemma TrimIgnoresPadding(w1: string, s: string, w2: string)
    requires AllWhitespace(w1) && AllWhitespace(w2)
    ensures Trim(w1 + s + w2) == Trim(s)
  {
    var t := w1 + s + w2;
    var i := SkipLeading(s, 0);
    if i == |s| {
      PaddedPrefix(w1, s, w2, i);
      PaddedSuffix(w1, s, w2, |s|);
      SkipLeadingAt(t, 0, |t|);
    } else {
      PaddedScans(w1, s, w2);
      SliceOfPadded(w1, s, w2, i, SkipTrailing(s, i, |s|));
    }
  }

  lemma SliceOfPadded<T>(a: seq<T>, s: seq<T>, b: seq<T>, i: nat, j: nat)
    requires i <= j <= |s|
    ensures (a + s + b)[|a| + i..|a| + j] == s[i..j]
  {
    var t := a + s + b;
    assert forall k :: |a| <= k < |a| + |s| ==> t[k] == s[k - |a|];
  }

  /**
    The upper-case form of one character under `toUpperCase`. Besides the ASCII
    letters, U+0131 (dotless i) and U+017F (long s) are the only characters whose
    upper case is a single ASCII letter; every other character is left as it is.
   */
  function UpperChar(c: char): (u: char)
    ensures 'a' <= c <= 'z' ==> u as int == c as int - 32
    ensures !('a' <= c <= 'z') && c != '\U{0131}' && c != '\U{017F}' ==> u == c
  {
    if 'a' <= c <= 'z' then (c as int - 32) as char
    else if c == '\U{0131}' then 'I'
    else if c == '\U{017F}' then 'S'
    else c
  }

  /** ASCII lower case, used to speak about other casings of a name. */
  function LowerAscii(c: char): (l: char)
    ensures 'A' <= c <= 'Z' ==> l as int == c as int + 32
    ensures !('A' <= c <= 'Z') ==> l == c
  {
    if 'A' <= c <= 'Z' then (c as int + 32) as char else c
  }

  function ToUpperCase(s: string): (r: string)
    ensures |r| == |s|
    ensures forall k :: 0 <= k < |s| ==> r[k] == UpperChar(s[k])
  {
    if s == [] then [] else [UpperChar(s[0])] + ToUpperCase(s[1..])
  }

  function ToLowerAscii(s: string): (r: string)
    ensures |r| == |s|
    ensures forall k :: 0 <= k < |s| ==> r[k] == LowerAscii(s[k])
  {
    if s == [] then [] else [LowerAscii(s[0])] + ToLowerAscii(s[1..])
  }

  /** Upper-casing an upper-cased string changes nothing. */
  lemma ToUpperCaseIdempotent(s: string)
    ensures ToUpperCase(ToUpperCase(s)) == ToUpperCase(s)
  {
    var u := ToUpperCase(s);
    assert forall k :: 0 <= k < |u| ==> UpperChar(u[k]) == u[k];
  }

  /** Lower-casing the ASCII letters first does not change the upper-case form. */
  lemma ToUpperCaseOfLower(s: string)
    ensures ToUpperCase(ToLowerAscii(s)) == ToUpperCase(s)
  {
    var l := ToLowerAscii(s);
    assert forall k :: 0 <= k < |s| ==> UpperChar(l[k]) == UpperChar(s[k]);
  }

  /** `parts.join(sep)`. */
  function Join(parts: seq<string>, sep: char): (r: string)
    ensures |parts| == 1 ==> r == parts[0]
    ensures (forall k :: 0 <= k < |parts| ==> sep !in parts[k]) ==> multiset(r)[sep] == if parts == [] then 0 else |parts| - 1
  {
    if parts == [] then []
    else if |parts| == 1 then parts[0]
    else parts[0] + [sep] + Join(parts[1..], sep)
  }

  /** `s.split(sep)` for a one-character separator: never empty; `"".split(",")` is `[""]`. */
  function Split(s: string, sep: char): (r: seq<string>)
    ensures |r| >= 1
  {
    if s == [] then [[]]
    else
      var rest := Split(s[1..], sep);
      if s[0] == sep then [[]] + rest
      else [[s[0]] + rest[0]] + rest[1..]
  }

  /** There is one piece more than there are separators. */
  lemma {:induction false} SplitCount(s: string, sep: char)
    ensures |Split(s, sep)| == multiset(s)[sep] + 1
  {
    if s != [] {
      SplitCount(s[1..], sep);
      assert s == [s[0]] + s[1..];
    }
  }

  /** A string without the separator splits into itself. */
  lemma {:induction false} SplitWithoutSeparator(s: string, sep: char)
    requires sep !in s
    ensures Split(s, sep) == [s]
  {
    if s != [] {
      SplitWithoutSeparator(s[1..], sep);
      assert [s[0]] + s[1..] == s;
    }
  }

  /** A separator ends the first piece: whatever follows splits on its own. */
  lemma {:induction false} SplitAfterPiece(a: string, sep: char, rest: string)
    requires sep !in a
    ensures Split(a + [sep] + rest, sep) == [a] + Split(rest, sep)
  {
    if a == [] {
      assert a + [sep] + rest == [sep] + rest;
      assert ([sep] + rest)[1..] == rest;
    } else {
      assert (a + [sep] + rest)[1..] == a[1..] + [sep] + rest;
      SplitAfterPiece(a[1..], sep, rest);
      assert [a[0]] + a[1..] == a;
    }
  }

  /** Splitting a join gives the parts back, provided there is at least one part and none holds the separator. */
  lemma {:induction false} SplitJoin(parts: seq<string>, sep: char)
    requires |parts| >= 1
    requires forall k :: 0 <= k < |parts| ==> sep !in parts[k]
    ensures Split(Join(parts, sep), sep) == parts
  {
    if |parts| == 1 {
      SplitWithoutSeparator(parts[0], sep);
    } else {
      SplitJoin(parts[1..], sep);
      SplitAfterPiece(parts[0], sep, Join(parts[1..], sep));
      assert [parts[0]] + parts[1..] == parts;
    }
  }

  /** The empty list is the one exception: it joins to "", which splits into [""]. */
  lemma SplitJoinEmpty(sep: char)
    ensures Join([], sep) == []
    ensures Split(Join([], sep), sep) == [[]]
  {
  }
}
