/**
 * The pieces of Python's `str` that the pipeline relies on, restricted to
 * ASCII: whitespace and letter classes, `strip`, `split` on one character,
 * `join`, `lower`, `capitalize`, prefix slicing `xs[:n]` and the decimal
 * rendering of a counter in an f-string.
 */
module Text {

  function Min(a: int, b: int): int { if a <= b then a else b }
  function Max(a: int, b: int): int { if a <= b then b else a }

  /** `str.isspace()` and regex `\s` on ASCII: tab, line feed, vertical tab,
      form feed, carriage return, the separators 0x1c-0x1f and space. */
  predicate IsSpace(c: char) {
    9 <= c as int <= 13 || 28 <= c as int <= 32
  }

  /** Regex class `[a-zA-Z]`. */
  predicate IsLetter(c: char) {
    'a' <= c <= 'z' || 'A' <= c <= 'Z'
  }

  predicate IsLowerLetter(c: char) {
    'a' <= c <= 'z'
  }

  /** Regex class `\w` on ASCII: letters, digits and underscore. */
  predicate IsWordChar(c: char) {
    IsLetter(c) || '0' <= c <= '9' || c == '_'
  }

  predicate AllSpace(s: string) {
    forall i :: 0 <= i < |s| ==> IsSpace(s[i])
  }

  /** No leading and no trailing whitespace. */
  predicate Stripped(s: string) {
    s == [] || (!IsSpace(s[0]) && !IsSpace(s[|s| - 1]))
  }

  function TrimStart(s: string): (r: string)
    ensures |r| <= |s| && r == s[|s| - |r|..]
    ensures AllSpace(s[..|s| - |r|])
    ensures r == [] || !IsSpace(r[0])
  {
    if s != [] && IsSpace(s[0]) then
      var r := TrimStart(s[1..]);
      assert s[..|s| - |r|] == [s[0]] + s[1..][..|s| - 1 - |r|];
      r
    else
      s
  }

  function TrimEnd(s: string): (r: string)
    ensures |r| <= |s| && r == s[..|r|]
    ensures AllSpace(s[|r|..])
    ensures r == [] || !IsSpace(r[|r| - 1])
  {
    if s != [] && IsSpace(s[|s| - 1]) then
      var r := TrimEnd(s[..|s| - 1]);
      assert s[|r|..] == s[..|s| - 1][|r|..] + [s[|s| - 1]];
      r
    else
      s
  }

  /**
   * `str.strip()`: `s` with its leading and its trailing whitespace removed,
   * leaving a text that neither starts nor ends with whitespace.
   */
  function Strip(s: string): (r: string)
    ensures Stripped(r)
    ensures exists pre, post :: s == pre + r + post && AllSpace(pre) && AllSpace(post)
    ensures r == [] <==> AllSpace(s)
    ensures forall c :: c in r ==> c in s
    ensures Stripped(s) ==> r == s
  {
    var t := TrimStart(s);
    var r := TrimEnd(t);
    BetweenSpaces(s, t, r);
    assert forall c :: c in r ==> c in t;
    assert forall c :: c in t ==> c in s;
    if r == [] then
      assert AllSpace(t) by {
        assert t == t[|r|..];
      }
      assert s == s[..|s| - |t|] + t;
      r
    else
      assert !AllSpace(s) by {
        assert s[|s| - |t|] == t[0] == r[0];
      }
      r
  }

  /** A prefix cut from a suffix of `s`, both cuts removing only whitespace, sits between two whitespace runs. */
  lemma BetweenSpaces(s: string, t: string, r: string)
    requires |r| <= |t| <= |s|
    requires t == s[|s| - |t|..] && AllSpace(s[..|s| - |t|])
    requires r == t[..|r|] && AllSpace(t[|r|..])
    ensures exists pre, post :: s == pre + r + post && AllSpace(pre) && AllSpace(post)
  {
    var pre, post := s[..|s| - |t|], t[|r|..];
    assert t == r + post;
    assert s == pre + t;
    assert s == pre + r + post;
  }

  /** `s.split(sep)` for a one-character separator: always at least one
      line, no line contains the separator, and joining the lines with the
      separator gives `s` back. */
  function Split(s: string, sep: char): (lines: seq<string>)
    ensures |lines| >= 1
    ensures forall l :: l in lines ==> sep !in l
    ensures Join(lines, [sep]) == s
  {
    if s == [] then [""]
    else
      var rest := Split(s[1..], sep);
      if s[0] == sep then [""] + rest
      else [[s[0]] + rest[0]] + rest[1..]
  }

  /** A text without the separator is a single line. */
  lemma {:induction false} SplitWithoutSeparator(s: string, sep: char)
    requires sep !in s
    ensures Split(s, sep) == [s]
  {
    if s != [] {
      SplitWithoutSeparator(s[1..], sep);
      assert [s[0]] + s[1..] == s;
    }
  }

  /** Splitting cuts at the first separator: the line before it, then the lines of the rest. */
  lemma {:induction false} SplitAtSeparator(a: string, b: string, sep: char)
    requires sep !in a
    ensures Split(a + [sep] + b, sep) == [a] + Split(b, sep)
  {
    var s := a + [sep] + b;
    if a == [] {
      assert s[0] == sep && s[1..] == b;
    } else {
      assert s[0] == a[0] && s[1..] == a[1..] + [sep] + b;
      SplitAtSeparator(a[1..], b, sep);
      assert [a[0]] + a[1..] == a;
    }
  }

  /** `sep.join(xs)`. */
  function Join(xs: seq<string>, sep: string): string {
    if |xs| == 0 then ""
    else if |xs| == 1 then xs[0]
    else xs[0] + sep + Join(xs[1..], sep)
  }

  /** The stop index of the Python slice `xs[:n]` on a list of length `len`:
      a non-negative `n` takes `n` elements, or all of them when there are fewer;
      a negative `n` leaves out the last `-n`, or everything when there are fewer. */
  function SliceStop(len: nat, n: int): (k: nat)
    ensures k <= len
    ensures n >= 0 ==> k <= n && (k < n ==> k == len)
    ensures n < 0 ==> k + Min(-n, len) == len
  {
    if n >= 0 then Min(n, len) else Max(0, len + n)
  }

  /** The Python slice `xs[:n]`. */
  function PrefixSlice<T>(xs: seq<T>, n: int): (r: seq<T>)
    ensures r <= xs && |r| == SliceStop(|xs|, n)
  {
    xs[..SliceStop(|xs|, n)]
  }

  function LowerChar(c: char): char {
    if 'A' <= c <= 'Z' then (c as int + 32) as char else c
  }

  function UpperChar(c: char): char {
    if 'a' <= c <= 'z' then (c as int - 32) as char else c
  }

  /** `str.lower()` on ASCII. */
  function Lower(s: string): (r: string)
    ensures |r| == |s|
    ensures forall i :: 0 <= i < |s| ==> r[i] == LowerChar(s[i])
  {
    seq(|s|, i requires 0 <= i < |s| => LowerChar(s[i]))
  }

  /** `str.capitalize()` on ASCII: first character upper case, the rest lower case. */
  function Capitalize(s: string): (r: string)
    ensures |r| == |s|
    ensures s != [] ==> r[0] == UpperChar(s[0])
    ensures forall i :: 1 <= i < |s| ==> r[i] == LowerChar(s[i])
  {
    if s == [] then [] else [UpperChar(s[0])] + Lower(s[1..])
  }

  predicate AllDigits(s: string) {
    forall i :: 0 <= i < |s| ==> '0' <= s[i] <= '9'
  }

  function DigitChar(d: nat): char
    requires d < 10
  {
    ('0' as int + d) as char
  }

  /** Decimal rendering of a natural number, as `f"{idx}"` prints it. */
  function NatToString(n: nat): (s: string)
    ensures |s| >= 1
    ensures AllDigits(s)
    ensures n == 0 ==> s == "0"
    ensures n > 0 ==> s[0] != '0'
  {
    if n < 10 then [DigitChar(n)] else NatToString(n / 10) + [DigitChar(n % 10)]
  }

  /** Reads a string of decimal digits back as a number. */
  function ParseNat(s: string): nat
    requires AllDigits(s)
  {
    if s == [] then 0
    else ParseNat(s[..|s| - 1]) * 10 + (s[|s| - 1] as int - '0' as int)
  }

  /** The decimal rendering reads back as the same number. */
  lemma {:induction false} ParseNatToString(n: nat)
    ensures ParseNat(NatToString(n)) == n
  {
    if n >= 10 {
      var s := NatToString(n);
      assert s[..|s| - 1] == NatToString(n / 10);
      ParseNatToString(n / 10);
    }
  }

  /** Joining a prefix of the list gives a prefix of joining the whole list. */
  lemma {:induction false} JoinPrefix(xs: seq<string>, k: nat, sep: string)
    requires k <= |xs|
    ensures Join(xs[..k], sep) <= Join(xs, sep)
  {
    if k == 0 {
    } else if |xs| == 1 {
      assert xs[..k] == xs;
    } else if k == 1 {
      assert xs[..k] == [xs[0]];
    } else {
      JoinPrefix(xs[1..], k - 1, sep);
      assert xs[..k][1..] == xs[1..][..k - 1];
    }
  }

  /** A non-empty join starts with its first element. */
  lemma JoinStartsWithFirst(xs: seq<string>, sep: string)
    requires xs != []
    ensures xs[0] <= Join(xs, sep)
  {
  }

  /** Stripping keeps any prefix that starts and ends with a non-space character. */
  lemma StripKeepsPrefix(s: string, k: nat)
    requires 0 < k <= |s| && !IsSpace(s[0]) && !IsSpace(s[k - 1])
    ensures s[..k] <= Strip(s)
  {
    var t := TrimStart(s);
    assert t == s;
    var r := TrimEnd(t);
    assert |r| >= k;
  }

  /** Lower-casing undoes `capitalize` on a lower-case word. */
  lemma LowerCapitalize(w: string)
    requires forall i :: 0 <= i < |w| ==> IsLowerLetter(w[i])
    ensures Lower(Capitalize(w)) == w
  {
    if w != [] {
      var c := Capitalize(w);
      assert c[0] == UpperChar(w[0]);
      forall i | 1 <= i < |w| ensures c[i] == w[i] {
        assert c[i] == Lower(w[1..])[i - 1];
      }
    }
  }

  /** A lower-case word, capitalised, is its first letter in upper case followed by the rest unchanged. */
  lemma CapitalizeLowerWord(w: string)
    requires w != [] && forall i :: 0 <= i < |w| ==> IsLowerLetter(w[i])
    ensures Capitalize(w) == [UpperChar(w[0])] + w[1..]
    ensures 'A' <= Capitalize(w)[0] <= 'Z'
  {
    var c := Capitalize(w);
    forall i | 1 <= i < |w| ensures c[i] == ([UpperChar(w[0])] + w[1..])[i] {
      assert IsLowerLetter(w[i]);
    }
  }

  /** Regrouping a concatenation: from `ab = x + t`, `t = y + z` and `a = x + y` follows `ab = a + z`. */
  lemma Regroup<T>(ab: seq<T>, a: seq<T>, x: seq<T>, t: seq<T>, y: seq<T>, z: seq<T>)
    requires ab == x + t && t == y + z && a == x + y
    ensures ab == a + z
  {
    assert x + (y + z) == (x + y) + z;
  }

  /** A sequence is the concatenation of its three slices at `i` and `j`. */
  lemma ThreeSlices<T>(s: seq<T>, i: nat, j: nat)
    requires i <= j <= |s|
    ensures s == s[..i] + s[i..j] + s[j..]
  {
    assert s[..j] == s[..i] + s[i..j];
  }

  /** The three parts of a concatenation can be sliced back out of it; equal concatenations with equal ends have equal middles. */
  lemma ThreeSlicesOfConcat<T>(a: seq<T>, b: seq<T>, c: seq<T>)
    ensures (a + b + c)[..|a|] == a
    ensures (a + b + c)[|a|..|a| + |b|] == b
    ensures (a + b + c)[|a| + |b|..] == c
    ensures forall b' :: a + b' + c == a + b + c ==> b' == b
  {
    forall b' | a + b' + c == a + b + c ensures b' == b {
      assert |b'| == |b|;
      assert b' == (a + b' + c)[|a|..|a| + |b'|];
    }
  }
}
