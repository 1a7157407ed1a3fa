/**
 * The pieces of Python's `str` that the script relies on: `split()` (with
 * the whitespace set of `isspace`), `sep.join`, `int(...)` on a decimal
 * string, `"%d" % n`, and the `<=` order used by `sorted`; and the cutting
 * of a text into words at each space, as `textwrap` does before it wraps.
 */
module PyStr {
  import opened Results

  /** `c.isspace()`: the characters Python's `str.split()` separates on. */
  predicate IsSpace(c: char) {
    var k := c as int;
    (9 <= k <= 13) || (28 <= k <= 32) || k == 0x85 || k == 0xA0 || k == 0x1680
    || (0x2000 <= k <= 0x200A) || k == 0x2028 || k == 0x2029 || k == 0x202F
    || k == 0x205F || k == 0x3000
  }

  /** A non-empty string without whitespace: what `str.split()` yields. */
  predicate IsWord(s: string) {
    |s| > 0 && forall i :: 0 <= i < |s| ==> !IsSpace(s[i])
  }

  predicate StartsWith(s: string, prefix: string) {
    |prefix| <= |s| && s[..|prefix|] == prefix
  }

  predicate EndsWith(s: string, suffix: string) {
    |suffix| <= |s| && s[|s| - |suffix|..] == suffix
  }

  // ---------------------------------------------------------------------
  // sep.join(parts)
  // ---------------------------------------------------------------------

  function JoinWith(parts: seq<string>, sep: string): string {
    if parts == [] then ""
    else if |parts| == 1 then parts[0]
    else parts[0] + sep + JoinWith(parts[1..], sep)
  }

  /** Joining two non-empty lists puts exactly one separator between them. */
  lemma {:induction false} JoinAppend(a: seq<string>, b: seq<string>, sep: string)
    requires a != [] && b != []
    ensures JoinWith(a + b, sep) == JoinWith(a, sep) + sep + JoinWith(b, sep)
    decreases |a|
  {
    if |a| == 1 {
      assert (a + b)[1..] == b;
    } else {
      assert (a + b)[1..] == a[1..] + b;
      JoinAppend(a[1..], b, sep);
    }
  }

  // ---------------------------------------------------------------------
  // s.split(): maximal runs of non-whitespace
  // ---------------------------------------------------------------------

  /** Length of the run of non-whitespace characters at the start of `s`. */
  function WordLength(s: string): (n: nat)
    ensures n <= |s|
    ensures forall i :: 0 <= i < n ==> !IsSpace(s[i])
    ensures n < |s| ==> IsSpace(s[n])
  {
    if s == [] || IsSpace(s[0]) then 0 else 1 + WordLength(s[1..])
  }

  /** `s.split()` with no separator. */
  function Fields(s: string): (r: seq<string>)
    ensures forall i :: 0 <= i < |r| ==> IsWord(r[i])
    decreases |s|
  {
    if s == [] then []
    else if IsSpace(s[0]) then Fields(s[1..])
    else
      var n := WordLength(s);
      [s[..n]] + Fields(s[n..])
  }

  lemma {:induction false} WordLengthOfWord(w: string, rest: string)
    requires IsWord(w)
    requires rest == [] || IsSpace(rest[0])
    ensures WordLength(w + rest) == |w|
    decreases |w|
  {
    if |w| > 1 {
      assert (w + rest)[1..] == w[1..] + rest;
      WordLengthOfWord(w[1..], rest);
    } else {
      assert (w + rest)[1..] == rest;
    }
  }

  /** A word followed by whitespace (or by nothing) is the first field. */
  lemma FieldsOfWord(w: string, rest: string)
    requires IsWord(w)
    requires rest == [] || IsSpace(rest[0])
    ensures Fields(w + rest) == [w] + Fields(rest)
  {
    WordLengthOfWord(w, rest);
    var s := w + rest;
    assert s[..|w|] == w && s[|w|..] == rest;
  }

  /** `" ".join(words).split()` gives the words back. */
  lemma {:induction false} FieldsOfJoin(words: seq<string>)
    requires forall i :: 0 <= i < |words| ==> IsWord(words[i])
    ensures Fields(JoinWith(words, " ")) == words
    decreases |words|
  {
    if |words| == 1 {
      FieldsOfWord(words[0], "");
      assert words[0] + "" == words[0];
    } else if |words| > 1 {
      var tail := JoinWith(words[1..], " ");
      assert words[0] + " " + tail == words[0] + (" " + tail);
      FieldsOfWord(words[0], " " + tail);
      assert (" " + tail)[1..] == tail;
      FieldsOfJoin(words[1..]);
    }
  }

  // ---------------------------------------------------------------------
  // Cutting a text at each occurrence of one character
  // ---------------------------------------------------------------------

  /**
   * The pieces of `t` between the occurrences of `c` (what Python's
   * `t.split(c)` gives); never empty. `textwrap` cuts the name list into
   * words this way at its spaces.
   */
  function SplitOn(t: string, c: char): (r: seq<string>)
    ensures |r| >= 1
    ensures forall i :: 0 <= i < |r| ==> c !in r[i]
  {
    if t == [] then [""]
    else
      var rest := SplitOn(t[1..], c);
      if t[0] == c then [""] + rest else [[t[0]] + rest[0]] + rest[1..]
  }

  /** `[c].join(t.split(c)) == t`. */
  lemma {:induction false} JoinSplitOn(t: string, c: char)
    ensures JoinWith(SplitOn(t, c), [c]) == t
  {
    if t != [] {
      var rest := SplitOn(t[1..], c);
      JoinSplitOn(t[1..], c);
      if t[0] == c {
        assert SplitOn(t, c) == [""] + rest;
        assert ([""] + rest)[1..] == rest;
      } else {
        var r := SplitOn(t, c);
        assert r[1..] == rest[1..];
        if |rest| > 1 {
          assert rest == [rest[0]] + rest[1..];
          assert JoinWith(rest, [c]) == rest[0] + [c] + JoinWith(rest[1..], [c]);
        }
      }
    }
  }

  /** Splitting at one separator splits the two sides independently. */
  lemma {:induction false} SplitOnConcat(a: string, b: string, c: char)
    ensures SplitOn(a + [c] + b, c) == SplitOn(a, c) + SplitOn(b, c)
    decreases |a|
  {
    if a == [] {
      assert ([c] + b)[1..] == b;
    } else {
      assert (a + [c] + b)[1..] == a[1..] + [c] + b;
      SplitOnConcat(a[1..], b, c);
    }
  }

  /** `c.join(parts).split(c) == parts` when no part contains `c`. */
  lemma {:induction false} SplitOnJoin(parts: seq<string>, c: char)
    requires parts != []
    requires forall i :: 0 <= i < |parts| ==> c !in parts[i]
    ensures SplitOn(JoinWith(parts, [c]), c) == parts
    decreases |parts|
  {
    if |parts| == 1 {
      SplitOnNoSeparator(parts[0], c);
    } else {
      SplitOnNoSeparator(parts[0], c);
      SplitOnConcat(parts[0], JoinWith(parts[1..], [c]), c);
      SplitOnJoin(parts[1..], c);
    }
  }

  lemma {:induction false} SplitOnNoSeparator(t: string, c: char)
    requires c !in t
    ensures SplitOn(t, c) == [t]
  {
    if t != [] {
      SplitOnNoSeparator(t[1..], c);
      assert [t[0]] + t[1..] == t;
    }
  }

  // ---------------------------------------------------------------------
  // "%d" % n and int(s)
  // ---------------------------------------------------------------------

  predicate IsDigit(c: char) {
    '0' <= c <= '9'
  }

  function DigitChar(d: nat): char
    requires d < 10
  {
    "0123456789"[d]
  }

  function DigitValue(c: char): nat
    requires IsDigit(c)
  {
    (c as int) - ('0' as int)
  }

  lemma DigitCharValue(d: nat)
    requires d < 10
    ensures IsDigit(DigitChar(d)) && DigitValue(DigitChar(d)) == d
  {
    if d < 5 {
      assert d == 0 || d == 1 || d == 2 || d == 3 || d == 4;
    } else {
      assert d == 5 || d == 6 || d == 7 || d == 8 || d == 9;
    }
  }

  /** `"%d" % n` (equivalently `str(n)`) for a non-negative integer. */
  function Decimal(n: nat): (s: string)
    ensures |s| > 0
    ensures forall i :: 0 <= i < |s| ==> IsDigit(s[i])
  {
    if n < 10 then [DigitChar(n)] else Decimal(n / 10) + [DigitChar(n % 10)]
  }

  /** `str(i)` for any integer. */
  function IntToString(i: int): string {
    if i < 0 then "-" + Decimal(-i) else Decimal(i)
  }

  /**
   * What `int` accepts after an optional sign: ASCII digits, with single
   * underscores allowed between two digits (`"1_000"`).
   */
  predicate ValidDigits(s: string) {
    && |s| > 0
    && IsDigit(s[0])
    && IsDigit(s[|s| - 1])
    && DigitsOrUnderscores(s)
    && forall i :: 0 < i < |s| && s[i] == '_' ==> IsDigit(s[i - 1])
  }

  predicate DigitsOrUnderscores(s: string) {
    forall i :: 0 <= i < |s| ==> IsDigit(s[i]) || s[i] == '_'
  }

  /** The value of a digit string, underscores ignored. */
  function DigitsValue(s: string): nat
    requires DigitsOrUnderscores(s)
  {
    if s == [] then 0
    else if s[|s| - 1] == '_' then DigitsValue(s[..|s| - 1])
    else 10 * DigitsValue(s[..|s| - 1]) + DigitValue(s[|s| - 1])
  }

  /** `int(s)` on a string without surrounding whitespace; `None` where Python raises ValueError. */
  function ParseInt(s: string): Option<int> {
    if |s| > 0 && (s[0] == '+' || s[0] == '-') then
      var body := s[1..];
      if ValidDigits(body) then
        var v: int := DigitsValue(body);
        Some(if s[0] == '-' then -v else v)
      else None
    else if ValidDigits(s) then Some(DigitsValue(s))
    else None
  }

  lemma {:induction false} DigitsValueOfDecimal(n: nat)
    ensures DigitsValue(Decimal(n)) == n
  {
    if n >= 10 {
      var s := Decimal(n);
      assert s[..|s| - 1] == Decimal(n / 10);
      DigitsValueOfDecimal(n / 10);
    }
  }

  /** `int(str(i)) == i`: the decimal form reads back as the same integer. */
  lemma ParseIntOfString(i: int)
    ensures ParseInt(IntToString(i)) == Some(i)
  {
    var n: nat := if i < 0 then -i else i;
    var d := Decimal(n);
    assert ValidDigits(d);
    DigitsValueOfDecimal(n);
    if i < 0 {
      var s := IntToString(i);
      assert s[0] == '-' && s[1..] == d;
    } else {
      assert d[0] != '+' && d[0] != '-';
    }
  }

  // ---------------------------------------------------------------------
  // a <= b on str: lexicographic by code point, a proper prefix first
  // ---------------------------------------------------------------------

  predicate Below(a: string, b: string) {
    a == [] || (b != [] && (a[0] < b[0] || (a[0] == b[0] && Below(a[1..], b[1..]))))
  }

  lemma {:induction false} BelowReflexive(a: string)
    ensures Below(a, a)
  {
    if a != [] {
      BelowReflexive(a[1..]);
    }
  }

  lemma {:induction false} BelowTotal(a: string, b: string)
    ensures Below(a, b) || Below(b, a)
  {
    if a != [] && b != [] && a[0] == b[0] {
      BelowTotal(a[1..], b[1..]);
    }
  }

  lemma {:induction false} BelowAntisymmetric(a: string, b: string)
    requires Below(a, b) && Below(b, a)
    ensures a == b
  {
    if a != [] && b != [] {
      BelowAntisymmetric(a[1..], b[1..]);
      assert a == [a[0]] + a[1..] && b == [b[0]] + b[1..];
    }
  }

  lemma {:induction false} BelowTransitive(a: string, b: string, c: string)
    requires Below(a, b) && Below(b, c)
    ensures Below(a, c)
  {
    if a != [] && b != [] && c != [] && a[0] == b[0] == c[0] {
      BelowTransitive(a[1..], b[1..], c[1..]);
    }
  }

  lemma StartsWithTrans(s: string, t: string, p: string)
    requires StartsWith(s, t) && StartsWith(t, p)
    ensures StartsWith(s, p)
  {
    assert s[..|p|] == t[..|p|];
  }

  lemma EndsWithTrans(s: string, t: string, p: string)
    requires EndsWith(s, t) && EndsWith(t, p)
    ensures EndsWith(s, p)
  {
    assert s[|s| - |p|..] == t[|t| - |p|..];
  }
}
