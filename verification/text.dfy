/** String helpers with the semantics of the Python built-ins the registry
    code relies on: `str.strip()`, `str.replace(" ", "")`, `in` on strings,
    string ordering, `int(str)` and the decimal formatting of numbers. */
module Text {
  import opened Wrappers

  // ---------------------------------------------------------------------
  // Whitespace and stripping
  // ---------------------------------------------------------------------

  /** The characters Python's `str.isspace` accepts, by code point. */
  predicate IsSpace(c: char) {
    var n := c as int;
    || 0x09 <= n <= 0x0D
    || 0x1C <= n <= 0x20
    || n == 0x85 || n == 0xA0 || n == 0x1680
    || 0x2000 <= n <= 0x200A
    || n == 0x2028 || n == 0x2029 || n == 0x202F || n == 0x205F || n == 0x3000
  }

  /** `s` without its maximal whitespace prefix. */
  function TrimLeft(s: string): (r: string)
    ensures |r| <= |s| && r == s[|s| - |r|..]
    ensures |r| > 0 ==> !IsSpace(r[0])
    ensures forall k :: 0 <= k < |s| - |r| ==> IsSpace(s[k])
    decreases |s|
  {
    if |s| > 0 && IsSpace(s[0]) then TrimLeft(s[1..]) else s
  }

  /** `s` without its maximal whitespace suffix. */
  function TrimRight(s: string): (r: string)
    ensures |r| <= |s| && r == s[..|r|]
    ensures |r| > 0 ==> !IsSpace(r[|r| - 1])
    ensures forall k :: |r| <= k < |s| ==> IsSpace(s[k])
    decreases |s|
  {
    if |s| > 0 && IsSpace(s[|s| - 1]) then TrimRight(s[..|s| - 1]) else s
  }

  /** Trimming the left end keeps every non-whitespace character and adds none. */
  lemma {:induction false} TrimLeftKeepsContent(s: string)
    ensures forall k :: 0 <= k < |s| && !IsSpace(s[k]) ==> s[k] in TrimLeft(s)
    ensures forall c :: c in TrimLeft(s) ==> c in s
    decreases |s|
  {
    if |s| > 0 && IsSpace(s[0]) {
      var t := s[1..];
      TrimLeftKeepsContent(t);
      assert TrimLeft(s) == TrimLeft(t);
      forall k | 0 <= k < |s| && !IsSpace(s[k])
        ensures s[k] in TrimLeft(s)
      {
        assert s[k] == t[k - 1];
      }
      forall c | c in TrimLeft(s)
        ensures c in s
      {
        assert c in t;
      }
    }
  }

  /** Trimming the right end keeps every non-whitespace character and adds none. */
  lemma TrimRightKeepsContent(s: string)
    ensures forall k :: 0 <= k < |s| && !IsSpace(s[k]) ==> s[k] in TrimRight(s)
    ensures forall c :: c in TrimRight(s) ==> c in s
  {
    var r := TrimRight(s);
    forall k | 0 <= k < |s| && !IsSpace(s[k])
      ensures s[k] in r
    {
      assert k < |r|;
      assert s[k] == r[k];
    }
    forall c | c in r
      ensures c in s
    {
      var i :| 0 <= i < |r| && r[i] == c;
      assert s[i] == c;
    }
  }

  /** Python's `s.strip()`: whitespace removed at both ends and nowhere else. */
  function Strip(s: string): (r: string)
    ensures |r| > 0 ==> !IsSpace(r[0]) && !IsSpace(r[|r| - 1])
    ensures forall k :: 0 <= k < |s| && !IsSpace(s[k]) ==> s[k] in r
    ensures forall c :: c in r ==> c in s
    ensures exists i, j :: 0 <= i <= j <= |s| && r == s[i..j]
                           && (forall k :: 0 <= k < i || j <= k < |s| ==> IsSpace(s[k]))
  {
    var l := TrimLeft(s);
    TrimLeftKeepsContent(s);
    TrimRightKeepsContent(l);
    TrimIsSlice(s);
    TrimRight(l)
  }

  /** Trimming both ends cuts out one contiguous slice, with only
      whitespace on either side of it. */
  lemma TrimIsSlice(s: string)
    ensures exists i, j :: 0 <= i <= j <= |s| && TrimRight(TrimLeft(s)) == s[i..j]
                           && (forall k :: 0 <= k < i || j <= k < |s| ==> IsSpace(s[k]))
  {
    var l := TrimLeft(s);
    SliceBetweenSpaces(s, l, TrimRight(l));
  }

  /** A prefix of a suffix, with whitespace cut off on both sides, is a
      slice with whitespace on both sides. */
  lemma SliceBetweenSpaces(s: string, l: string, r: string)
    requires |l| <= |s| && l == s[|s| - |l|..] && |r| <= |l| && r == l[..|r|]
    requires forall k :: 0 <= k < |s| - |l| ==> IsSpace(s[k])
    requires forall k :: |r| <= k < |l| ==> IsSpace(l[k])
    ensures exists i, j :: 0 <= i <= j <= |s| && r == s[i..j]
                           && (forall k :: 0 <= k < i || j <= k < |s| ==> IsSpace(s[k]))
  {
    var i, j := |s| - |l|, |s| - |l| + |r|;
    assert r == s[i..j];
    forall k | 0 <= k < i || j <= k < |s|
      ensures IsSpace(s[k])
    {
      if j <= k {
        assert s[k] == l[k - i];
      }
    }
  }

  /** A string with no whitespace at either end is its own strip. */
  lemma StripNoEdgeSpace(s: string)
    requires |s| > 0 ==> !IsSpace(s[0]) && !IsSpace(s[|s| - 1])
    ensures Strip(s) == s
  {
  }

  /** Stripping twice is stripping once. */
  lemma StripIdempotent(s: string)
    ensures Strip(Strip(s)) == Strip(s)
  {
    StripNoEdgeSpace(Strip(s));
  }

  // ---------------------------------------------------------------------
  // Removing U+0020 spaces, and substring search
  // ---------------------------------------------------------------------

  /** Python's `s.replace(" ", "")`: only U+0020 is removed. */
  function RemoveSpaces(s: string): (r: string)
    ensures ' ' !in r
    ensures |r| <= |s|
    decreases |s|
  {
    if |s| == 0 then []
    else
      (if s[0] == ' ' then [] else [s[0]]) + RemoveSpaces(s[1..])
  }

  /** Removing spaces drops exactly the U+0020 characters: every other
      character keeps its number of occurrences, and text without a space
      is unchanged. */
  lemma {:induction false} RemoveSpacesKeepsContent(s: string)
    ensures |RemoveSpaces(s)| == |s| - multiset(s)[' ']
    ensures forall c :: c != ' ' ==> multiset(RemoveSpaces(s))[c] == multiset(s)[c]
    ensures ' ' !in s ==> RemoveSpaces(s) == s
    decreases |s|
  {
    if |s| > 0 {
      RemoveSpacesKeepsContent(s[1..]);
      assert s == [s[0]] + s[1..];
    }
  }

  /** Removing spaces distributes over concatenation. */
  lemma {:induction false} RemoveSpacesConcat(a: string, b: string)
    ensures RemoveSpaces(a + b) == RemoveSpaces(a) + RemoveSpaces(b)
    decreases |a|
  {
    if |a| > 0 {
      assert (a + b)[1..] == a[1..] + b;
      RemoveSpacesConcat(a[1..], b);
    } else {
      assert a + b == b;
    }
  }

  /** Joining two strings with a space and removing spaces is removing
      spaces from each. */
  lemma RemoveSpacesJoin(a: string, b: string)
    ensures RemoveSpaces(a + " " + b) == RemoveSpaces(a) + RemoveSpaces(b)
  {
    calc {
      RemoveSpaces(a + " " + b);
    == { assert a + " " + b == a + (" " + b); }
      RemoveSpaces(a + (" " + b));
    == { RemoveSpacesConcat(a, " " + b); }
      RemoveSpaces(a) + RemoveSpaces(" " + b);
    == { assert (" " + b)[0] == ' ' && (" " + b)[1..] == b; }
      RemoveSpaces(a) + RemoveSpaces(b);
    }
  }

  /** A string without U+0020 is unchanged by removing spaces. */
  lemma {:induction false} RemoveSpacesNoSpace(s: string)
    requires ' ' !in s
    ensures RemoveSpaces(s) == s
    decreases |s|
  {
    if |s| > 0 {
      assert s[0] != ' ';
      RemoveSpacesNoSpace(s[1..]);
    }
  }

  /** Removing spaces twice is removing them once. */
  lemma RemoveSpacesIdempotent(s: string)
    ensures RemoveSpaces(RemoveSpaces(s)) == RemoveSpaces(s)
  {
    RemoveSpacesNoSpace(RemoveSpaces(s));
  }

  /** `p` occurs in `s` starting at offset `i`. */
  predicate OccursAt(s: string, p: string, i: int) {
    0 <= i && i + |p| <= |s| && forall k :: 0 <= k < |p| ==> s[i + k] == p[k]
  }

  /** Python's `p in s` on strings: `p` occurs contiguously in `s`. */
  predicate Contains(s: string, p: string) {
    exists i :: 0 <= i <= |s| - |p| && OccursAt(s, p, i)
  }

  /** An occurrence at a known offset is an occurrence. */
  lemma ContainsAt(s: string, p: string, i: nat)
    requires OccursAt(s, p, i)
    ensures Contains(s, p)
  {
  }

  /** The usual way to refute an occurrence: some character of `p` is
      missing from `s`. */
  lemma NotContainsByChar(s: string, p: string, k: nat)
    requires k < |p| && p[k] !in s
    ensures !Contains(s, p)
  {
  }

  // ---------------------------------------------------------------------
  // Python string ordering
  // ---------------------------------------------------------------------

  /** Python's `a < b` on `str`: lexicographic by code point, a proper
      prefix before its extensions. */
  predicate LexLess(a: string, b: string)
    decreases |a|
  {
    if |a| == 0 then |b| > 0
    else |b| > 0 && (a[0] < b[0] || (a[0] == b[0] && LexLess(a[1..], b[1..])))
  }

  lemma {:induction false} LexIrreflexive(a: string)
    ensures !LexLess(a, a)
    decreases |a|
  {
    if |a| > 0 {
      LexIrreflexive(a[1..]);
    }
  }

  lemma {:induction false} LexTransitive(a: string, b: string, c: string)
    requires LexLess(a, b) && LexLess(b, c)
    ensures LexLess(a, c)
    decreases |a|
  {
    if |a| > 0 && a[0] == b[0] && b[0] == c[0] {
      LexTransitive(a[1..], b[1..], c[1..]);
    }
  }

  /** Distinct strings are always ordered one way or the other. */
  lemma {:induction false} LexTotal(a: string, b: string)
    requires a != b
    ensures LexLess(a, b) || LexLess(b, a)
    decreases |a|
  {
    if |a| > 0 && |b| > 0 && a[0] == b[0] {
      assert a == [a[0]] + a[1..] && b == [b[0]] + b[1..];
      LexTotal(a[1..], b[1..]);
    }
  }

  // ---------------------------------------------------------------------
  // Decimal digits
  // ---------------------------------------------------------------------

  predicate IsDigit(c: char) {
    '0' <= c <= '9'
  }

  predicate AllDigits(s: string) {
    forall k :: 0 <= k < |s| ==> IsDigit(s[k])
  }

  function DigitChar(d: nat): (c: char)
    requires d < 10
    ensures IsDigit(c)
  {
    ('0' as int + d) as char
  }

  /** The number an ASCII digit string denotes (leading zeros allowed). */
  function DigitsValue(s: string): (v: nat)
    requires AllDigits(s)
    decreases |s|
  {
    if |s| == 0 then 0
    else DigitsValue(s[..|s| - 1]) * 10 + (s[|s| - 1] as int - '0' as int)
  }

  function Pow10(n: nat): (p: nat)
    ensures p >= 1
  {
    if n == 0 then 1 else 10 * Pow10(n - 1)
  }

  /** `v` written with exactly `width` digits, zero-padded on the left. */
  function PadDigits(v: nat, width: nat): (s: string)
    ensures |s| == width && AllDigits(s)
  {
    if width == 0 then "" else PadDigits(v / 10, width - 1) + [DigitChar(v % 10)]
  }

  /** Padded digits read back as the number they were written from. */
  lemma {:induction false} PadDigitsValue(v: nat, width: nat)
    requires v < Pow10(width)
    ensures DigitsValue(PadDigits(v, width)) == v
  {
    if width > 0 {
      var s := PadDigits(v, width);
      assert s[..|s| - 1] == PadDigits(v / 10, width - 1);
      assert v / 10 < Pow10(width - 1);
      PadDigitsValue(v / 10, width - 1);
      assert DigitsValue(s) == DigitsValue(s[..|s| - 1]) * 10 + v % 10;
    }
  }

  /** A digit string is the padded rendering of its own value. */
  lemma {:induction false} DigitsValuePad(s: string)
    requires AllDigits(s)
    ensures DigitsValue(s) < Pow10(|s|)
    ensures PadDigits(DigitsValue(s), |s|) == s
    decreases |s|
  {
    if |s| > 0 {
      var init := s[..|s| - 1];
      DigitsValuePad(init);
      var v := DigitsValue(s);
      assert v / 10 == DigitsValue(init) && v % 10 == s[|s| - 1] as int - '0' as int;
      assert s == init + [s[|s| - 1]];
    }
  }

  /** The shortest decimal rendering of a natural number, as `str(n)`. */
  function NatToString(n: nat): (s: string)
    ensures |s| > 0 && AllDigits(s)
  {
    if n < 10 then [DigitChar(n)] else NatToString(n / 10) + [DigitChar(n % 10)]
  }

  lemma {:induction false} NatToStringValue(n: nat)
    ensures DigitsValue(NatToString(n)) == n
  {
    if n >= 10 {
      var s := NatToString(n);
      assert s[..|s| - 1] == NatToString(n / 10);
      NatToStringValue(n / 10);
    }
  }

  /** Python's `str(n)` / `f"{n}"` for an `int`. */
  function IntToString(n: int): (s: string)
    ensures forall c :: c in s ==> IsDigit(c) || c == '-'
    ensures |s| > 0
  {
    if n < 0 then "-" + NatToString(-n) else NatToString(n)
  }

  /** A sign-optional decimal numeral with no surrounding whitespace. */
  function ParseSigned(t: string): (r: Option<int>)
    ensures r.Some? ==> |t| > 0
  {
    if |t| > 0 && (t[0] == '-' || t[0] == '+') then
      var digits := t[1..];
      if |digits| > 0 && AllDigits(digits) then
        Some(if t[0] == '-' then -(DigitsValue(digits) as int) else DigitsValue(digits))
      else None
    else if |t| > 0 && AllDigits(t) then Some(DigitsValue(t))
    else None
  }

  /** Python's `int(s)` restricted to ASCII: surrounding whitespace, an
      optional sign and at least one digit; anything else does not parse. */
  function ParseInt(s: string): (r: Option<int>)
    ensures r.Some? ==> |Strip(s)| > 0
  {
    ParseSigned(Strip(s))
  }

  /** A rendered integer has no whitespace at its ends. */
  lemma IntToStringNoEdgeSpace(n: int)
    ensures Strip(IntToString(n)) == IntToString(n)
  {
    var s := IntToString(n);
    assert s[0] in s && s[|s| - 1] in s;
    StripNoEdgeSpace(s);
  }

  /** Formatting an integer and parsing it back gives the integer. */
  lemma IntToStringParses(n: int)
    ensures ParseInt(IntToString(n)) == Some(n)
  {
    IntToStringNoEdgeSpace(n);
    var d := NatToString(if n < 0 then -n else n);
    NatToStringValue(if n < 0 then -n else n);
    if n < 0 {
      assert IntToString(n)[1..] == d;
    } else {
      assert IntToString(n)[0] != '-' && IntToString(n)[0] != '+';
    }
  }

  /** Round half to even, the rounding Python's `format` applies. */
  function RoundHalfEven(x: real): (n: int)
    ensures x - 1.0 / 2.0 <= n as real <= x + 1.0 / 2.0
  {
    var f := x.Floor;
    var frac := x - f as real;
    if frac < 1.0 / 2.0 then f
    else if frac > 1.0 / 2.0 then f + 1
    else if f % 2 == 0 then f
    else f + 1
  }

  /** Python's `f"{a:.2f}"` on the exact value `a`. */
  function Fixed2(a: real): (s: string)
    ensures forall c :: c in s ==> IsDigit(c) || c == '-' || c == '.'
  {
    var m := if a < 0.0 then -a else a;
    var cents: nat := RoundHalfEven(m * 100.0);
    (if a < 0.0 then "-" else "") + NatToString(cents / 100) + "." + PadDigits(cents % 100, 2)
  }
}
