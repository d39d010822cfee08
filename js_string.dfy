/** The two JavaScript string built-ins the core relies on:
    `String.prototype.trim` and the decimal rendering of a non-negative
    integer inside a template literal. */
module JsString {

  /** The code points that `trim` strips: ECMAScript's WhiteSpace
      (tab, vertical tab, form feed, space, no-break space, the byte order
      mark and every space separator) and LineTerminator (line feed,
      carriage return, line and paragraph separator). */
  predicate IsWhitespace(c: char) {
    var n := c as int;
    n == 0x09 || n == 0x0A || n == 0x0B || n == 0x0C || n == 0x0D ||
    n == 0x20 || n == 0xA0 || n == 0x1680 || (0x2000 <= n <= 0x200A) ||
    n == 0x2028 || n == 0x2029 || n == 0x202F || n == 0x205F ||
    n == 0x3000 || n == 0xFEFF
  }

  /** Drops the leading whitespace: what is left is a suffix of `s`, only
      whitespace was dropped, and it does not start with whitespace. */
  function TrimStart(s: string): (r: string)
    ensures |r| <= |s| && r == s[|s| - |r|..]
    ensures forall k | 0 <= k < |s| - |r| :: IsWhitespace(s[k])
    ensures r != [] ==> !IsWhitespace(r[0])
  {
    if s != [] && IsWhitespace(s[0]) then TrimStart(s[1..]) else s
  }

  /** Drops the trailing whitespace: what is left is a prefix of `s`, only
      whitespace was dropped, and it does not end with whitespace. */
  function TrimEnd(s: string): (r: string)
    ensures |r| <= |s| && r == s[..|r|]
    ensures forall k | |r| <= k < |s| :: IsWhitespace(s[k])
    ensures r != [] ==> !IsWhitespace(r[|r| - 1])
  {
    if s != [] && IsWhitespace(s[|s| - 1]) then TrimEnd(s[..|s| - 1]) else s
  }

  /** `s.trim()`: a slice of `s` with no whitespace at either end, empty
      exactly when `s` consists of whitespace only. */
  function Trim(s: string): (r: string)
    ensures exists i, j | 0 <= i <= j <= |s| ::
      && r == s[i..j]
      && (forall k | 0 <= k < i :: IsWhitespace(s[k]))
      && (forall k | j <= k < |s| :: IsWhitespace(s[k]))
    ensures r != [] ==> !IsWhitespace(r[0]) && !IsWhitespace(r[|r| - 1])
    ensures r == [] <==> forall k | 0 <= k < |s| :: IsWhitespace(s[k])
  {
    var front := TrimStart(s);
    var r := TrimEnd(front);
    var i, j := |s| - |front|, |s| - |front| + |r|;
    assert r == s[i..j];
    assert forall k | j <= k < |s| :: IsWhitespace(s[k]) by {
      forall k | j <= k < |s| ensures IsWhitespace(s[k]) {
        assert s[k] == front[k - i];
      }
    }
    r
  }

  function DigitChar(d: nat): (c: char)
    requires d < 10
  {
    "0123456789"[d]
  }

  function DigitValue(c: char): nat {
    if '0' <= c <= '9' then (c as int - '0' as int) else 0
  }

  predicate IsDigit(c: char) {
    '0' <= c <= '9'
  }

  /** A canonical decimal numeral: non-empty, digits only, and no leading
      zero unless it is `0` itself. */
  predicate IsDecimal(s: string) {
    s != [] && (forall k | 0 <= k < |s| :: IsDigit(s[k])) && (|s| > 1 ==> s[0] != '0')
  }

  /** `${n}` for a non-negative integer `n`: its decimal digits, with no
      leading zero except for `0` itself. */
  function NatToString(n: nat): (r: string)
    ensures r != []
    ensures forall k | 0 <= k < |r| :: IsDigit(r[k])
    ensures |r| > 1 ==> r[0] != '0'
  {
    if n < 10 then [DigitChar(n)] else NatToString(n / 10) + [DigitChar(n % 10)]
  }

  /** Reads a string of decimal digits back as a number (the inverse of
      `NatToString`). */
  function ParseDecimal(s: string): nat {
    if s == [] then 0 else ParseDecimal(s[..|s| - 1]) * 10 + DigitValue(s[|s| - 1])
  }

  /** The decimal rendering loses nothing: reading it back gives `n`. */
  lemma {:induction false} ParseNatToString(n: nat)
    ensures ParseDecimal(NatToString(n)) == n
  {
    var s := NatToString(n);
    if n < 10 {
      assert s[..|s| - 1] == [];
    } else {
      var head := NatToString(n / 10);
      assert s[..|s| - 1] == head;
      ParseNatToString(n / 10);
    }
  }

  lemma DigitRoundTrip(c: char)
    requires IsDigit(c)
    ensures DigitValue(c) < 10 && DigitChar(DigitValue(c)) == c
  {
  }

  /** Every canonical decimal numeral is the rendering of its value, so a
      value has exactly one canonical numeral. */
  lemma {:induction false} DecimalCanonical(v: string)
    requires IsDecimal(v)
    ensures v == NatToString(ParseDecimal(v))
    decreases |v|
  {
    var c := v[|v| - 1];
    var w := v[..|v| - 1];
    DigitRoundTrip(c);
    if |v| == 1 {
      assert w == [];
    } else {
      assert w[0] == v[0];
      DecimalCanonical(w);
      var m := ParseDecimal(w);
      assert NatToString(0) == "0";
      var n := m * 10 + DigitValue(c);
      assert n / 10 == m && n % 10 == DigitValue(c);
      assert v == w + [c];
    }
  }

  /** Different numbers render differently. */
  lemma NatToStringInjective(m: nat, n: nat)
    requires NatToString(m) == NatToString(n)
    ensures m == n
  {
    ParseNatToString(m);
    ParseNatToString(n);
  }
}
