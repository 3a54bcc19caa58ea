/** JavaScript's `parseInt(text)` called without a radix, as the handlers
    apply it to route parameters, query strings and form inputs: leading
    white space is skipped, a sign is read, a `0x` or `0X` prefix selects base
    16 and otherwise base 10 applies, and the longest run of digits of that
    base is the value. `None` stands for NaN. */
module JsNumber {
  import opened Wrappers

  predicate IsDigit(c: char) {
    '0' <= c <= '9'
  }

  /** JavaScript white space and line terminators: tab, line feed, vertical
      tab, form feed, carriage return, the space separators of Unicode, the
      byte order mark and the line and paragraph separators. */
  predicate IsSpace(c: char) {
    var n := c as int;
    || n == 0x09 || n == 0x0A || n == 0x0B || n == 0x0C || n == 0x0D
    || n == 0x20 || n == 0xA0 || n == 0x1680 || 0x2000 <= n <= 0x200A
    || n == 0x2028 || n == 0x2029 || n == 0x202F || n == 0x205F
    || n == 0x3000 || n == 0xFEFF
  }

  /** The value of `c` as a hexadecimal digit, or 16 when it is none. */
  function DigitValue(c: char): (v: nat)
    ensures v <= 16
    ensures v < 10 <==> IsDigit(c)
  {
    if '0' <= c <= '9' then c as int - '0' as int
    else if 'a' <= c <= 'f' then c as int - 'a' as int + 10
    else if 'A' <= c <= 'F' then c as int - 'A' as int + 10
    else 16
  }

  predicate AllDigitsIn(s: string, radix: nat) {
    forall i :: 0 <= i < |s| ==> DigitValue(s[i]) < radix
  }

  predicate AllDigits(s: string) {
    forall i :: 0 <= i < |s| ==> IsDigit(s[i])
  }

  /** Drops leading white space. */
  function TrimStart(s: string): (r: string)
    ensures |r| <= |s|
    ensures |r| > 0 ==> !IsSpace(r[0])
    ensures |s| > 0 && !IsSpace(s[0]) ==> r == s
  {
    if |s| > 0 && IsSpace(s[0]) then TrimStart(s[1..]) else s
  }

  /** The longest prefix of `s` made of digits of base `radix`. */
  function DigitPrefix(s: string, radix: nat): (r: string)
    ensures |r| <= |s| && r == s[..|r|]
    ensures AllDigitsIn(r, radix)
    ensures |r| < |s| ==> DigitValue(s[|r|]) >= radix
  {
    if |s| > 0 && DigitValue(s[0]) < radix then [s[0]] + DigitPrefix(s[1..], radix) else []
  }

  /** Value of a numeral of base `radix`, most significant digit first. */
  function DigitsValue(s: string, radix: nat): nat
    requires AllDigitsIn(s, radix)
  {
    if |s| == 0 then 0 else DigitsValue(s[..|s| - 1], radix) * radix + DigitValue(s[|s| - 1])
  }

  /** The text after an optional leading sign. */
  function Unsigned(t: string): string {
    if |t| > 0 && (t[0] == '-' || t[0] == '+') then t[1..] else t
  }

  predicate HasHexPrefix(u: string) {
    |u| >= 2 && u[0] == '0' && (u[1] == 'x' || u[1] == 'X')
  }

  /** The base a radix-less `parseInt` reads the unsigned text in, and the text
      its digits are taken from. */
  function BaseAndBody(u: string): (r: (nat, string))
    ensures r.0 == 10 || r.0 == 16
  {
    if HasHexPrefix(u) then (16, u[2..]) else (10, u)
  }

  /** The digits read from text whose white space is already skipped, with
      their base. */
  function Numeral(t: string): (r: (nat, string))
    ensures r.0 == 10 || r.0 == 16
    ensures AllDigitsIn(r.1, r.0)
  {
    var b := BaseAndBody(Unsigned(t));
    (b.0, DigitPrefix(b.1, b.0))
  }

  /** `parseInt` after its white space is skipped. */
  function ParseTrimmed(t: string): (r: Option<int>)
    ensures r.None? <==> |Numeral(t).1| == 0
    ensures r.Some? && r.value < 0 ==> t[0] == '-'
  {
    var n := Numeral(t);
    var magnitude: int := DigitsValue(n.1, n.0);
    if |n.1| == 0 then None
    else if |t| > 0 && t[0] == '-' then Some(-magnitude)
    else Some(magnitude)
  }

  /** `parseInt(s)`: NaN (`None`) exactly when no digit follows the white
      space, the sign and the base prefix; negative only after a minus sign. */
  function ParseInt(s: string): (r: Option<int>)
    ensures r.None? <==> |Numeral(TrimStart(s)).1| == 0
    ensures r.Some? && r.value < 0 ==> TrimStart(s)[0] == '-'
  {
    ParseTrimmed(TrimStart(s))
  }

  function DigitChar(d: nat): char
    requires d < 10
  {
    ('0' as int + d) as char
  }

  /** Decimal rendering of a natural number, as `String(n)` prints it. */
  function ShowNat(n: nat): (s: string)
    ensures |s| > 0 && AllDigits(s)
    ensures n >= 10 ==> s[0] != '0'
  {
    if n < 10 then [DigitChar(n)] else ShowNat(n / 10) + [DigitChar(n % 10)]
  }

  /** Decimal rendering of an integer, with a leading minus when negative. */
  function Show(n: int): string {
    if n < 0 then "-" + ShowNat(-n) else ShowNat(n)
  }

  lemma {:induction false} ShowNatValue(n: nat)
    ensures AllDigitsIn(ShowNat(n), 10)
    ensures DigitsValue(ShowNat(n), 10) == n
  {
    var s := ShowNat(n);
    if n >= 10 {
      ShowNatValue(n / 10);
      assert s[..|s| - 1] == ShowNat(n / 10);
    }
  }

  /** A run of digits of the base is read whole. */
  lemma DigitPrefixOfDigits(s: string, radix: nat)
    requires AllDigitsIn(s, radix)
    ensures DigitPrefix(s, radix) == s
  {
  }

  /** Parsing what `Show` prints gives the number back: the round trip a
      numeric route parameter such as `:index` relies on. A decimal rendering
      never starts with `0x`, so the base stays 10. */
  lemma ParseShow(n: int)
    ensures ParseInt(Show(n)) == Some(n)
  {
    var m := if n < 0 then -n else n;
    ShowNatValue(m);
    var digits := ShowNat(m);
    assert !IsSpace(Show(n)[0]);
    assert Unsigned(Show(n)) == digits;
    assert !HasHexPrefix(digits);
    DigitPrefixOfDigits(digits, 10);
  }

  /** Skipping white space in front of more white space skips both. */
  lemma {:induction false} TrimSpaces(w: string, s: string)
    requires forall i :: 0 <= i < |w| ==> IsSpace(w[i])
    ensures TrimStart(w + s) == TrimStart(s)
    decreases |w|
  {
    if |w| > 0 {
      assert (w + s)[1..] == w[1..] + s;
      TrimSpaces(w[1..], s);
    } else {
      assert w + s == s;
    }
  }

  /** Leading JavaScript white space, of any kind, does not change the result. */
  lemma SpaceIgnored(w: string, s: string)
    requires forall i :: 0 <= i < |w| ==> IsSpace(w[i])
    ensures ParseInt(w + s) == ParseInt(s)
  {
    TrimSpaces(w, s);
  }

  /** After a `0x` prefix the digits are read in base 16; a prefix with no
      hexadecimal digit after it is NaN. */
  lemma HexPrefix(h: string)
    requires AllDigitsIn(h, 16)
    ensures ParseInt("0x" + h) == if |h| == 0 then None else Some(DigitsValue(h, 16))
  {
    var s := "0x" + h;
    assert s[0] == '0' && s[1] == 'x' && s[2..] == h;
    assert TrimStart(s) == s;
    assert Unsigned(s) == s;
    assert BaseAndBody(s) == (16, h);
    DigitPrefixOfDigits(h, 16);
    assert Numeral(s) == (16, h);
  }

  /** Text with no digit after its optional sign parses to NaN. */
  lemma ParseNoDigits(s: string)
    requires |s| > 0 && !IsSpace(s[0]) && DigitValue(s[0]) >= 10 && s[0] != '-' && s[0] != '+'
    ensures ParseInt(s) == None
  {
  }

  /** A `0x` prefix switches to base 16: `"0x1"` is 1 and `"0x10"` is 16,
      where a decimal reading would give 0. */
  lemma HexExamples()
    ensures ParseInt("0x1") == Some(1)
    ensures ParseInt("0x10") == Some(16)
  {
    HexPrefix("1");
    assert "0x" + "1" == "0x1";
    assert DigitsValue("1", 16) == 1 by { assert "1"[..0] == []; }
    HexPrefix("10");
    assert "0x" + "10" == "0x10";
    assert DigitsValue("10", 16) == 16 by { assert "10"[..1] == "1" && "1"[..0] == []; }
  }

  /** A `0x` prefix with no hexadecimal digit after it is NaN, where a decimal
      reading would give 0. */
  lemma HexWithoutDigits()
    ensures ParseInt("0x") == None
    ensures ParseInt("0xZ") == None
  {
    HexPrefix("");
    assert "0x" + "" == "0x";
    var z := "0xZ";
    assert TrimStart(z) == z && Unsigned(z) == z && BaseAndBody(z) == (16, "Z");
    assert DigitPrefix("Z", 16) == [];
  }

  /** A no-break space in front of a digit is skipped like a plain space. */
  lemma NoBreakSpaceSkipped()
    ensures ParseInt([0xA0 as char, '1']) == Some(1)
  {
    var nbsp := [0xA0 as char];
    SpaceIgnored(nbsp, "1");
    ParseShow(1);
    assert nbsp + "1" == [0xA0 as char, '1'];
  }
}
