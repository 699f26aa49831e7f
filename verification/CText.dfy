/**
 * The pieces of the C library that the address parser and its callers rely on:
 * character classes of the "C" locale, strtoul with base 0 on a target whose
 * unsigned long has 32 bits, decimal printing, and snprintf truncation.
 *
 * A C string is a `string`; reading at its end yields the terminating NUL, and a
 * NUL character inside it ends it just as well.
 */
module CText {

  datatype Option<+T> = None | Some(value: T)

  const ULONG_MAX: nat := 0xFFFF_FFFF

  datatype CharClass = Space | Digits(base: nat)

  /** Value of an alphanumeric digit; anything that is no hexadecimal digit is out of every range. */
  function DigitValue(c: char): nat {
    if '0' <= c <= '9' then c as int - '0' as int
    else if 'a' <= c <= 'f' then c as int - 'a' as int + 10
    else if 'A' <= c <= 'F' then c as int - 'A' as int + 10
    else 99
  }

  /** Space, or one of \t \n \v \f \r, which are contiguous. */
  predicate IsSpace(c: char) {
    c == ' ' || '\t' <= c <= '\r'
  }

  predicate In(c: char, cls: CharClass) {
    match cls
    case Space => IsSpace(c)
    case Digits(base) => DigitValue(c) < base
  }

  predicate AllIn(s: string, cls: CharClass) {
    forall i | 0 <= i < |s| :: In(s[i], cls)
  }

  predicate StartsIn(s: string, cls: CharClass) {
    s != "" && In(s[0], cls)
  }

  /** Length of the longest prefix of s inside a character class. */
  function Span(s: string, cls: CharClass): (n: nat)
    ensures n <= |s|
  {
    if StartsIn(s, cls) then 1 + Span(s[1..], cls) else 0
  }

  lemma {:induction false} SpanIsLongest(s: string, cls: CharClass)
    ensures AllIn(s[..Span(s, cls)], cls) && !StartsIn(s[Span(s, cls)..], cls)
  {
    if StartsIn(s, cls) {
      SpanIsLongest(s[1..], cls);
      var n := Span(s, cls);
      assert s[..n] == [s[0]] + s[1..][..n - 1];
      assert s[n..] == s[1..][n - 1..];
    }
  }

  lemma {:induction false} SpanOfPrefix(a: string, b: string, cls: CharClass)
    requires AllIn(a, cls) && !StartsIn(b, cls)
    ensures Span(a + b, cls) == |a|
  {
    if a != "" {
      assert (a + b)[0] == a[0] && (a + b)[1..] == a[1..] + b;
      SpanOfPrefix(a[1..], b, cls);
    } else {
      assert a + b == b;
    }
  }

  /** Positional value of a digit string. */
  function Magnitude(ds: string, base: nat): nat {
    if ds == "" then 0
    else Magnitude(ds[..|ds| - 1], base) * base + DigitValue(ds[|ds| - 1])
  }

  /** strtoul saturates first and negates, modulo 2^32, only what fitted. */
  function Saturate(magnitude: nat, negative: bool): (v: nat)
    ensures v <= ULONG_MAX
  {
    if magnitude > ULONG_MAX then ULONG_MAX
    else if negative && magnitude > 0 then ULONG_MAX + 1 - magnitude
    else magnitude
  }

  predicate StartsWithSign(s: string) {
    s != "" && (s[0] == '+' || s[0] == '-')
  }

  /** "0x" counts as a prefix only when a hexadecimal digit follows it. */
  predicate StartsWithHexPrefix(s: string) {
    |s| >= 3 && s[0] == '0' && (s[1] == 'x' || s[1] == 'X') && In(s[2], Digits(16))
  }

  function BaseAt(s: string): nat {
    if StartsWithHexPrefix(s) then 16 else if s != "" && s[0] == '0' then 8 else 10
  }

  /** A value read and the number of characters it took; nothing was read when end is 0. */
  datatype Conversion = Conversion(value: nat, end: nat)

  /** Prefix and digits: the unsigned part of what strtoul reads. */
  function ScanUnsigned(u: string): (c: Conversion)
    ensures c.end <= |u|
    ensures c.end == 0 ==> c.value == 0
  {
    var prefix := if StartsWithHexPrefix(u) then 2 else 0;
    var base := BaseAt(u);
    var digits := Span(u[prefix..], Digits(base));
    if digits == 0 then Conversion(0, 0)
    else Conversion(Magnitude(u[prefix..][..digits], base), prefix + digits)
  }

  /** Sign, prefix and digits. */
  function ScanSigned(t: string): (c: Conversion)
    ensures c.end <= |t| && c.value <= ULONG_MAX
    ensures c.end == 0 ==> c.value == 0
  {
    var sign := if StartsWithSign(t) then 1 else 0;
    var c := ScanUnsigned(t[sign..]);
    if c.end == 0 then c else Conversion(Saturate(c.value, sign == 1 && t[0] == '-'), sign + c.end)
  }

  /** strtoul(s, &end, 0), section 7.22.1.4 of ISO/IEC 9899:2011. */
  function Strtoul(s: string): (c: Conversion)
    ensures c.end <= |s| && c.value <= ULONG_MAX
    ensures c.end == 0 ==> c.value == 0
  {
    var ws := Span(s, Space);
    var c := ScanSigned(s[ws..]);
    if c.end == 0 then c else Conversion(c.value, ws + c.end)
  }

  datatype Sign = NoSign | Plus | Minus {
    function Text(): string {
      match this case NoSign => "" case Plus => "+" case Minus => "-"
    }
  }

  datatype Prefix = NoPrefix | LowerHex | UpperHex {
    function Text(): string {
      match this case NoPrefix => "" case LowerHex => "0x" case UpperHex => "0X"
    }
  }

  /**
   * A numeral as a grammar describes it: optional white space, optional sign,
   * optional hexadecimal prefix, and at least one digit of the base that the
   * prefix or a leading zero selects.
   */
  datatype Numeral = Numeral(spaces: string, sign: Sign, prefix: Prefix, digits: string) {
    function Base(): nat {
      if prefix != NoPrefix then 16 else if digits != "" && digits[0] == '0' then 8 else 10
    }

    predicate WellFormed() {
      AllIn(spaces, Space) && digits != "" && AllIn(digits, Digits(Base()))
    }

    function Text(): string {
      spaces + (sign.Text() + (prefix.Text() + digits))
    }

    function Value(): (v: nat)
      ensures v <= ULONG_MAX
    {
      Saturate(Magnitude(digits, Base()), sign == Minus)
    }
  }

  /** What may follow a numeral without being swallowed by it. */
  predicate CannotContinue(rest: string) {
    rest == "" || (!In(rest[0], Digits(16)) && rest[0] != 'x' && rest[0] != 'X')
  }

  lemma {:induction false} HexPrefixOfNumeral(m: Numeral, rest: string)
    requires m.WellFormed() && CannotContinue(rest)
    ensures StartsWithHexPrefix(m.prefix.Text() + m.digits + rest) <==> m.prefix != NoPrefix
    ensures BaseAt(m.prefix.Text() + m.digits + rest) == m.Base()
  {
    var u := m.prefix.Text() + m.digits + rest;
    if m.prefix != NoPrefix {
      assert u[0] == m.prefix.Text()[0] && u[1] == m.prefix.Text()[1] && u[2] == m.digits[0];
    } else {
      assert u[0] == m.digits[0];
      if |m.digits| > 1 {
        assert u[1] == m.digits[1];
      } else if rest != "" {
        assert u[1] == rest[0];
      }
    }
  }

  lemma {:induction false} ScanReadsNumeral(m: Numeral, rest: string)
    requires m.WellFormed() && CannotContinue(rest)
    ensures ScanUnsigned(m.prefix.Text() + m.digits + rest)
         == Conversion(Magnitude(m.digits, m.Base()), |m.prefix.Text()| + |m.digits|)
  {
    hide Magnitude, Span, StartsWithHexPrefix, BaseAt;
    var u := m.prefix.Text() + m.digits + rest;
    HexPrefixOfNumeral(m, rest);
    assert u[|m.prefix.Text()|..] == m.digits + rest;
    SpanOfPrefix(m.digits, rest, Digits(m.Base()));
    assert (m.digits + rest)[..|m.digits|] == m.digits;
  }

  lemma {:induction false} ScanSignedSplitsSign(sign: Sign, u: string)
    requires ScanUnsigned(u).end > 0 && !StartsWithSign(u)
    ensures ScanSigned(sign.Text() + u)
         == Conversion(Saturate(ScanUnsigned(u).value, sign == Minus), |sign.Text()| + ScanUnsigned(u).end)
  {
    assert (sign.Text() + u)[|sign.Text()|..] == u;
  }

  lemma {:induction false} NumeralStart(m: Numeral, rest: string)
    requires m.WellFormed()
    ensures var u := m.prefix.Text() + m.digits + rest;
            !StartsWithSign(u) && !StartsIn(u, Space) && !StartsIn(m.sign.Text() + u, Space)
  {
    var u := m.prefix.Text() + m.digits + rest;
    assert u[0] == if m.prefix == NoPrefix then m.digits[0] else '0';
    assert m.sign == NoSign ==> m.sign.Text() + u == u;
  }

  lemma {:induction false} ScanSignedReadsNumeral(m: Numeral, rest: string)
    requires m.WellFormed() && CannotContinue(rest)
    ensures var t := m.sign.Text() + (m.prefix.Text() + m.digits + rest);
            ScanSigned(t) == Conversion(m.Value(), |m.sign.Text()| + |m.prefix.Text()| + |m.digits|)
  {
    hide ScanUnsigned, ScanSigned, Magnitude, CannotContinue;
    ScanReadsNumeral(m, rest);
    NumeralStart(m, rest);
    ScanSignedSplitsSign(m.sign, m.prefix.Text() + m.digits + rest);
  }

  lemma {:induction false} StrtoulSkipsSpaces(ws: string, t: string)
    requires AllIn(ws, Space) && !StartsIn(t, Space) && ScanSigned(t).end > 0
    ensures Strtoul(ws + t) == Conversion(ScanSigned(t).value, |ws| + ScanSigned(t).end)
  {
    hide ScanSigned;
    SpanOfPrefix(ws, t, Space);
    assert (ws + t)[|ws|..] == t;
  }

  lemma {:induction false} TextThen(m: Numeral, rest: string)
    ensures m.Text() + rest == m.spaces + (m.sign.Text() + (m.prefix.Text() + m.digits + rest))
    ensures |m.Text()| == |m.spaces| + (|m.sign.Text()| + |m.prefix.Text()| + |m.digits|)
  {
  }

  /** Reading the text of a numeral consumes exactly that text and yields its value. */
  lemma {:induction false} StrtoulReadsNumeral(m: Numeral, rest: string)
    requires m.WellFormed() && CannotContinue(rest)
    ensures Strtoul(m.Text() + rest) == Conversion(m.Value(), |m.Text()|)
  {
    hide ScanSigned, Strtoul, Magnitude;
    ScanSignedReadsNumeral(m, rest);
    NumeralStart(m, rest);
    TextThen(m, rest);
    StrtoulSkipsSpaces(m.spaces, m.sign.Text() + (m.prefix.Text() + m.digits + rest));
  }

  lemma {:induction false} ScanReadsOnlyNumerals(u: string) returns (m: Numeral)
    requires ScanUnsigned(u).end > 0
    ensures m.WellFormed() && m.spaces == "" && m.sign == NoSign
    ensures m.prefix.Text() + m.digits == u[..ScanUnsigned(u).end]
    ensures Magnitude(m.digits, m.Base()) == ScanUnsigned(u).value
  {
    hide Magnitude, Span;
    var prefix := if StartsWithHexPrefix(u) then if u[1] == 'x' then LowerHex else UpperHex else NoPrefix;
    var rest := u[|prefix.Text()|..];
    var digits := rest[..Span(rest, Digits(BaseAt(u)))];
    SpanIsLongest(rest, Digits(BaseAt(u)));
    assert digits[0] == rest[0];
    assert prefix != NoPrefix ==> prefix.Text() == [u[0], u[1]];
    m := Numeral("", NoSign, prefix, digits);
  }

  lemma {:induction false} ScanSignedReadsOnlyNumerals(t: string) returns (m: Numeral)
    requires ScanSigned(t).end > 0
    ensures m.WellFormed() && m.spaces == "" && m.Text() == t[..ScanSigned(t).end]
    ensures m.Value() == ScanSigned(t).value
  {
    hide ScanUnsigned, Magnitude, AllIn;
    var sign := if !StartsWithSign(t) then NoSign else if t[0] == '-' then Minus else Plus;
    var body := ScanReadsOnlyNumerals(t[|sign.Text()|..]);
    assert sign != NoSign ==> sign.Text() == [t[0]];
    m := body.(sign := sign);
  }

  lemma {:induction false} PrefixOfDrop(s: string, i: nat, n: nat)
    requires i + n <= |s|
    ensures s[..i] + s[i..][..n] == s[..i + n]
  {
  }

  /** Whatever strtoul converts is the text of a well-formed numeral with the value it returns. */
  lemma {:induction false} StrtoulReadsOnlyNumerals(s: string) returns (m: Numeral)
    requires Strtoul(s).end > 0
    ensures m.WellFormed() && m.Text() == s[..Strtoul(s).end] && m.Value() == Strtoul(s).value
  {
    hide ScanSigned, Magnitude, Span;
    var ws := Span(s, Space);
    var signed := ScanSignedReadsOnlyNumerals(s[ws..]);
    SpanIsLongest(s, Space);
    PrefixOfDrop(s, ws, ScanSigned(s[ws..]).end);
    m := signed.(spaces := s[..ws]);
    assert signed.Text() == signed.sign.Text() + (signed.prefix.Text() + signed.digits);
  }

  /** The decimal text of a number, as %i, %d and %u print it. */
  function Decimal(n: nat): (d: string)
    ensures d != ""
  {
    if n < 10 then [n as char + '0'] else Decimal(n / 10) + [(n % 10) as char + '0']
  }

  lemma {:induction false} DecimalDigits(n: nat)
    ensures AllIn(Decimal(n), Digits(10)) && Magnitude(Decimal(n), 10) == n
    ensures Decimal(n)[0] == '0' <==> n == 0
  {
    var d := Decimal(n);
    if n < 10 {
      assert d[..0] == "";
      assert Magnitude(d, 10) == Magnitude(d[..0], 10) * 10 + DigitValue(d[0]);
    } else {
      DecimalDigits(n / 10);
      assert d[..|d| - 1] == Decimal(n / 10);
    }
  }

  lemma {:induction false} ZeroIsOctal()
    ensures Decimal(0) == "0" && AllIn("0", Digits(8)) && Magnitude("0", 8) == 0
  {
    assert Magnitude("0", 8) == Magnitude("0"[..0], 8) * 8 + DigitValue('0');
  }

  /** Printed decimals never look octal, so base 0 reads them back as decimals. */
  lemma {:induction false} DecimalIsNumeral(n: nat) returns (m: Numeral)
    requires n <= ULONG_MAX
    ensures m.WellFormed() && m.Text() == Decimal(n) && m.Value() == n
  {
    hide Decimal, Magnitude, In;
    DecimalDigits(n);
    ZeroIsOctal();
    m := Numeral("", NoSign, NoPrefix, Decimal(n));
    assert m.Base() == if n == 0 then 8 else 10;
  }

  lemma {:induction false} DecimalLengthOfByte(n: nat)
    requires n < 256
    ensures |Decimal(n)| == if n < 10 then 1 else if n < 100 then 2 else 3
  {
    if n >= 10 {
      assert Decimal(n) == Decimal(n / 10) + [(n % 10) as char + '0'];
    }
  }

  /** The string snprintf leaves in a buffer of the given size (before its NUL). */
  function Snprintf(text: string, size: nat): string {
    if size == 0 then "" else if |text| < size then text else text[..size - 1]
  }
}
