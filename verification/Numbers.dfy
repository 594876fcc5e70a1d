/** strtol on one token, as the packet reader uses it with bases 10 and 16. */
module Numbers {
  import opened Checksum

  const LONG_MAX := 0x7FFF_FFFF_FFFF_FFFF

  function DigitValue(c: char): nat {
    if '0' <= c <= '9' then c as nat - '0' as nat
    else if 'a' <= c <= 'z' then c as nat - 'a' as nat + 10
    else if 'A' <= c <= 'Z' then c as nat - 'A' as nat + 10
    else 36
  }

  function DigitRun(s: string, base: nat): (n: nat)
    ensures n <= |s|
  {
    if s == "" || DigitValue(s[0]) >= base then 0 else 1 + DigitRun(s[1..], base)
  }

  function DigitsValue(s: string, base: nat): nat {
    if s == "" then 0 else DigitsValue(s[..|s| - 1], base) * base + DigitValue(s[|s| - 1])
  }

  function Clamp(n: int): int {
    if n > LONG_MAX then LONG_MAX else if n < -LONG_MAX - 1 then -LONG_MAX - 1 else n
  }

  /** The number read, and how many characters it took; none when there is no number. */
  datatype Number = Number(value: int, used: nat)

  function Strtol(s: string, base: nat): (r: Number)
    ensures r.used <= |s|
  {
    var sign := if s != "" && (s[0] == '+' || s[0] == '-') then 1 else 0;
    var t := s[sign..];
    var prefix := if base == 16 && |t| > 2 && t[0] == '0' && (t[1] == 'x' || t[1] == 'X') && DigitValue(t[2]) < 16 then 2 else 0;
    var n := DigitRun(t[prefix..], base);
    if n == 0 then Number(0, 0)
    else
      var v: int := DigitsValue(t[prefix..][..n], base);
      Number(Clamp(if sign == 1 && s[0] == '-' then -v else v), sign + prefix + n)
  }

  /** The cast to unsigned char. */
  function ToByte(n: int): byte {
    n % 0x100
  }

  /** The cast to int and from there to unsigned int. */
  function ToUint32(n: int): uint32 {
    n % 0x1_0000_0000
  }

  function HexDigit(d: nat): (c: char)
    requires d < 16
    ensures DigitValue(c) == d && c != ' ' && c != '-' && c != '+' && c != '&' && c != '*' && c != '?' && c != '$'
  {
    if d < 10 then ('0' as nat + d) as char else ('a' as nat + d - 10) as char
  }

  function HexByte(b: byte): string {
    [HexDigit(b / 16), HexDigit(b % 16)]
  }

  lemma DigitRunTwo(a: char, b: char)
    requires DigitValue(a) < 16 && DigitValue(b) < 16
    ensures DigitRun([a, b], 16) == 2
    ensures DigitsValue([a, b], 16) == DigitValue(a) * 16 + DigitValue(b)
  {
    assert [a, b][1..] == [b] && [b][1..] == "";
    assert DigitRun([b], 16) == 1;
    assert [a, b][..1] == [a] && [a][..0] == "";
    assert DigitsValue([a], 16) == DigitValue(a);
  }

  /** Two hexadecimal digits are read back as the byte they were made from. */
  lemma HexRoundTrip(b: byte)
    ensures Strtol(HexByte(b), 16) == Number(b, 2)
  {
    var s := HexByte(b);
    DigitRunTwo(s[0], s[1]);
    assert s[0..] == s && s[..2] == s;
  }

  // ---------- Decimal numbers ----------

  function Decimal(n: nat): (s: string)
    ensures s != ""
  {
    if n < 10 then [HexDigit(n)] else Decimal(n / 10) + [HexDigit(n % 10)]
  }

  predicate AllDigits(s: string) {
    forall i :: 0 <= i < |s| ==> '0' <= s[i] <= '9'
  }

  lemma {:induction false} DecimalDigits(n: nat)
    ensures AllDigits(Decimal(n)) && DigitsValue(Decimal(n), 10) == n
  {
    if n >= 10 {
      DecimalDigits(n / 10);
      assert Decimal(n)[..|Decimal(n)| - 1] == Decimal(n / 10);
    } else {
      assert [HexDigit(n)][..0] == "";
    }
  }

  lemma {:induction false} RunOfDigits(s: string)
    requires AllDigits(s)
    ensures DigitRun(s, 10) == |s|
  {
    if s != "" {
      RunOfDigits(s[1..]);
    }
  }

  /** A number in decimal is read back whole, up to the largest long. */
  lemma DecimalReads(n: nat)
    requires n <= LONG_MAX
    ensures Strtol(Decimal(n), 10) == Number(n, |Decimal(n)|)
  {
    var s := Decimal(n);
    DecimalDigits(n);
    RunOfDigits(s);
    assert s[0..] == s && s[..|s|] == s;
  }
}
