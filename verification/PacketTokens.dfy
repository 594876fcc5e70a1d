/** What each kind of token of a packet statement means, with the digits written out. */
module PacketTokens {
  import opened Text
  import opened Checksum
  import opened Numbers
  import opened PacketSpec

  // ---------- Hexadecimal digits ----------

  const LOWER_HEX := "0123456789abcdef"
  const UPPER_HEX := "0123456789ABCDEF"

  predicate IsHexDigit(c: char) {
    c in LOWER_HEX || c in UPPER_HEX
  }

  /** A digit by its value, in either case. */
  function DigitIn(d: nat, upper: bool): char
    requires d < 16
  {
    if upper then UPPER_HEX[d] else LOWER_HEX[d]
  }

  lemma DigitReads(d: nat, upper: bool)
    requires d < 16
    ensures DigitValue(DigitIn(d, upper)) == d
    ensures DigitIn(d, upper) !in "+-&*?$ xX"
  {
  }

  /** The digits are exactly the characters with a value below 16. */
  lemma OnlyDigits(c: char)
    ensures DigitValue(c) < 16 <==> IsHexDigit(c)
  {
    if DigitValue(c) < 16 {
      assert LOWER_HEX[DigitValue(c)] == c || UPPER_HEX[DigitValue(c)] == c;
    }
  }

  /** One digit, in either case. */
  lemma OneDigit(op: Op, d: nat, upper: bool)
    requires d < 16
    ensures ReadToken(op, [DigitIn(d, upper)]) == One(Exact(d))
  {
    var c := DigitIn(d, upper);
    DigitReads(d, upper);
    hide DigitIn, DigitValue;
    OneDigitNumber(c);
    ByteTokenFirst(op, [c]);
  }

  lemma OneDigitNumber(c: char)
    requires DigitValue(c) < 16 && c !in "+-"
    ensures Strtol([c], 16) == Number(DigitValue(c), 1)
  {
    hide DigitValue;
    assert [c][1..] == "" && [c][0..] == [c] && [c][..1] == [c] && [c][..0] == "";
    assert DigitRun("", 16) == 0 && DigitRun([c], 16) == 1;
    assert DigitsValue([c], 16) == DigitsValue("", 16) * 16 + DigitValue(c);
  }

  /** The token is neither a wildcard, a copy nor a checksum: it is a byte. */
  lemma ByteTokenFirst(op: Op, token: string)
    requires token != "" && token[0] !in "&*?"
    ensures ReadToken(op, token) == ByteToken(token)
  {
  }

  /** Two digits, each in either case, such as `D0`, `1f` or `aB`. */
  lemma TwoDigits(op: Op, a: nat, b: nat, upperA: bool, upperB: bool)
    requires a < 16 && b < 16
    ensures ReadToken(op, [DigitIn(a, upperA), DigitIn(b, upperB)]) == One(Exact(16 * a + b))
  {
    var c, d := DigitIn(a, upperA), DigitIn(b, upperB);
    DigitReads(a, upperA);
    DigitReads(b, upperB);
    hide DigitIn, DigitValue;
    DigitRunTwo(c, d);
    TwoDigitNumber(c, d);
    ByteTokenFirst(op, [c, d]);
  }

  lemma TwoDigitNumber(c: char, d: char)
    requires DigitValue(c) < 16 && DigitValue(d) < 16 && c !in "+-"
    ensures Strtol([c, d], 16) == Number(DigitValue(c) * 16 + DigitValue(d), 2)
  {
    DigitRunTwo(c, d);
    hide DigitValue;
    assert [c, d][0..] == [c, d] && [c, d][..2] == [c, d];
  }

  /** With `0x` or `0X` in front of two digits the token reads as their byte. */
  lemma PrefixedDigits(op: Op, x: char, a: nat, b: nat, upperA: bool, upperB: bool)
    requires a < 16 && b < 16 && x in "xX"
    ensures ReadToken(op, ['0', x, DigitIn(a, upperA), DigitIn(b, upperB)]) == One(Exact(16 * a + b))
  {
    var c, d := DigitIn(a, upperA), DigitIn(b, upperB);
    DigitReads(a, upperA);
    DigitReads(b, upperB);
    hide DigitIn, DigitValue, Strtol;
    PrefixedNumber(x, c, d);
    PrefixedByte(op, ['0', x, c, d], DigitValue(c) * 16 + DigitValue(d));
  }

  lemma PrefixedByte(op: Op, token: string, value: nat)
    requires |token| == 4 && token[0] == '0' && Strtol(token, 16) == Number(value, 4) && value < 256
    ensures ReadToken(op, token) == One(Exact(value))
  {
    hide Strtol;
  }

  lemma PrefixedNumber(x: char, c: char, d: char)
    requires x in "xX" && DigitValue(c) < 16 && DigitValue(d) < 16
    ensures Strtol(['0', x, c, d], 16) == Number(DigitValue(c) * 16 + DigitValue(d), 4)
  {
    DigitRunTwo(c, d);
    assert ['0', x, c, d][0..] == ['0', x, c, d] && ['0', x, c, d][2..] == [c, d] && [c, d][..2] == [c, d];
  }

  lemma {:induction false} RunStops(s: string, i: nat)
    requires i < |s| && !IsHexDigit(s[i])
    ensures DigitRun(s, 16) <= i
  {
    OnlyDigits(s[0]);
    if i > 0 {
      RunStops(s[1..], i - 1);
    }
  }

  /** A token with a character that is no digit is refused; only a sign in front and an `x` behind a
      leading 0 are read otherwise. */
  lemma NoDigitRefused(op: Op, token: string, i: nat)
    requires i < |token| && !IsHexDigit(token[i]) && token[0] !in "&*?+-"
    requires !(|token| > 1 && token[0] == '0' && token[1] in "xX")
    ensures ReadToken(op, token) == Bad
  {
    RunStops(token, i);
    assert token[0..] == token;
    ByteTokenFirst(op, token);
  }

  // ---------- The other kinds ----------

  /** A `*`, and a `&` where a packet is received, stand for one byte of any value, whatever is behind
      them; in a statement to send a `*` is refused. */
  lemma Wildcards(rest: string)
    ensures ReadToken(Receive, "*" + rest) == One(Any) && ReadToken(Receive, "&" + rest) == One(Any)
    ensures ReadToken(Send, "*" + rest) == Bad
  {
    assert ("*" + rest)[0] == '*' && ("&" + rest)[0] == '&';
  }

  /** A range whose start is no number starts at 0: the program complains and goes on. */
  lemma NoStart(start: string, end: uint32)
    requires '-' !in start && (start != "" ==> start[0] != '+' && DigitValue(start[0]) >= 10)
    ensures ReadToken(Send, "&" + (start + ['-'] + Decimal(end))) == Sum(0, end)
  {
    var range := start + ['-'] + Decimal(end);
    assert start[0..] == start;
    DecimalReads(end);
    RangeParts(start, Decimal(end), 0, end);
    assert ("&" + range)[0] == '&' && ("&" + range)[1..] == range;
  }

  /** A `?` is refused where a packet is received, and where anything but a number is behind it. */
  lemma CopyRefused(digits: string)
    ensures ReadToken(Receive, "?" + digits) == Bad
    ensures Strtol(digits, 10).used < |digits| ==> ReadToken(Send, "?" + digits) == Bad
  {
    assert ("?" + digits)[0] == '?' && ("?" + digits)[1..] == digits;
  }

  /** `?n` for every n below 256, with the number written in decimal. */
  lemma CopyReads(n: nat)
    requires n < 256
    ensures ReadToken(Send, "?" + Decimal(n)) == One(Copy(n))
  {
    hide Decimal;
    CopyTokenNames(n);
    assert ("?" + Decimal(n))[0] == '?' && ("?" + Decimal(n))[1..] == Decimal(n);
  }

  /** A statement with the name of a port and nothing else is refused. */
  lemma NoBytesRefused(statement: string)
    requires statement != "" && |Tokens(statement[1..])| == 1 && PortOf(statement).Some?
    ensures BodyOf(statement) == None
  {
    assert Tokens(statement[1..])[1..] == [];
  }

  /** One token that is refused, and the statement is. */
  lemma {:induction false} BadRefuses(ts: seq<Token>, at: nat, i: nat)
    requires i < |ts| && ts[i].Bad?
    ensures Assemble(ts, at) == None
    decreases ts
  {
    if i > 0 {
      BadRefuses(ts[1..], at + Width(ts[0]), i - 1);
    }
  }
}
