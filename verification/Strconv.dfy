/** Decimal integers and separated fields, as the services use them: Go's
    `strconv.FormatInt`, `strconv.ParseInt` (base 10) and `strings.Split` /
    `strings.SplitN(_, _, 2)` on a one-character separator. */
module Strconv {
  import opened Sequences

  const INT64_MAX := 0x7fff_ffff_ffff_ffff
  const INT64_MIN := -0x8000_0000_0000_0000
  const UINT64_MAX := 0xffff_ffff_ffff_ffff

  predicate IsInt64(n: int) {
    INT64_MIN <= n <= INT64_MAX
  }

  datatype ParseError = NoError | ErrSyntax | ErrRange

  /** Go returns a value beside the error: 0 on a syntax error, the nearest
      representable integer on a range error. */
  datatype Parsed = Parsed(value: int, err: ParseError)

  // ---------------------------------------------------------------- integers

  function Digit(d: nat): char
    requires d < 10
  {
    "0123456789"[d]
  }

  predicate IsDigit(c: char) {
    '0' <= c <= '9'
  }

  function DigitValue(c: char): nat
    requires IsDigit(c)
  {
    c as int - '0' as int
  }

  function FormatNat(n: nat): string {
    if n < 10 then [Digit(n)] else FormatNat(n / 10) + [Digit(n % 10)]
  }

  function FormatInt(n: int): string {
    if n < 0 then "-" + FormatNat(-n) else FormatNat(n)
  }

  /** `strconv.ParseUint(s, 10, bits)` after `acc`, where `top` is 2^bits - 1. Scans left to
      right; an overflow is reported before any later character is looked at. */
  function ParseDigits(s: string, acc: nat, top: nat): Parsed {
    if s == "" then Parsed(acc, NoError)
    else if !IsDigit(s[0]) then Parsed(0, ErrSyntax)
    else
      var n := acc * 10 + DigitValue(s[0]);
      if n > top then Parsed(top, ErrRange) else ParseDigits(s[1..], n, top)
  }

  /** What ParseInt makes of the digits behind a sign. */
  function Signed(negative: bool, u: Parsed, max: int): Parsed {
    if u.err == ErrSyntax then Parsed(0, ErrSyntax)
    else if !negative && u.value > max then Parsed(max, ErrRange)
    else if negative && u.value > max + 1 then Parsed(-max - 1, ErrRange)
    else Parsed(if negative then -u.value else u.value, NoError)
  }

  /** `strconv.ParseInt(s, 10, bits)`, where `max` is 2^(bits-1) - 1. */
  function ParseInt(s: string, max: int): Parsed
    requires 0 <= max
  {
    if s == "" then Parsed(0, ErrSyntax)
    else
      var negative := s[0] == '-';
      var digits := if s[0] == '-' || s[0] == '+' then s[1..] else s;
      if digits == "" then Parsed(0, ErrSyntax)
      else Signed(negative, ParseDigits(digits, 0, 2 * max + 1), max)
  }

  lemma {:induction false} FormatNatShape(n: nat)
    ensures FormatNat(n) != ""
    ensures forall c <- FormatNat(n) :: IsDigit(c)
  {
    if n >= 10 {
      FormatNatShape(n / 10);
    }
  }

  lemma ParseOneDigit(d: nat, rest: string, acc: nat)
    requires d < 10 && acc * 10 + d <= UINT64_MAX
    ensures ParseDigits([Digit(d)] + rest, acc, UINT64_MAX) == ParseDigits(rest, acc * 10 + d, UINT64_MAX)
  {
    var s := [Digit(d)] + rest;
    assert s[0] == Digit(d) && s[1..] == rest;
    assert DigitValue(s[0]) == d;
  }

  lemma {:induction false} ParseFormatNat(n: nat, rest: string)
    requires n <= UINT64_MAX
    ensures ParseDigits(FormatNat(n) + rest, 0, UINT64_MAX) == ParseDigits(rest, n, UINT64_MAX)
  {
    if n < 10 {
      ParseOneDigit(n, rest, 0);
    } else {
      var last := [Digit(n % 10)];
      calc {
        ParseDigits(FormatNat(n) + rest, 0, UINT64_MAX);
      ==  { assert FormatNat(n) + rest == FormatNat(n / 10) + (last + rest); }
        ParseDigits(FormatNat(n / 10) + (last + rest), 0, UINT64_MAX);
      ==  { ParseFormatNat(n / 10, last + rest); }
        ParseDigits(last + rest, n / 10, UINT64_MAX);
      ==  { ParseOneDigit(n % 10, rest, n / 10); }
        ParseDigits(rest, n, UINT64_MAX);
      }
    }
  }

  lemma ParseFormatInt(n: int)
    requires IsInt64(n)
    ensures ParseInt(FormatInt(n), INT64_MAX) == Parsed(n, NoError)
  {
    var m: nat := if n < 0 then -n else n;
    FormatNatShape(m);
    ParseFormatNat(m, "");
    assert FormatNat(m) + "" == FormatNat(m);
    if n < 0 {
      assert FormatInt(n)[1..] == FormatNat(m);
    } else {
      assert FormatNat(m)[0] in FormatNat(m);
    }
  }

  // ----------------------------------------------------- what the numbers are

  predicate AllDigits(s: string) {
    forall c <- s :: IsDigit(c)
  }

  /** The number a string of digits stands for. */
  function DigitsValue(s: string): nat
    requires AllDigits(s)
  {
    if s == "" then 0
    else
      var front, last := s[..|s| - 1], s[|s| - 1];
      assert last in s && forall c <- front :: c in s;
      DigitsValue(front) * 10 + (last as int - '0' as int)
  }

  lemma DigitsValueSnoc(s: string, c: char)
    requires AllDigits(s) && IsDigit(c)
    ensures AllDigits(s + [c]) && DigitsValue(s + [c]) == DigitsValue(s) * 10 + (c as int - '0' as int)
  {
    assert (s + [c])[..|s|] == s;
  }

  /** Digits first, then whatever comes next. */
  lemma {:induction false} ParseDigitsConcat(s: string, t: string, acc: nat, top: nat)
    requires AllDigits(s)
    ensures ParseDigits(s, acc, top).value >= 0
    ensures var r := ParseDigits(s, acc, top);
            ParseDigits(s + t, acc, top) == if r.err == NoError then ParseDigits(t, r.value, top) else r
    ensures ParseDigits(s, acc, top).err != ErrSyntax
  {
    if s == "" {
      assert s + t == t;
    } else {
      assert s[0] in s && (s + t)[0] == s[0] && (s + t)[1..] == s[1..] + t;
      assert forall c <- s[1..] :: c in s;
      var n := acc * 10 + DigitValue(s[0]);
      if n <= top {
        ParseDigitsConcat(s[1..], t, n, top);
      }
    }
  }

  /** Digits parse to the number they stand for, or overflow. */
  lemma {:induction false} ParseDigitsIs(s: string, top: nat)
    requires AllDigits(s)
    ensures ParseDigits(s, 0, top)
         == if DigitsValue(s) <= top then Parsed(DigitsValue(s), NoError) else Parsed(top, ErrRange)
  {
    if s != "" {
      var front, c := s[..|s| - 1], s[|s| - 1];
      assert s == front + [c] && c in s && forall d <- front :: d in s;
      DigitsValueSnoc(front, c);
      ParseDigitsIs(front, top);
      ParseDigitsConcat(front, [c], 0, top);
      if DigitsValue(front) <= top {
        OneDigit(c, DigitsValue(front), top);
      }
    }
  }

  lemma OneDigit(c: char, acc: nat, top: nat)
    requires IsDigit(c)
    ensures var n := acc * 10 + (c as int - '0' as int);
            ParseDigits([c], acc, top) == if n > top then Parsed(top, ErrRange) else Parsed(n, NoError)
  {
    assert [c][1..] == "";
  }

  lemma ParseSigned(sign: string, rest: string, max: int)
    requires sign in ["", "-", "+"] && rest != "" && (sign == "" ==> rest[0] !in ['-', '+']) && 0 <= max
    ensures ParseInt(sign + rest, max) == Signed(sign == "-", ParseDigits(rest, 0, 2 * max + 1), max)
  {
    SignedDigits(sign, rest);
  }

  /** `strconv.ParseInt` on a number: the value if it fits, else the nearer bound. */
  lemma ParseIntIs(sign: string, digits: string, max: int)
    requires sign in ["", "-", "+"] && digits != "" && AllDigits(digits) && 0 < max
    ensures var n := if sign == "-" then -(DigitsValue(digits) as int) else DigitsValue(digits);
            ParseInt(sign + digits, max)
            == if n > max then Parsed(max, ErrRange)
               else if n < -max - 1 then Parsed(-max - 1, ErrRange) else Parsed(n, NoError)
  {
    assert digits[0] in digits;
    ParseDigitsIs(digits, 2 * max + 1);
    ParseSigned(sign, digits, max);
  }

  lemma SignedDigits(sign: string, rest: string)
    requires sign in ["", "-", "+"] && rest != "" && (sign == "" ==> rest[0] !in ['-', '+'])
    ensures var s := sign + rest;
            && s != "" && (s[0] == '-' <==> sign == "-")
            && (if s[0] == '-' || s[0] == '+' then s[1..] else s) == rest
  {
    assert sign == "" ==> sign + rest == rest;
    assert sign != "" ==> (sign + rest)[1..] == rest;
  }

  /** Digits, and then something else: a syntax error, unless the digits overflow first. */
  lemma ParseDigitsJunk(digits: string, c: char, rest: string, top: nat)
    requires AllDigits(digits) && !IsDigit(c)
    ensures ParseDigits(digits + ([c] + rest), 0, top)
         == if DigitsValue(digits) <= top then Parsed(0, ErrSyntax) else Parsed(top, ErrRange)
  {
    ParseDigitsIs(digits, top);
    ParseDigitsConcat(digits, [c] + rest, 0, top);
  }

  /** On anything else it is a syntax error, with value 0; but digits that overflow even the
      unsigned range are a range error before what follows them is looked at. */
  lemma ParseIntJunk(sign: string, digits: string, c: char, rest: string, max: int)
    requires sign in ["", "-", "+"] && AllDigits(digits) && !IsDigit(c) && 0 < max
    requires sign == "" && digits == "" ==> c !in ['-', '+']
    ensures ParseInt(sign + (digits + ([c] + rest)), max)
         == if DigitsValue(digits) <= 2 * max + 1 then Parsed(0, ErrSyntax)
            else Parsed(if sign == "-" then -max - 1 else max, ErrRange)
  {
    var tail := digits + ([c] + rest);
    FirstOf(digits, c, rest);
    ParseDigitsJunk(digits, c, rest, 2 * max + 1);
    ParseSigned(sign, tail, max);
  }

  lemma FirstOf(digits: string, c: char, rest: string)
    requires AllDigits(digits)
    ensures var tail := digits + ([c] + rest);
            tail != "" && if digits == "" then tail[0] == c else IsDigit(tail[0])
  {
    if digits != "" {
      assert digits[0] in digits;
    }
  }

  lemma ParseIntEmpty(max: int)
    requires 0 <= max
    ensures forall s <- ["", "-", "+"] :: ParseInt(s, max) == Parsed(0, ErrSyntax)
  {
    assert "-"[1..] == "" && "+"[1..] == "";
  }

  lemma DigitIs(d: nat)
    requires d < 10
    ensures IsDigit(Digit(d)) && Digit(d) as int - '0' as int == d
  {
  }

  predicate IsDecimal(s: string, n: nat) {
    s != "" && AllDigits(s) && DigitsValue(s) == n && (s[0] == '0' ==> s == "0")
  }

  lemma DecimalSnoc(s: string, n: nat, d: nat)
    requires IsDecimal(s, n) && n > 0 && d < 10
    ensures IsDecimal(s + [Digit(d)], n * 10 + d)
  {
    DigitIs(d);
    DigitsValueSnoc(s, Digit(d));
    assert DigitsValue("0") == 0 by { assert "0"[..0] == ""; }
  }

  lemma OneDecimal(d: nat)
    requires d < 10
    ensures IsDecimal([Digit(d)], d)
  {
    DigitIs(d);
    DigitsValueSnoc("", Digit(d));
    assert "" + [Digit(d)] == [Digit(d)];
    if d == 0 {
      assert [Digit(0)] == "0";
    } else {
      assert Digit(d) != '0';
    }
  }

  /** Formatting writes the number in digits, without leading zeros. */
  lemma {:induction false} FormatNatIs(n: nat)
    ensures IsDecimal(FormatNat(n), n)
  {
    if n < 10 {
      OneDecimal(n);
    } else {
      FormatNatIs(n / 10);
      DecimalSnoc(FormatNat(n / 10), n / 10, n % 10);
    }
  }

  lemma FormatIntIs(n: int)
    ensures n >= 0 ==> IsDecimal(FormatInt(n), n)
    ensures n < 0 ==> FormatInt(n) != "" && FormatInt(n)[0] == '-' && IsDecimal(FormatInt(n)[1..], -n)
  {
    FormatNatIs(if n < 0 then -n else n);
    if n < 0 {
      assert FormatInt(n)[1..] == FormatNat(-n);
    }
  }

  lemma FormatIntHasNo(n: int, c: char)
    requires !IsDigit(c) && c != '-'
    ensures c !in FormatInt(n)
  {
    FormatNatShape(if n < 0 then -n else n);
  }

  // ------------------------------------------------------------------ fields

  /** `strings.Split(s, sep)` */
  function Split(s: string, sep: char): (parts: seq<string>)
    ensures |parts| >= 1
  {
    if s == "" then [""]
    else
      var rest := Split(s[1..], sep);
      if s[0] == sep then [""] + rest else [[s[0]] + rest[0]] + rest[1..]
  }

  /** `strings.SplitN(s, sep, 2)` */
  function SplitTwo(s: string, sep: char): seq<string> {
    if sep !in s then [s]
    else
      var i := IndexOf(s, sep);
      [s[..i], s[i + 1..]]
  }

  lemma {:induction false} SplitSingle(s: string, sep: char)
    ensures |Split(s, sep)| == 1 <==> sep !in s
    ensures sep !in s ==> Split(s, sep) == [s]
  {
    if s != "" {
      SplitSingle(s[1..], sep);
      assert s == [s[0]] + s[1..];
    }
  }

  /** One character further left in the text is one character more in the first field. */
  lemma SplitStep(c: char, t: string, sep: char)
    ensures c == sep ==> Split([c] + t, sep) == [""] + Split(t, sep)
    ensures c != sep ==> Split([c] + t, sep) == [[c] + Split(t, sep)[0]] + Split(t, sep)[1..]
  {
    assert ([c] + t)[1..] == t;
  }

  lemma ExtendHead(c: char, l: seq<string>, r: seq<string>)
    requires |l| >= 1
    ensures [[c] + (l + r)[0]] + (l + r)[1..] == [[c] + l[0]] + l[1..] + r
  {
    assert (l + r)[1..] == l[1..] + r;
  }

  /** Splitting at a separator splits the two sides independently. */
  lemma {:induction false} SplitConcat(a: string, b: string, sep: char)
    ensures Split(a + [sep] + b, sep) == Split(a, sep) + Split(b, sep)
  {
    if a == "" {
      assert a + [sep] + b == [sep] + b;
      SplitStep(sep, b, sep);
    } else {
      var c, t := a[0], a[1..];
      var l, r := Split(t, sep), Split(b, sep);
      var w := t + [sep] + b;
      assert Split(w, sep) == l + r by { SplitConcat(t, b, sep); }
      assert a == [c] + t;
      assert a + [sep] + b == [c] + w;
      SplitStep(c, t, sep);
      SplitStep(c, w, sep);
      if c == sep {
        assert [""] + (l + r) == [""] + l + r;
      } else {
        ExtendHead(c, l, r);
      }
    }
  }

  function Join(parts: seq<string>, sep: char): string
    requires |parts| >= 1
  {
    if |parts| == 1 then parts[0] else parts[0] + [sep] + Join(parts[1..], sep)
  }

  /** Joining undoes splitting, and no field contains the separator. */
  lemma {:induction false} JoinSplit(s: string, sep: char)
    ensures Join(Split(s, sep), sep) == s
    ensures forall p <- Split(s, sep) :: sep !in p
  {
    if s != "" {
      JoinSplit(s[1..], sep);
      var rest := Split(s[1..], sep);
      assert s == [s[0]] + s[1..];
      if s[0] == sep {
        assert Split(s, sep)[1..] == rest;
      } else {
        JoinHead(s[0], rest, sep);
        assert Split(s, sep) == [[s[0]] + rest[0]] + rest[1..];
      }
    }
  }

  lemma JoinHead(c: char, parts: seq<string>, sep: char)
    requires |parts| >= 1
    ensures Join([[c] + parts[0]] + parts[1..], sep) == [c] + Join(parts, sep)
  {
    var more := [[c] + parts[0]] + parts[1..];
    assert more[1..] == parts[1..];
    if |parts| > 1 {
      assert ([c] + parts[0]) + [sep] + Join(parts[1..], sep) == [c] + (parts[0] + [sep] + Join(parts[1..], sep));
    }
  }
}
