/** Converting numerals to integers: compat/kstrtox.c. */
module Kstrtox {
  import opened Wrappers
  import opened Errno
  import opened Words

  type CChar = c: char | c as int < 256 witness 'a'

  /** The characters of a C string before its terminator. */
  type CString = s: seq<CChar> | forall i :: 0 <= i < |s| ==> s[i] != '\0'

  const ULLONG_MAX := TWO64 - 1

  /** What reading a C string at index i yields; reading past the terminator is not possible. */
  function At(s: CString, i: nat): CChar
    requires i <= |s|
  {
    if i < |s| then s[i] else '\0'
  }

  // ---------------------------------------------------------------- what numerals mean

  /** The value of a hexadecimal digit of either case. */
  function Digit(c: CChar): Option<nat> {
    if '0' <= c <= '9' then Some(c as int - '0' as int)
    else if 'a' <= c <= 'f' then Some(c as int - 'a' as int + 10)
    else if 'A' <= c <= 'F' then Some(c as int - 'A' as int + 10)
    else None
  }

  predicate IsDigit(c: CChar, b: nat) {
    Digit(c).Some? && Digit(c).value < b
  }

  predicate AllDigits(d: CString, b: nat) {
    forall i :: 0 <= i < |d| ==> IsDigit(d[i], b)
  }

  /** The number that a string of digits denotes in base b. */
  function Value(d: CString, b: nat): nat
    requires AllDigits(d, b)
  {
    if d == [] then 0 else Value(d[..|d| - 1], b) * b + Digit(d[|d| - 1]).value
  }

  predicate XPrefix(s: CString) {
    |s| >= 2 && s[0] == '0' && (s[1] == 'x' || s[1] == 'X')
  }

  /** The base a numeral is read in: the given one, or for 0 the one its prefix announces. */
  function Radix(s: CString, base: nat): nat {
    if base != 0 then base
    else if XPrefix(s) && |s| >= 3 && IsDigit(s[2], 16) then 16
    else if |s| >= 1 && s[0] == '0' then 8
    else 10
  }

  /** The numeral without its "0x". */
  function Body(s: CString, base: nat): CString {
    if Radix(s, base) == 16 && XPrefix(s) then s[2..] else s
  }

  /** s is digits in base b, at least one, and perhaps one newline at the very end. */
  ghost predicate Numeral(s: CString, b: nat, digits: CString) {
    |digits| >= 1 && AllDigits(digits, b) && (s == digits || s == digits + ['\n'])
  }

  datatype Parsed = Number(value: int) | Invalid | OutOfRange

  /** The number of digits s starts with. */
  function Lead(s: CString, b: nat): (n: nat)
    ensures n <= |s| && AllDigits(s[..n], b) && (n < |s| ==> !IsDigit(s[n], b))
  {
    if s == [] || !IsDigit(s[0], b) then 0
    else
      var n := 1 + Lead(s[1..], b);
      assert s[..n] == [s[0]] + s[1..][..n - 1];
      n
  }

  /** The outcome of _kstrtoull: range errors are found before anything that follows the digits. */
  function Parse(s: CString, base: nat): Parsed {
    var b, t := Radix(s, base), Body(s, base);
    var n := Lead(t, b);
    if Value(t[..n], b) >= TWO64 then OutOfRange
    else if n == 0 || (t[n..] != [] && t[n..] != ['\n']) then Invalid
    else Number(Value(t[..n], b))
  }

  lemma {:induction false} LeadIs(s: CString, b: nat, n: nat)
    requires n <= |s| && AllDigits(s[..n], b) && (n < |s| ==> !IsDigit(s[n], b))
    ensures Lead(s, b) == n
    decreases n
  {
    if n > 0 {
      assert s[..n][0] == s[0] && s[..n][1..] == s[1..][..n - 1];
      LeadIs(s[1..], b, n - 1);
    }
  }

  lemma {:induction false} LeadAtLeast(s: CString, b: nat, n: nat)
    requires n <= |s| && AllDigits(s[..n], b)
    ensures Lead(s, b) >= n
    decreases n
  {
    if n > 0 {
      assert s[..n][0] == s[0] && s[..n][1..] == s[1..][..n - 1];
      LeadAtLeast(s[1..], b, n - 1);
    }
  }

  /** More digits never denote less. */
  lemma {:induction false} ValueGrows(d: CString, b: nat, n: nat)
    requires b >= 1 && n <= |d| && AllDigits(d, b)
    ensures AllDigits(d[..n], b) && Value(d[..n], b) <= Value(d, b)
    decreases |d|
  {
    if n == |d| {
      assert d[..n] == d;
    } else {
      var most := d[..|d| - 1];
      ValueGrows(most, b, n);
      assert most[..n] == d[..n];
      Scales(Value(most, b), b);
    }
  }

  lemma Scales(x: nat, b: nat)
    requires b >= 1
    ensures x <= x * b
  {}

  /** The overflow test before acc * base + val is exact. */
  lemma OverflowTestExact(acc: nat, base: nat, val: nat)
    requires base >= 1 && val <= ULLONG_MAX
    ensures acc > (ULLONG_MAX - val) / base <==> acc * base + val > ULLONG_MAX
  {
    var room := ULLONG_MAX - val;
    var q := room / base;
    if acc <= q {
      Ordered(acc, q, base);
    } else {
      Ordered(q + 1, acc, base);
    }
  }

  lemma Ordered(x: nat, y: nat, b: nat)
    requires x <= y
    ensures x * b <= y * b
  {}

  // ---------------------------------------------------------------- the code

  /** The bit-twiddling lower-casing of the source: c | 0x20. */
  function ToLower(c: CChar): CChar {
    if (c as int / 32) % 2 == 0 then (c as int + 32) as char else c
  }

  /** The value of a digit as the source's tests find it. */
  function DigitValue(c: CChar): (v: Option<nat>)
    ensures v == Digit(c)
    ensures v.Some? ==> v.value < 16 && c != '\n'
  {
    if '0' <= c <= '9' then Some(c as int - '0' as int)
    else if 'a' <= ToLower(c) <= 'f' then Some(ToLower(c) as int - 'a' as int + 10)
    else None
  }

  /** The first part of _kstrtoull: the base to use and where the numeral starts. */
  method ReadPrefix(s: CString, base: nat) returns (b: nat, start: nat)
    ensures b == Radix(s, base) && start <= |s| && s[start..] == Body(s, base)
  {
    b := base;
    if b == 0 {
      if At(s, 0) == '0' {
        if ToLower(At(s, 1)) == 'x' && IsDigit(At(s, 2), 16) { b := 16; } else { b := 8; }
      } else {
        b := 10;
      }
    }
    start := 0;
    if b == 16 && At(s, 0) == '0' && ToLower(At(s, 1)) == 'x' { start := 2; }
  }

  /** _kstrtoull; res0 is what *res holds before the call. */
  method ParseUll(s: CString, base: nat, res0: nat) returns (rv: int, res: nat)
    requires base < TWO32
    ensures match Parse(s, base)
      case Number(v) => rv == 0 && res == v
      case Invalid => rv == -EINVAL && res == res0
      case OutOfRange => rv == -ERANGE && res == res0
  {
    hide Value, Lead, Parse, Radix, Body, Digit, DigitValue;
    res := res0;
    var b, start := ReadPrefix(s, base);
    ghost var t := s[start..];
    NoDigits(t, b);
    RadixPositive(s, base);

    var acc, ok, i := 0, false, start;
    while At(s, i) != '\0'
      invariant start <= i <= |s|
      invariant AllDigits(t[..i - start], b) && acc == Value(t[..i - start], b) <= ULLONG_MAX
      invariant ok <==> i > start
      decreases |s| - i
    {
      ghost var n := i - start;
      assert s[i] == t[n];
      var c := At(s, i);
      var digit := DigitValue(c);
      if digit == None {
        if c == '\n' && At(s, i + 1) == '\0' { break; }
        Stops(s, base, n);
        return -EINVAL, res;
      }
      var val := digit.value;
      if val >= b {
        Stops(s, base, n);
        return -EINVAL, res;
      }
      NextDigit(t, b, n);
      OverflowTestExact(acc, b, val);
      if acc > (ULLONG_MAX - val) / b {
        TooLarge(t, b, n + 1);
        OverflowIs(s, base);
        return -ERANGE, res;
      }
      acc := acc * b + val;
      ok := true;
      i := i + 1;
    }
    Stops(s, base, i - start);
    if !ok { return -EINVAL, res; }
    return 0, acc;
  }

  lemma RadixPositive(s: CString, base: nat)
    ensures Radix(s, base) >= 1
  {}

  lemma NoDigits(t: CString, b: nat)
    ensures AllDigits(t[..0], b) && Value(t[..0], b) == 0
  {}

  /** The outcome once the first n characters are all the digits and their value fits. */
  lemma Stops(s: CString, base: nat, n: nat)
    requires var b, t := Radix(s, base), Body(s, base);
      && n <= |t| && AllDigits(t[..n], b) && (n < |t| ==> !IsDigit(t[n], b))
      && Value(t[..n], b) < TWO64
    ensures var b, t := Radix(s, base), Body(s, base);
      Parse(s, base) == if n > 0 && (|t| == n || (|t| == n + 1 && t[n] == '\n')) then Number(Value(t[..n], b))
                        else Invalid
  {
    hide Value, Lead, Radix, Body;
    var t := Body(s, base);
    LeadIs(t, Radix(s, base), n);
    if n < |t| { assert t[n..][0] == t[n]; }
  }

  lemma OverflowIs(s: CString, base: nat)
    requires var b, t := Radix(s, base), Body(s, base); Value(t[..Lead(t, b)], b) >= TWO64
    ensures Parse(s, base) == OutOfRange
  {}

  lemma NextDigit(t: CString, b: nat, n: nat)
    requires n < |t| && AllDigits(t[..n], b) && IsDigit(t[n], b)
    ensures AllDigits(t[..n + 1], b) && Value(t[..n + 1], b) == Value(t[..n], b) * b + Digit(t[n]).value
  {
    var d := t[..n + 1];
    assert d[..|d| - 1] == t[..n];
    assert forall i :: 0 <= i < n ==> d[i] == t[..n][i];
  }

  /** Once the digits read so far are too much, all the digits are. */
  lemma TooLarge(t: CString, b: nat, n: nat)
    requires b >= 1 && n <= |t| && AllDigits(t[..n], b) && Value(t[..n], b) >= TWO64
    ensures Value(t[..Lead(t, b)], b) >= TWO64
  {
    var m := Lead(t, b);
    LeadAtLeast(t, b, n);
    ValueGrows(t[..m], b, n);
    assert t[..m][..n] == t[..n];
  }

  // ---------------------------------------------------------------- exactness

  /** The number s denotes, however large, if it is a numeral at all. */
  function Magnitude(s: CString, base: nat): Option<nat> {
    var b, t := Radix(s, base), Body(s, base);
    var n := Lead(t, b);
    if n > 0 && (t[n..] == [] || t[n..] == ['\n']) then Some(Value(t[..n], b)) else None
  }

  /** Being a numeral means: at least one digit, then nothing or one newline. */
  lemma MagnitudeExact(s: CString, base: nat, v: nat)
    ensures Magnitude(s, base) == Some(v) <==>
            exists d :: Numeral(Body(s, base), Radix(s, base), d) && Value(d, Radix(s, base)) == v
  {
    hide Radix, Body, Value;
    var b, t := Radix(s, base), Body(s, base);
    var n := Lead(t, b);
    if Magnitude(s, base) == Some(v) {
      assert t == t[..n] + t[n..];
      assert t[n..] == [] ==> t == t[..n];
      assert Numeral(t, b, t[..n]);
    }
    forall d | Numeral(t, b, d) && Value(d, b) == v ensures Magnitude(s, base) == Some(v) {
      NumeralLead(t, b, d);
    }
  }

  lemma NumeralLead(t: CString, b: nat, d: CString)
    requires Numeral(t, b, d)
    ensures Lead(t, b) == |d| && t[..|d|] == d && (t[|d|..] == [] || t[|d|..] == ['\n'])
  {
    assert t[..|d|] == d;
    assert |t| > |d| ==> t[|d|] == '\n';
    LeadIs(t, b, |d|);
  }

  /** s is digits d in base b and a rest, after "0x" or "0X" where base 16 is given or left open. An open base is 8
      or 10 without it, as there is a leading zero or not. */
  ghost predicate Reads(s: CString, base: nat, b: nat, d: CString, rest: CString) {
    && AllDigits(d, b)
    && ((base != 0 && b == base && s == d + rest)
        || (b == 16 && (base == 0 || base == 16) && (s == ['0', 'x'] + d + rest || s == ['0', 'X'] + d + rest))
        || (base == 0 && b == 8 && s == d + rest && s != [] && s[0] == '0')
        || (base == 0 && b == 10 && s == d + rest && s != [] && s[0] != '0'))
  }

  /** What follows the digits of a numeral: nothing, or one newline at the very end. */
  predicate Ends(rest: CString) { rest == [] || rest == ['\n'] }

  /** _kstrtoull accepts exactly the numerals below 2^64, and yields their value. */
  lemma AcceptsExactly(s: CString, base: nat, v: nat)
    ensures Parse(s, base) == Number(v) <==>
            v < TWO64 && exists b: nat, d, rest ::
              Reads(s, base, b, d, rest) && d != [] && Ends(rest) && Value(d, b) == v
  {
    hide Parse, Magnitude, Value;
    MagnitudeExact(s, base, v);
    Accepts(s, base);
    var b, t := Radix(s, base), Body(s, base);
    forall d | Numeral(t, b, d) ensures Reads(s, base, b, d, t[|d|..]) && d != [] && Ends(t[|d|..]) {
      NumeralLead(t, b, d);
      ReadAs(s, base, d, t[|d|..]);
    }
    forall b: nat, d, rest | Reads(s, base, b, d, rest) && d != [] && Ends(rest)
      ensures b == Radix(s, base) && Numeral(t, b, d)
    {
      OnlyReading(s, base, b, d, rest);
      assert rest == [] ==> d + rest == d;
    }
  }

  /** The base and the digits that the code finds are a reading. */
  lemma ReadAs(s: CString, base: nat, d: CString, rest: CString)
    requires Body(s, base) == d + rest && AllDigits(d, Radix(s, base)) && (d != [] || base != 0)
    ensures Reads(s, base, Radix(s, base), d, rest)
  {
    if Radix(s, base) == 16 && XPrefix(s) {
      assert s == [s[0], s[1]] + s[2..];
      assert s == [s[0], s[1]] + d + rest;
    } else if base == 0 && |s| >= 1 && s[0] == '0' {
      assert Radix(s, base) == 8;
    }
  }

  /** There is no other reading with as many digits as matter. */
  lemma OnlyReading(s: CString, base: nat, b: nat, d: CString, rest: CString)
    requires Reads(s, base, b, d, rest) && d != [] && (|d| == 1 ==> rest == [] || (rest[0] != 'x' && rest[0] != 'X'))
    ensures b == Radix(s, base) && Body(s, base) == d + rest
  {
    assert IsDigit(d[0], b);
    if s == d + rest {
      assert s[0] == d[0];
      if |s| >= 2 {
        assert s[1] == if |d| >= 2 then d[1] else rest[0];
        assert |d| >= 2 ==> IsDigit(d[1], b);
        assert s[1] != 'x' && s[1] != 'X';
      }
      assert !XPrefix(s);
    } else {
      assert XPrefix(s) && s[2] == d[0] && s[2..] == d + rest;
    }
  }

  /** A range error is reported exactly when some of the leading digits are already too much. */
  lemma RangeErrorExactly(s: CString, base: nat)
    ensures Parse(s, base) == OutOfRange <==>
            exists b: nat, d, rest :: Reads(s, base, b, d, rest) && Value(d, b) >= TWO64
  {
    hide Radix, Body, Value;
    var b, t := Radix(s, base), Body(s, base);
    RadixPositive(s, base);
    var m := Lead(t, b);
    if Value(t[..m], b) >= TWO64 {
      NoDigits(t, b);
      assert t == t[..m] + t[m..];
      ReadAs(s, base, t[..m], t[m..]);
    }
    forall b': nat, d, rest | Reads(s, base, b', d, rest) && Value(d, b') >= TWO64
      ensures Value(t[..m], b) >= TWO64
    {
      if |d| <= 1 { FewDigits(d, b'); }
      OnlyReading(s, base, b', d, rest);
      assert t[..|d|] == d;
      TooLarge(t, b, |d|);
    }
  }

  lemma FewDigits(d: CString, b: nat)
    requires AllDigits(d, b) && |d| <= 1
    ensures Value(d, b) < 16
  {
    if |d| == 1 { assert d[..0] == []; }
  }

  // ---------------------------------------------------------------- signs and narrower types

  predicate Starts(s: CString, c: char) {
    s != [] && s[0] == c
  }

  /** The integer a signed numeral denotes; one sign may precede it. */
  function Meaning(s: CString, base: nat): Option<int> {
    if Starts(s, '-') then
      match Magnitude(s[1..], base) case None => None case Some(v) => var m: int := v; Some(-m)
    else
      match Magnitude(Unplus(s), base) case None => None case Some(v) => Some(v as int)
  }

  function Unplus(s: CString): CString {
    if Starts(s, '+') then s[1..] else s
  }

  /** A string with a minus sign is not an unsigned numeral. */
  lemma MinusIsNoDigit(s: CString, base: nat)
    requires Starts(s, '-')
    ensures Parse(s, base) == Invalid
  {
    NoDigits(s, Radix(s, base));
    Stops(s, base, 0);
  }

  /** kstrtoull. */
  method Kstrtoull(s: CString, base: nat, res0: nat) returns (rv: int, res: nat)
    requires base < TWO32
    ensures rv == 0 <==> !Starts(s, '-') && Meaning(s, base).Some? && Meaning(s, base).value < TWO64
    ensures rv == 0 ==> Meaning(s, base) == Some(res)
    ensures rv != 0 ==> res == res0
    ensures rv != 0 ==> rv == if Parse(Unplus(s), base) == OutOfRange then -ERANGE else -EINVAL
  {
    hide Parse, Magnitude;
    var p := s;
    if At(s, 0) == '+' { p := p[1..]; }
    if Starts(s, '-') { MinusIsNoDigit(s, base); }
    Accepts(p, base);
    rv, res := ParseUll(p, base, res0);
  }

  lemma Accepts(s: CString, base: nat)
    ensures forall v: nat :: Parse(s, base) == Number(v) <==> Magnitude(s, base) == Some(v) && v < TWO64
    ensures Parse(s, base).Number? ==> 0 <= Parse(s, base).value < TWO64
  {}

  /** The two's complement reading of x. */
  function AsSigned(x: int, size: nat): int
    requires size > 0
  {
    if x % size < size / 2 then x % size else x % size - size
  }

  const LLONG_MAX := TWO64 / 2 - 1

  /** The outcome of kstrtoll: a minus sign is accepted before 1 to 2^63 only. */
  function SignedOutcome(s: CString, base: nat): Parsed {
    var p := Parse(if Starts(s, '-') then s[1..] else Unplus(s), base);
    match p
    case Number(v) =>
      if !Starts(s, '-') then if v <= LLONG_MAX then p else OutOfRange
      else if 1 <= v <= LLONG_MAX + 1 then Number(-v)
      else OutOfRange
    case _ => p
  }

  method Kstrtoll(s: CString, base: nat, res0: int) returns (rv: int, res: int)
    requires base < TWO32
    ensures match SignedOutcome(s, base)
      case Number(v) => rv == 0 && res == v
      case Invalid => rv == -EINVAL && res == res0
      case OutOfRange => rv == -ERANGE && res == res0
  {
    hide Parse, Magnitude, Meaning;
    res := res0;
    var tmp := 0;
    if At(s, 0) == '-' {
      Accepts(s[1..], base);
      rv, tmp := ParseUll(s[1..], base, tmp);
      if rv < 0 { return rv, res; }
      var negated := (TWO64 - tmp) % TWO64;
      if AsSigned(negated, TWO64) >= 0 { return -ERANGE, res; }
      res := AsSigned(negated, TWO64);
    } else {
      Accepts(Unplus(s), base);
      UnsignedMeaning(s, base);
      rv, tmp := Kstrtoull(s, base, tmp);
      if rv < 0 { return rv, res; }
      if AsSigned(tmp, TWO64) < 0 { return -ERANGE, res; }
      res := tmp;
    }
    return 0, res;
  }

  lemma UnsignedMeaning(s: CString, base: nat)
    requires !Starts(s, '-')
    ensures match Magnitude(Unplus(s), base)
      case None => Meaning(s, base) == None
      case Some(v) => Meaning(s, base) == Some(v as int)
  {}

  /** kstrtoll accepts exactly the numerals in its type's range, save zero behind a minus sign. */
  lemma SignedExactly(s: CString, base: nat, v: int)
    ensures SignedOutcome(s, base) == Number(v) <==>
            Meaning(s, base) == Some(v) && -LLONG_MAX - 1 <= v <= LLONG_MAX && !(Starts(s, '-') && v == 0)
  {
    hide Parse, Magnitude;
    Accepts(if Starts(s, '-') then s[1..] else Unplus(s), base);
  }

  /** One sign may precede the digits: a plus is skipped, a minus makes the number negative. */
  lemma SignsExact(t: CString, base: nat, v: nat)
    requires Parse(t, base) == Number(v)
    ensures Meaning(t, base) == Some(v as int)
    ensures Meaning(WithSign('+', t), base) == Some(v as int)
    ensures Meaning(WithSign('-', t), base) == Some(0 - v as int)
  {
    hide Parse, Magnitude;
    Accepts(t, base);
    assert WithSign('+', t)[1..] == t && WithSign('-', t)[1..] == t;
    NoSignInside(t, base);
  }

  /** A second sign is never accepted. */
  lemma SignsOnce(t: CString, base: nat, a: CChar, b: CChar)
    requires (a == '+' || a == '-') && (b == '+' || b == '-')
    ensures Meaning(WithSign(a, WithSign(b, t)), base) == None
  {
    var s := WithSign(b, t);
    assert WithSign(a, s)[1..] == s;
    NoDigits(s, Radix(s, base));
    LeadIs(s, Radix(s, base), 0);
    assert s[0..] == s;
  }

  function WithSign(c: CChar, t: CString): CString
    requires c != '\0'
  {
    [c] + t
  }

  lemma NoSignInside(t: CString, base: nat)
    requires Parse(t, base).Number?
    ensures !Starts(t, '+') && !Starts(t, '-')
  {
    if Starts(t, '+') || Starts(t, '-') {
      NoDigits(t, Radix(t, base));
      Stops(t, base, 0);
    }
  }

  /** "-0" denotes zero, which every signed type can hold; it is refused all the same. */
  lemma MinusZeroRefused()
    ensures Meaning("-0", 10) == Some(0) && SignedOutcome("-0", 10) == OutOfRange
  {
    assert ("-0")[1..] == "0";
    assert AllDigits("0"[..1], 10) && Value("0"[..1], 10) == 0 by {
      assert "0"[..1] == "0" && "0"[..0] == [];
      assert Value("0", 10) == Value("0"[..0], 10) * 10 + 0;
    }
    LeadIs("0", 10, 1);
  }

  predicate Width(size: nat) {
    size == 0x100 || size == 0x1_0000 || size == TWO32 || size == TWO64
  }

  /** _kstrtoul, kstrtouint, kstrtou16 and kstrtou8: the result must survive the cast to the type. */
  method NarrowUnsigned(s: CString, base: nat, size: nat, res0: nat) returns (rv: int, res: nat)
    requires base < TWO32 && Width(size)
    ensures rv == 0 <==> !Starts(s, '-') && Meaning(s, base).Some? && Meaning(s, base).value < size
    ensures rv == 0 ==> Meaning(s, base) == Some(res)
    ensures rv != 0 ==> res == res0 && (rv == -EINVAL || rv == -ERANGE)
  {
    hide Meaning, Parse;
    res := res0;
    var tmp;
    rv, tmp := Kstrtoull(s, base, 0);
    if rv < 0 { return rv, res; }
    if tmp != tmp % size { return -ERANGE, res; }
    return 0, tmp;
  }

  /** _kstrtol, kstrtoint, kstrtos16 and kstrtos8. */
  method NarrowSigned(s: CString, base: nat, size: nat, res0: int) returns (rv: int, res: int)
    requires base < TWO32 && Width(size)
    ensures rv == 0 <==>
            Meaning(s, base).Some? && -(size / 2) <= Meaning(s, base).value < size / 2 &&
            !(Starts(s, '-') && Meaning(s, base) == Some(0))
    ensures rv == 0 ==> Meaning(s, base) == Some(res)
    ensures rv != 0 ==> res == res0 && (rv == -EINVAL || rv == -ERANGE)
  {
    hide Meaning, Parse, SignedOutcome;
    res := res0;
    forall v: int { SignedExactly(s, base, v); }
    var tmp;
    rv, tmp := Kstrtoll(s, base, 0);
    if rv < 0 { return rv, res; }
    if tmp != AsSigned(tmp, size) { return -ERANGE, res; }
    return 0, tmp;
  }

  // ---------------------------------------------------------------- printing and reading back

  function DigitChar(v: nat): (c: CChar)
    requires v < 16
    ensures Digit(c) == Some(v) && c != '\0'
  {
    if v < 10 then ('0' as int + v) as char else ('a' as int + (v - 10)) as char
  }

  /** The usual numeral of v in base b, without leading zeros. */
  function Print(v: nat, b: nat): (d: CString)
    requires 2 <= b <= 16
    ensures |d| >= 1 && AllDigits(d, b)
  {
    if v < b then [DigitChar(v)]
    else
      Smaller(v, b);
      Print(v / b, b) + [DigitChar(v % b)]
  }

  lemma Smaller(v: nat, b: nat)
    requires 2 <= b <= v
    ensures v / b < v
  {
    DivMod(v, b);
    var q := v / b;
    assert q >= 0;
    Ordered(2, b, q);
  }

  lemma DivMod(v: nat, b: nat)
    requires b >= 1
    ensures v / b * b + v % b == v
  {
    assert b * (v / b) + v % b == v;
  }

  lemma {:induction false} ValueOfPrint(v: nat, b: nat)
    requires 2 <= b <= 16
    ensures Value(Print(v, b), b) == v
  {
    hide Value;
    if v < b {
      OneDigit(v, b);
    } else {
      Smaller(v, b);
      ValueOfPrint(v / b, b);
      LastDigit(Print(v / b, b), v % b, b);
      DivMod(v, b);
    }
  }

  lemma OneDigit(v: nat, b: nat)
    requires v < b <= 16
    ensures Value([DigitChar(v)], b) == v
  {
    assert [DigitChar(v)][..0] == [];
  }

  lemma LastDigit(d: CString, v: nat, b: nat)
    requires v < b <= 16 && AllDigits(d, b)
    ensures AllDigits(d + [DigitChar(v)], b) && Value(d + [DigitChar(v)], b) == Value(d, b) * b + v
  {
    var e: CString := d + [DigitChar(v)];
    assert e[..|e| - 1] == d;
  }

  /** Reading back what was printed, with or without a final newline, yields the same number. */
  lemma PrintThenParse(v: nat, b: nat, newline: bool)
    requires 2 <= b <= 16 && v < TWO64
    ensures Parse(Line(Print(v, b), newline), b) == Number(v)
  {
    hide Print, Value;
    var d := Print(v, b);
    var s := Line(d, newline);
    ValueOfPrint(v, b);
    assert forall i :: 0 <= i < |s| ==> s[i] != 'x' && s[i] != 'X';
    assert Body(s, b) == s && Numeral(s, b, d);
    NumeralLead(s, b, d);
  }

  function Line(d: CString, newline: bool): CString {
    if newline then d + ['\n'] else d
  }

  /** The same behind "0x" or "0X", with base 16 or with the base left to the prefix. */
  lemma PrefixThenParse(v: nat, x: CChar, base: nat, newline: bool)
    requires v < TWO64 && (x == 'x' || x == 'X') && (base == 0 || base == 16)
    ensures Parse(Prefixed(x, Line(Print(v, 16), newline)), base) == Number(v)
  {
    hide Parse, Prefixed, Print, Line, Value;
    ValueOfPrint(v, 16);
    HexPrefix(Print(v, 16), x, base, newline);
  }

  function Prefixed(x: CChar, line: CString): CString
    requires x != '\0'
  {
    ['0', x] + line
  }

  /** After "0x" or "0X", hexadecimal digits of either case are read as such if the base is 16 or left open. In any
      other base the prefix is invalid. */
  lemma HexPrefix(d: CString, x: CChar, base: nat, newline: bool)
    requires d != [] && AllDigits(d, 16) && (x == 'x' || x == 'X')
    ensures var p := Parse(Prefixed(x, Line(d, newline)), base);
      if base != 0 && base != 16 then p == Invalid
      else p == if Value(d, 16) < TWO64 then Number(Value(d, 16)) else OutOfRange
  {
    hide Value;
    var line := Line(d, newline);
    var s := Prefixed(x, line);
    if base == 0 || base == 16 {
      assert s[2] == d[0];
      assert Body(s, base) == s[2..] == line;
      assert Numeral(line, 16, d);
      NumeralLead(line, 16, d);
    } else {
      NotInBase(s, x, base);
    }
  }

  lemma NotInBase(s: CString, x: CChar, base: nat)
    requires |s| >= 2 && s[0] == '0' && s[1] == x && (x == 'x' || x == 'X') && base != 0 && base != 16
    ensures Parse(s, base) == Invalid
  {
    assert s[..1][..0] == [];
    assert Value(s[..1], base) == 0;
    Stops(s, base, 1);
  }

  /** With base 0, a leading zero means base 8 and none means base 10. */
  lemma OctalPrefix(v: nat, newline: bool)
    requires v < TWO64
    ensures Parse(['0'] + Line(Print(v, 8), newline), 0) == Number(v)
  {
    hide Print, Value;
    var d := Print(v, 8);
    var zero: CString := ['0'] + d;
    var s: CString := ['0'] + Line(d, newline);
    ValueOfPrint(v, 8);
    LeadingZero(d, 8);
    assert s[1] == d[0] && s == Line(zero, newline);
    assert Numeral(s, 8, zero);
    NumeralLead(s, 8, zero);
  }

  lemma {:induction false} LeadingZero(d: CString, b: nat)
    requires b >= 1 && AllDigits(d, b)
    ensures AllDigits(['0'] + d, b) && Value(['0'] + d, b) == Value(d, b)
    decreases |d|
  {
    var z: CString := ['0'] + d;
    if d == [] {
      assert z[..|z| - 1] == [];
    } else {
      LeadingZero(d[..|d| - 1], b);
      assert z[..|z| - 1] == ['0'] + d[..|d| - 1];
    }
  }

  lemma NoPrefix(v: nat, newline: bool)
    requires 0 < v < TWO64
    ensures Parse(Line(Print(v, 10), newline), 0) == Number(v)
  {
    hide Print, Value;
    var d := Print(v, 10);
    var s := Line(d, newline);
    ValueOfPrint(v, 10);
    NoLeadingZero(v, 10);
    assert s[0] == d[0];
    assert Numeral(s, 10, d);
    NumeralLead(s, 10, d);
  }

  lemma {:induction false} NoLeadingZero(v: nat, b: nat)
    requires 2 <= b <= 16 && v > 0
    ensures Print(v, b)[0] != '0'
  {
    if v >= b {
      Smaller(v, b);
      NoLeadingZero(v / b, b);
    }
  }
}
