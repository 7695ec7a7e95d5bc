/** The C and C++ text functions the two programs rely on: decimal printing, `atoi`,
    `string::find` and `string::substr`. A byte is a character below 256. */
module CText {
  import opened Wrappers

  const INT_MIN := -0x8000_0000
  const INT_MAX := 0x7FFF_FFFF
  const LONG_MIN := -0x8000_0000_0000_0000
  const LONG_MAX := 0x7FFF_FFFF_FFFF_FFFF

  predicate IsInt(n: int) { INT_MIN <= n <= INT_MAX }

  // ---------------------------------------------------------------- characters

  /** `isspace` in the C locale: space, and the characters 9 to 13. */
  predicate IsSpace(c: char) { c == ' ' || 9 <= c as int <= 13 }

  predicate IsDigit(c: char) { '0' <= c <= '9' }

  predicate AllDigits(s: string) { forall i | 0 <= i < |s| :: IsDigit(s[i]) }

  function DigitValue(c: char): (d: nat)
    requires IsDigit(c)
    ensures d <= 9
  {
    c as int - '0' as int
  }

  function DigitChar(d: nat): (c: char)
    requires d <= 9
    ensures IsDigit(c) && DigitValue(c) == d
  {
    ('0' as int + d) as char
  }

  // ---------------------------------------------------------------- atoi

  function SkipSpace(s: string): string {
    if s != "" && IsSpace(s[0]) then SkipSpace(s[1..]) else s
  }

  /** Reads digits up to the first other character, continuing from acc. */
  function Digits(s: string, acc: nat): nat {
    if s != "" && IsDigit(s[0]) then Digits(s[1..], 10 * acc + DigitValue(s[0])) else acc
  }

  /** The number `strtol` would return without a range. */
  function Scan(s: string): int {
    var t := SkipSpace(s);
    if t != "" && t[0] == '-' then 0 - Digits(t[1..], 0)
    else if t != "" && t[0] == '+' then Digits(t[1..], 0)
    else Digits(t, 0)
  }

  function ClampLong(n: int): int {
    if n < LONG_MIN then LONG_MIN else if n > LONG_MAX then LONG_MAX else n
  }

  function ToInt32(n: int): (r: int)
    ensures IsInt(r) && (IsInt(n) ==> r == n)
  {
    var m := n % 0x1_0000_0000;
    if IsInt(n) then n else if m <= INT_MAX then m else m - 0x1_0000_0000
  }

  /** `atoi`. The C standard leaves values outside `int` undefined; this is the common
      implementation, `strtol` (which saturates) cut down to 32 bits. */
  function Atoi(s: string): (r: int)
    ensures IsInt(r)
  {
    ToInt32(ClampLong(Scan(s)))
  }

  // ---------------------------------------------------------------- decimal printing

  function Dec(n: nat): (s: string)
    ensures |s| >= 1 && AllDigits(s)
  {
    if n < 10 then [DigitChar(n)] else Dec(n / 10) + [DigitChar(n % 10)]
  }

  function Itoa(n: int): (s: string)
    ensures |s| >= 1 && (IsDigit(s[0]) || s[0] == '-')
    ensures forall i | 0 <= i < |s| :: IsDigit(s[i]) || s[i] == '-'
  {
    if n < 0 then "-" + Dec(-n) else Dec(n)
  }

  function Pow10(k: nat): (p: nat)
    ensures p >= 1
  {
    if k == 0 then 1 else 10 * Pow10(k - 1)
  }

  lemma {:induction false} DecLength(n: nat, k: nat)
    requires k >= 1 && n < Pow10(k)
    ensures |Dec(n)| <= k
  {
    if n >= 10 {
      assert k > 1;
      DecLength(n / 10, k - 1);
    }
  }

  /** An `int` takes at most ten digits. */
  lemma IntIsShort(n: nat)
    requires n <= INT_MAX
    ensures |Dec(n)| <= 10
  {
    assert Pow10(5) == 100_000;
    assert Pow10(8) == 1000 * Pow10(5);
    assert Pow10(10) == 100 * Pow10(8);
    DecLength(n, 10);
  }

  // ---------------------------------------------------------------- find and substr

  /** `s.find(c)`, with None for `npos`. */
  function Find(s: string, c: char): (r: Option<nat>)
    ensures r.None? <==> c !in s
    ensures r.Some? ==> r.value < |s| && s[r.value] == c && forall i | 0 <= i < r.value :: s[i] != c
  {
    if s == "" then None
    else if s[0] == c then Some(0)
    else
      var r := Find(s[1..], c);
      assert s == [s[0]] + s[1..];
      if r.None? then None else Some(r.value + 1)
  }

  /** `s.substr(pos, len)`: None stands for the `out_of_range` exception. */
  function Substr(s: string, pos: nat, len: nat): (r: Option<string>)
    ensures r.None? <==> pos > |s|
  {
    if pos > |s| then None
    else if pos + len > |s| then Some(s[pos..])
    else Some(s[pos..pos + len])
  }

  // ---------------------------------------------------------------- lemmas

  lemma {:induction false} DigitsAppend(a: string, b: string, acc: nat)
    requires AllDigits(a)
    ensures Digits(a + b, acc) == Digits(b, Digits(a, acc))
    decreases |a|
  {
    if a == "" {
      assert a + b == b;
    } else {
      assert (a + b)[1..] == a[1..] + b;
      DigitsAppend(a[1..], b, 10 * acc + DigitValue(a[0]));
    }
  }

  lemma {:induction false} DigitsOfDec(n: nat)
    ensures Digits(Dec(n), 0) == n
  {
    if n >= 10 {
      DigitsOfDec(n / 10);
      DigitsAppend(Dec(n / 10), [DigitChar(n % 10)], 0);
    }
  }

  predicate EndsNumber(rest: string) { rest == "" || !IsDigit(rest[0]) }

  lemma ScanOfItoa(n: int, rest: string)
    requires EndsNumber(rest)
    ensures Scan(Itoa(n) + rest) == n
  {
    var m: nat := if n < 0 then -n else n;
    DigitsOfDec(m);
    DigitsAppend(Dec(m), rest, 0);
    var s := Itoa(n) + rest;
    assert s[0] == Itoa(n)[0];
    assert SkipSpace(s) == s;
    if n < 0 {
      assert s[1..] == Dec(m) + rest;
    }
  }

  /** `atoi` inverts decimal printing for every `int`, whatever non-digit text follows. */
  lemma AtoiInvertsItoa(n: int, rest: string)
    requires IsInt(n) && EndsNumber(rest)
    ensures Atoi(Itoa(n) + rest) == n
  {
    ScanOfItoa(n, rest);
  }

  lemma {:induction false} DigitsCut(s: string, k: nat, acc: nat)
    requires k < |s| && !IsDigit(s[k])
    ensures Digits(s, acc) == Digits(s[..k], acc)
  {
    if k > 0 && IsDigit(s[0]) {
      DigitsCut(s[1..], k - 1, 10 * acc + DigitValue(s[0]));
      assert s[1..][..k - 1] == s[..k][1..];
    }
  }

  /** The characters that separate the parts of a volume argument. */
  predicate IsSeparator(c: char) { c == ',' || c == '=' }

  lemma {:induction false} ScanCut(s: string, k: nat)
    requires k < |s| && IsSeparator(s[k])
    ensures Scan(s) == Scan(s[..k])
    decreases k
  {
    if k > 0 && IsSpace(s[0]) {
      ScanCut(s[1..], k - 1);
      assert s[1..][..k - 1] == s[..k][1..];
    } else if k > 0 && (s[0] == '-' || s[0] == '+') {
      DigitsCut(s[1..], k - 1, 0);
      assert s[1..][..k - 1] == s[..k][1..];
    } else {
      DigitsCut(s, k, 0);
    }
  }

  /** Whitespace, sign and digit scanning cannot cross a separator. */
  lemma AtoiStopsAtSeparator(s: string, k: nat)
    requires k < |s| && IsSeparator(s[k])
    ensures Atoi(s) == Atoi(s[..k])
  {
    ScanCut(s, k);
  }

  // ---------------------------------------------------------------- what atoi reads

  /** Text made of blanks: spaces and the characters 9 to 13. */
  predicate Blank(w: string) { forall i | 0 <= i < |w| :: w[i] == ' ' || 9 <= w[i] as int <= 13 }

  predicate AllZeros(z: string) { forall i | 0 <= i < |z| :: z[i] == '0' }

  lemma {:induction false} BlanksAreSkipped(w: string, s: string)
    requires Blank(w)
    ensures SkipSpace(w + s) == SkipSpace(s)
  {
    if w == "" {
      assert w + s == s;
    } else {
      assert (w + s)[1..] == w[1..] + s;
      BlanksAreSkipped(w[1..], s);
    }
  }

  lemma {:induction false} ZerosAreSkipped(z: string, s: string)
    requires AllZeros(z)
    ensures Digits(z + s, 0) == Digits(s, 0)
  {
    if z == "" {
      assert z + s == s;
    } else {
      assert (z + s)[1..] == z[1..] + s;
      ZerosAreSkipped(z[1..], s);
    }
  }

  lemma DigitsRead(z: string, n: nat, rest: string)
    requires AllZeros(z) && EndsNumber(rest)
    ensures Digits(z + Dec(n) + rest, 0) == n
    ensures IsDigit((z + Dec(n) + rest)[0])
  {
    assert z + Dec(n) + rest == z + (Dec(n) + rest);
    ZerosAreSkipped(z, Dec(n) + rest);
    DigitsAppend(Dec(n), rest, 0);
    DigitsOfDec(n);
  }

  /** The number n with its sign. */
  function Signed(sign: string, n: nat): (m: int) {
    var m: int := n;
    if sign == "-" then -m else m
  }

  lemma ScanReads(w: string, sign: string, z: string, n: nat, rest: string)
    requires Blank(w) && sign in {"", "+", "-"} && AllZeros(z) && EndsNumber(rest)
    ensures Scan(w + sign + z + Dec(n) + rest) == Signed(sign, n)
  {
    hide Dec, Digits;
    var digits := z + Dec(n) + rest;
    DigitsRead(z, n, rest);
    var t := sign + digits;
    assert w + sign + z + Dec(n) + rest == w + t;
    BlanksAreSkipped(w, t);
    assert sign != "" ==> t[0] == sign[0] && t[1..] == digits;
    assert sign == "" ==> t == digits;
    assert SkipSpace(t) == t;
  }

  /** What `atoi` returns for any number, with blanks, a sign and zeros before it and other text
      after it: the number itself if it is an `int`; otherwise its 32 low bits, or those of the
      largest or the smallest `long` if it is no `long` either. */
  lemma AtoiReads(w: string, sign: string, z: string, n: nat, rest: string)
    requires Blank(w) && sign in {"", "+", "-"} && AllZeros(z) && EndsNumber(rest)
    ensures var m, r := Signed(sign, n), Atoi(w + sign + z + Dec(n) + rest);
      && (-2147483648 <= m <= 2147483647 ==> r == m)
      && (-9223372036854775808 <= m <= 9223372036854775807 ==>
            (r - m) % 4294967296 == 0 && -2147483648 <= r <= 2147483647)
      && (m > 9223372036854775807 ==> r == -1)
      && (m < -9223372036854775808 ==> r == 0)
  {
    ScanReads(w, sign, z, n, rest);
    LowBits(Signed(sign, n));
  }

  lemma LowBits(m: int)
    ensures (ToInt32(m) - m) % 4294967296 == 0
    ensures ToInt32(9223372036854775807) == -1 && ToInt32(-9223372036854775808) == 0
  {
  }

  /** Text that does not begin with a number, after its blanks and at most one sign, counts as 0. */
  lemma AtoiOfNoNumber(w: string, sign: string, rest: string)
    requires Blank(w) && sign in {"", "+", "-"} && EndsNumber(rest)
    requires sign == "" && rest != "" ==> rest[0] !in {' ', '+', '-'} && !(9 <= rest[0] as int <= 13)
    ensures Atoi(w + sign + rest) == 0
  {
    var t := sign + rest;
    assert w + sign + rest == w + t;
    BlanksAreSkipped(w, t);
    assert sign != "" ==> t[0] == sign[0] && t[1..] == rest;
    assert sign == "" ==> t == rest;
    assert SkipSpace(t) == t;
  }

  /** Decimal printing has no leading zero. */
  lemma {:induction false} DecHasNoLeadingZero(n: nat)
    ensures n > 0 ==> Dec(n)[0] != '0'
    ensures n == 0 ==> Dec(n) == "0"
  {
    if n >= 10 {
      DecHasNoLeadingZero(n / 10);
    }
  }
}
