/**
 Decimal text: `fmt.Sprintf("%d", n)`, `strconv.ParseInt(s, 10, 32)`, and `strings.Join` and `strings.Split` on a
 one-character separator.
 */
module Decimal {

  datatype Option<+T> = None | Some(value: T)

  predicate IsInt32(n: int) {
    -0x8000_0000 <= n < 0x8000_0000
  }

  predicate IsDigit(c: char) {
    '0' <= c <= '9'
  }

  function DigitValue(c: char): (d: nat)
    requires IsDigit(c)
    ensures d < 10
  {
    c as int - '0' as int
  }

  function DigitChar(d: nat): (c: char)
    requires d < 10
    ensures IsDigit(c) && DigitValue(c) == d
  {
    ('0' as int + d) as char
  }

  predicate AllDigits(s: string) {
    forall c :: c in s ==> IsDigit(c)
  }

  function PrintNat(n: nat): (s: string)
    ensures s != "" && AllDigits(s)
  {
    if n < 10 then [DigitChar(n)] else PrintNat(n / 10) + [DigitChar(n % 10)]
  }

  /** `%d`. */
  function Print(n: int): (s: string)
    ensures s != "" && (forall c :: c in s ==> IsDigit(c) || c == '-')
  {
    if n < 0 then ['-'] + PrintNat(-n) else PrintNat(n)
  }

  function Value(s: string): nat
    requires AllDigits(s)
  {
    if s == "" then 0 else 10 * Value(s[..|s| - 1]) + DigitValue(s[|s| - 1])
  }

  predicate Signed(s: string) {
    s != "" && (s[0] == '-' || s[0] == '+')
  }

  function Unsigned(s: string): string {
    if Signed(s) then s[1..] else s
  }

  /** `strconv.ParseInt(s, 10, _)` before its range check. */
  function Parse(s: string): Option<int> {
    var digits := Unsigned(s);
    if digits == "" || !AllDigits(digits) then None
    else
      var n: int := Value(digits);
      Some(if s[0] == '-' then -n else n)
  }

  function ParseInt32(s: string): Option<int> {
    var n := Parse(s);
    if n.Some? && IsInt32(n.value) then n else None
  }

  lemma {:induction false} ValueOfPrintNat(n: nat)
    ensures Value(PrintNat(n)) == n
  {
    if n < 10 {
      assert [DigitChar(n)][..0] == "";
    } else {
      var front := PrintNat(n / 10);
      ValueOfPrintNat(n / 10);
      assert (front + [DigitChar(n % 10)])[..|front|] == front;
    }
  }

  lemma ParseOfPrint(n: int)
    ensures Parse(Print(n)) == Some(n)
  {
    if n < 0 {
      ValueOfPrintNat(-n);
      assert Print(n)[1..] == PrintNat(-n);
    } else {
      ValueOfPrintNat(n);
      assert IsDigit(PrintNat(n)[0]);
    }
  }

  /** Reading back what was printed gives the same number if it fits in 32 bits, and an error otherwise. */
  lemma ParseInt32OfPrint(n: int)
    ensures ParseInt32(Print(n)) == if IsInt32(n) then Some(n) else None
  {
    ParseOfPrint(n);
  }

  lemma PrintInjective(m: int, n: int)
    requires Print(m) == Print(n)
    ensures m == n
  {
    ParseOfPrint(m);
    ParseOfPrint(n);
  }

  // ---- What text is a number ----

  function Zeros(z: nat): (s: string)
    ensures |s| == z && AllDigits(s)
  {
    seq(z, _ => '0')
  }

  /** Printing gives no leading zero, but for zero itself. */
  lemma {:induction false} NoLeadingZero(n: nat)
    ensures PrintNat(n)[0] == '0' <==> n == 0
    ensures n == 0 ==> PrintNat(n) == "0"
  {
    if n >= 10 {
      NoLeadingZero(n / 10);
    }
  }

  lemma {:induction false} ValueOfPadded(z: nat, s: string)
    requires AllDigits(s)
    ensures AllDigits(Zeros(z) + s) && Value(Zeros(z) + s) == Value(s)
  {
    var t := Zeros(z) + s;
    if s != "" {
      ValueOfPadded(z, s[..|s| - 1]);
      assert t[..|t| - 1] == Zeros(z) + s[..|s| - 1];
    } else if z > 0 {
      ValueOfPadded(z - 1, "");
      assert t[..|t| - 1] == Zeros(z - 1) + "";
    }
  }

  ghost predicate IsPadded(s: string, z: nat, n: nat) {
    s == Zeros(z) + PrintNat(n)
  }

  /** Digits are the decimal form of their value behind some zeros. */
  lemma {:induction false} DigitsArePadded(s: string) returns (z: nat)
    requires s != "" && AllDigits(s)
    ensures IsPadded(s, z, Value(s))
  {
    var n := |s| - 1;
    var front, d := s[..n], s[n];
    assert front + [d] == s && AllDigits(front) && Value(s) == 10 * Value(front) + DigitValue(d);
    if Value(front) == 0 {
      AllZeros(front);
      z := n;
      PrintedDigit(d);
    } else {
      hide Value, Zeros, PrintNat, IsPadded;
      z := DigitsArePadded(front);
      PaddedNext(front, z, Value(front), d);
    }
  }

  lemma PrintedDigit(d: char)
    requires IsDigit(d)
    ensures PrintNat(DigitValue(d)) == [d]
  {
  }

  lemma PaddedNext(s: string, z: nat, n: nat, d: char)
    requires n > 0 && IsDigit(d) && IsPadded(s, z, n)
    ensures IsPadded(s + [d], z, 10 * n + DigitValue(d))
  {
    hide Zeros;
    assert (10 * n + DigitValue(d)) / 10 == n && (10 * n + DigitValue(d)) % 10 == DigitValue(d);
  }

  lemma {:induction false} AllZeros(s: string)
    requires AllDigits(s) && Value(s) == 0
    ensures s == Zeros(|s|)
  {
    if s != "" {
      AllZeros(s[..|s| - 1]);
    }
  }

  function Padded(z: nat, n: nat): (d: string)
    ensures d != "" && AllDigits(d)
  {
    Zeros(z) + PrintNat(n)
  }

  /** `s` is the decimal form of `n`, perhaps with zeros in front, behind a sign or none. */
  ghost predicate Denotes(s: string, n: int) {
    exists z: nat :: DenotesWith(s, n, z)
  }

  ghost predicate DenotesWith(s: string, n: int, z: nat) {
    || (n >= 0 && s == Padded(z, n))
    || (n >= 0 && s == ['+'] + Padded(z, n))
    || (n <= 0 && s == ['-'] + Padded(z, -n))
  }

  lemma ParseSigned(d: string)
    requires d != "" && AllDigits(d)
    ensures var n: int := Value(d); Parse(d) == Parse(['+'] + d) == Some(n) && Parse(['-'] + d) == Some(-n)
  {
    hide Value;
    assert IsDigit(d[0]);
    assert (['+'] + d)[1..] == d && (['-'] + d)[1..] == d;
  }

  lemma DenotesParses(s: string, n: int, z: nat)
    requires DenotesWith(s, n, z)
    ensures Parse(s) == Some(n)
  {
    hide Parse, Value, Padded;
    var m: nat := if n >= 0 then n else -n;
    PaddedValue(z, m);
    ParseSigned(Padded(z, m));
  }

  lemma PaddedValue(z: nat, n: nat)
    ensures Value(Padded(z, n)) == n
  {
    hide Value, PrintNat, Zeros;
    ValueOfPrintNat(n);
    ValueOfPadded(z, PrintNat(n));
  }

  lemma ParseDenotes(s: string, n: int)
    requires Parse(s) == Some(n)
    ensures Denotes(s, n)
  {
    var digits := Unsigned(s);
    var z := DigitsArePadded(digits);
    hide Value, PrintNat, Zeros;
    assert digits == Padded(z, Value(digits));
    assert Signed(s) ==> s == [s[0]] + digits;
    assert DenotesWith(s, n, z);
  }

  /** Exactly the decimal forms of the 32-bit numbers parse, each to its number. */
  lemma ParseInt32Iff(s: string, n: int)
    ensures ParseInt32(s) == Some(n) <==> -2147483648 <= n <= 2147483647 && Denotes(s, n)
  {
    hide Parse;
    if ParseInt32(s) == Some(n) {
      ParseDenotes(s, n);
    }
    if Denotes(s, n) {
      var z: nat :| DenotesWith(s, n, z);
      DenotesParses(s, n, z);
    }
  }

  // ---- Separators ----

  /** The length of the longest prefix of `s` without `c`. */
  function Index(s: string, c: char): (i: nat)
    ensures i <= |s| && (i < |s| ==> s[i] == c) && c !in s[..i]
  {
    if s == "" || s[0] == c then 0
    else
      var i := 1 + Index(s[1..], c);
      assert s[..i] == [s[0]] + s[1..][..i - 1];
      i
  }

  /** What follows the last `c`, or all of `s`. */
  function AfterLast(s: string, c: char): string {
    if s == "" || s[|s| - 1] == c then "" else AfterLast(s[..|s| - 1], c) + [s[|s| - 1]]
  }

  lemma {:induction false} AfterLastOf(a: string, x: string, c: char)
    requires c !in x
    ensures AfterLast(a + [c] + x, c) == x
  {
    var s := a + [c] + x;
    if x != "" {
      AfterLastOf(a, x[..|x| - 1], c);
      assert s[..|s| - 1] == a + [c] + x[..|x| - 1];
    }
  }

  /** `x` after the last `c` starts there: what comes before does not matter. */
  lemma CutAtLastSeparator(a: string, b: string, x: string, y: string, c: char)
    requires c !in x && c !in y && a + [c] + x == b + [c] + y
    ensures a == b && x == y
  {
    var s := a + [c] + x;
    AfterLastOf(a, x, c);
    AfterLastOf(b, y, c);
    assert a == s[..|s| - |x| - 1] && b == s[..|s| - |y| - 1];
  }

  function Split(s: string, c: char): (parts: seq<string>)
    ensures parts != []
    decreases |s|
  {
    var i := Index(s, c);
    if i == |s| then [s] else [s[..i]] + Split(s[i + 1..], c)
  }

  function Join(parts: seq<string>, c: char): string {
    if parts == [] then ""
    else if |parts| == 1 then parts[0]
    else parts[0] + [c] + Join(parts[1..], c)
  }

  lemma {:induction false} IndexOfFirst(a: string, x: string, c: char)
    requires c !in a
    ensures Index(a + [c] + x, c) == |a|
  {
    var s := a + [c] + x;
    if a != "" {
      IndexOfFirst(a[1..], x, c);
      assert s[1..] == a[1..] + [c] + x;
    }
  }

  /** `a` followed by `c` ends at the first `c`: what comes after does not matter. */
  lemma CutAtSeparator(a: string, b: string, x: string, y: string, c: char)
    requires c !in a && c !in b && a + [c] + x == b + [c] + y
    ensures a == b && x == y
  {
    var s := a + [c] + x;
    IndexOfFirst(a, x, c);
    IndexOfFirst(b, y, c);
    assert a == s[..|a|] && b == s[..|b|];
    assert x == s[|a| + 1..] && y == s[|b| + 1..];
  }

  lemma {:induction false} NoSeparator(s: string, c: char)
    requires c !in s
    ensures Index(s, c) == |s|
  {
  }

  /** A non-empty list of parts without the separator survives joining and splitting; the empty list comes back
      as one empty part. */
  lemma {:induction false} SplitOfJoin(parts: seq<string>, c: char)
    requires forall p :: p in parts ==> c !in p
    ensures Split(Join(parts, c), c) == if parts == [] then [""] else parts
  {
    if |parts| > 1 {
      var head, rest := parts[0], Join(parts[1..], c);
      SplitOfJoin(parts[1..], c);
      IndexOfFirst(head, rest, c);
      var s := head + [c] + rest;
      assert s[..|head|] == head && s[|head| + 1..] == rest;
      assert parts == [head] + parts[1..];
    } else if |parts| == 1 {
      NoSeparator(parts[0], c);
    }
  }
}
