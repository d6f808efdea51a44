/** Decimal text and 64-bit integers, as the Go library converts between them. */
module Decimal {
  import opened Resource

  const MAX_INT := 0x7FFF_FFFF_FFFF_FFFF

  /** 64-bit two's complement wrap-around. */
  function Wrap(n: int): int {
    (n + MAX_INT + 1) % (2 * (MAX_INT + 1)) - MAX_INT - 1
  }

  predicate Int64(n: int) {
    -MAX_INT - 1 <= n <= MAX_INT
  }

  /** Wrapping always lands in range, and changes nothing that is in range already. */
  lemma WrapSays(n: int)
    ensures Int64(Wrap(n)) && (Int64(n) ==> Wrap(n) == n)
    ensures MAX_INT < n <= 2 * MAX_INT ==> Wrap(n) == n - 2 * (MAX_INT + 1)
    ensures -2 * (MAX_INT + 1) <= n < -MAX_INT - 1 ==> Wrap(n) == n + 2 * (MAX_INT + 1)
  {
  }

  predicate IsDigit(c: char) {
    '0' <= c <= '9'
  }

  function DigitValue(c: char): nat
    requires IsDigit(c)
  {
    c as int - '0' as int
  }

  function Itoa(n: nat): string {
    if n < 10 then [('0' as int + n) as char] else Itoa(n / 10) + [('0' as int + n % 10) as char]
  }

  predicate AllDigits(s: string) {
    forall i :: 0 <= i < |s| ==> IsDigit(s[i])
  }

  function Value(s: string): nat
    requires AllDigits(s)
  {
    if s == [] then 0 else 10 * Value(s[..|s| - 1]) + DigitValue(s[|s| - 1])
  }

  /** Decimal text to a 64-bit integer: an optional sign, then digits only, within range. */
  function Atoi(s: string): Option<int> {
    var signed := s != [] && (s[0] == '+' || s[0] == '-');
    var digits := if signed then s[1..] else s;
    if digits == [] || !AllDigits(digits) then None
    else
      var v := if signed && s[0] == '-' then -(Value(digits) as int) else Value(digits);
      if -MAX_INT - 1 <= v <= MAX_INT then Some(v) else None
  }

  lemma {:induction false} ItoaDigits(n: nat)
    ensures Itoa(n) != [] && AllDigits(Itoa(n)) && Value(Itoa(n)) == n
  {
    var last := ('0' as int + n % 10) as char;
    if n >= 10 {
      ItoaDigits(n / 10);
      assert Itoa(n)[..|Itoa(n)| - 1] == Itoa(n / 10);
    } else {
      assert Itoa(n)[..0] == [];
    }
  }

  lemma ItoaUnsigned(n: nat)
    ensures Itoa(n) != [] && IsDigit(Itoa(n)[0]) && Itoa(n)[0] != '+' && Itoa(n)[0] != '-'
  {
    ItoaDigits(n);
  }

  /** Decimal is base ten. */
  lemma TenIsTen()
    ensures Itoa(10) == "10" && Value("10") == 10 && MAX_INT == 9_223_372_036_854_775_807
  {
    assert Itoa(1) == "1";
    assert "10"[..1] == "1" && "1"[..0] == "";
    assert Value("1") == 1;
  }

  /** Numbers are read back with or without a sign, as long as they fit in 64 bits. */
  lemma AtoiSigned(n: nat)
    ensures Atoi(Itoa(n)) == if n <= MAX_INT then Some(n) else None
    ensures Atoi("+" + Itoa(n)) == if n <= MAX_INT then Some(n) else None
    ensures n <= MAX_INT + 1 ==> Atoi("-" + Itoa(n)).Some? && Atoi("-" + Itoa(n)).value == -(n as int)
    ensures n > MAX_INT + 1 ==> Atoi("-" + Itoa(n)) == None
  {
    hide Itoa;
    ItoaDigits(n);
    ItoaUnsigned(n);
    assert ("+" + Itoa(n))[1..] == Itoa(n) && ("-" + Itoa(n))[1..] == Itoa(n);
  }

  /** Anything but digits after the first character, or a lone sign or other character, is refused. */
  lemma AtoiRefuses(s: string)
    ensures Atoi("") == None
    ensures (exists i :: 0 < i < |s| && !IsDigit(s[i])) ==> Atoi(s) == None
    ensures |s| == 1 && !IsDigit(s[0]) ==> Atoi(s) == None
    ensures s != [] && !IsDigit(s[0]) && s[0] != '+' && s[0] != '-' ==> Atoi(s) == None
  {
    if i :| 0 < i < |s| && !IsDigit(s[i]) {
      assert s[1..][i - 1] == s[i];
    }
  }

  lemma {:induction false} ZeroInFront(s: string)
    requires AllDigits(s)
    ensures AllDigits("0" + s) && Value("0" + s) == Value(s)
  {
    var t := "0" + s;
    assert AllDigits(t);
    if s == [] {
      assert t[..|t| - 1] == [];
    } else {
      ZeroInFront(s[..|s| - 1]);
      assert t[..|t| - 1] == "0" + s[..|s| - 1];
    }
  }

  lemma LeadingZero(s: string)
    requires AllDigits(s) && s != []
    ensures Atoi("0" + s) == Atoi(s)
  {
    ZeroInFront(s);
  }
}
