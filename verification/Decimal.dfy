/** Decimal text as Go's strconv writes and reads it. */
module Decimal {
  import opened Wrappers

  const MIN_INT64 := -0x8000_0000_0000_0000
  const MAX_INT64 := 0x7fff_ffff_ffff_ffff

  predicate IsInt64(n: int) {
    MIN_INT64 <= n <= MAX_INT64
  }

  predicate IsDigit(c: char) {
    '0' <= c <= '9'
  }

  predicate AllDigits(s: string) {
    forall i :: 0 <= i < |s| ==> IsDigit(s[i])
  }

  function FormatNat(n: nat): (s: string)
    ensures s != "" && AllDigits(s)
  {
    if n < 10 then ["0123456789"[n]] else FormatNat(n / 10) + ["0123456789"[n % 10]]
  }

  /** strconv.FormatInt(n, 10). */
  function FormatInt(n: int): string {
    if n < 0 then "-" + FormatNat(-n) else FormatNat(n)
  }

  function DigitsValue(s: string): nat
    requires AllDigits(s)
  {
    if s == "" then 0
    else
      assert IsDigit(s[|s| - 1]);
      10 * DigitsValue(s[..|s| - 1]) + (s[|s| - 1] as int - '0' as int)
  }

  /** strconv.ParseInt(s, 10, 64): an optional sign, at least one digit, nothing out of range. */
  function ParseInt(s: string): Option<int> {
    var body := if s != "" && (s[0] == '-' || s[0] == '+') then s[1..] else s;
    if body == "" || !AllDigits(body) then None
    else
      var n: int := if s[0] == '-' then 0 - DigitsValue(body) else DigitsValue(body);
      if IsInt64(n) then Some(n) else None
  }

  /** A sign and digits. */
  ghost predicate Signed(s: string, sign: string, digits: string) {
    s == sign + digits && sign in {"", "+", "-"} && digits != "" && AllDigits(digits)
  }

  /** What is read is a sign or none and then digits; their value is the number, if it fits 64 bits. */
  lemma {:induction false} ParseIntIs(s: string)
    ensures ParseInt(s).Some? ==> exists sign, digits :: Signed(s, sign, digits)
    ensures forall sign, digits :: Signed(s, sign, digits) ==>
              var n: int := if sign == "-" then 0 - DigitsValue(digits) else DigitsValue(digits);
              ParseInt(s) == if -0x8000_0000_0000_0000 <= n <= 0x7fff_ffff_ffff_ffff then Some(n) else None
  {
    hide DigitsValue;
    if s != "" && (s[0] == '-' || s[0] == '+') {
      assert s == [s[0]] + s[1..];
      assert ParseInt(s).Some? ==> Signed(s, [s[0]], s[1..]);
    } else {
      assert s == "" + s;
      assert ParseInt(s).Some? ==> Signed(s, "", s);
    }
    forall sign, digits | Signed(s, sign, digits)
      ensures var n: int := if sign == "-" then 0 - DigitsValue(digits) else DigitsValue(digits);
              ParseInt(s) == if -0x8000_0000_0000_0000 <= n <= 0x7fff_ffff_ffff_ffff then Some(n) else None
    {
      assert IsDigit(digits[0]);
      if sign == "" {
        assert s == digits;
      } else {
        assert s[0] == sign[0] && s[1..] == digits;
      }
    }
  }

  /** A digit put behind others counts ones, and the others tens. */
  lemma {:induction false} DigitsCount(digits: string, c: char)
    requires AllDigits(digits) && '0' <= c <= '9'
    ensures AllDigits(digits + [c]) && DigitsValue([]) == 0
    ensures DigitsValue(digits + [c]) == 10 * DigitsValue(digits) + (c as int - '0' as int)
  {
    assert (digits + [c])[..|digits|] == digits;
  }

  lemma {:induction false} NatRoundTrip(n: nat)
    ensures DigitsValue(FormatNat(n)) == n
  {
    if n < 10 {
      var s := FormatNat(n);
      assert s[..|s| - 1] == "";
    } else {
      NatRoundTrip(n / 10);
      var s := FormatNat(n);
      assert s[..|s| - 1] == FormatNat(n / 10);
    }
  }

  /** A number reads back exactly when it fits 64 bits; any other is refused. */
  lemma {:induction false} IntRoundTrip(n: int)
    ensures ParseInt(FormatInt(n)) == if IsInt64(n) then Some(n) else None
  {
    hide FormatNat, DigitsValue;
    var s := FormatInt(n);
    if n < 0 {
      NatRoundTrip(-n);
      assert s[1..] == FormatNat(-n);
    } else {
      NatRoundTrip(n);
      assert IsDigit(s[0]);
    }
  }
}
