/** Fixed-width bounds of the source's integers, and numbers in decimal text. */
module Numbers {
  const U32_MAX := 0xFFFF_FFFF
  type u32 = n: nat | n <= U32_MAX

  const U64_MAX := 0xFFFF_FFFF_FFFF_FFFF
  type u64 = n: nat | n <= U64_MAX

  function Max(a: nat, b: nat): nat { if a > b then a else b }

  function Min(a: nat, b: nat): nat { if a < b then a else b }

  predicate IsDigit(c: char) { '0' <= c <= '9' }

  predicate AllDigits(s: string) { forall c :: c in s ==> IsDigit(c) }

  /** The number a string of digits stands for. */
  function Value(s: string): nat
    requires AllDigits(s)
  {
    if s == "" then 0
    else
      assert IsDigit(s[|s| - 1]);
      Value(s[..|s| - 1]) * 10 + (s[|s| - 1] as int - '0' as int)
  }

  function Decimal(n: nat): (s: string)
    ensures s != "" && AllDigits(s) && Value(s) == n
  {
    if n < 10 then
      var s := [('0' as int + n) as char];
      assert s[..0] == "";
      s
    else
      var head := Decimal(n / 10);
      var s := head + [('0' as int + n % 10) as char];
      assert s[..|s| - 1] == head;
      s
  }
}
