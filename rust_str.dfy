/**
 * The few operations of Rust's `String` that the composition code relies on.
 * A Rust string is a sequence of Unicode scalar values stored as UTF-8, so
 * `String::len` counts bytes while `String::pop` removes one scalar value.
 */
module RustStr {

  /** Number of bytes UTF-8 uses for one scalar value. */
  function Utf8Width(c: char): (n: nat)
    ensures 1 <= n <= 4
    ensures n == 1 <==> (c as int) < 0x80
  {
    if (c as int) < 0x80 then 1
    else if (c as int) < 0x800 then 2
    else if (c as int) < 0x10000 then 3
    else 4
  }

  /** `String::len`: the length of the UTF-8 encoding in bytes. */
  function ByteLen(s: string): nat
  {
    if s == [] then 0 else ByteLen(s[..|s| - 1]) + Utf8Width(s[|s| - 1])
  }

  lemma {:induction false} ByteLenAtLeastCharCount(s: string)
    ensures ByteLen(s) >= |s|
  {
    if s != [] {
      ByteLenAtLeastCharCount(s[..|s| - 1]);
    }
  }

  /** A string is one byte long exactly when it is a single ASCII character. */
  lemma {:induction false} ByteLenOne(s: string)
    ensures ByteLen(s) == 1 <==> |s| == 1 && (s[0] as int) < 0x80
  {
    if s != [] {
      ByteLenAtLeastCharCount(s[..|s| - 1]);
      if |s| == 1 {
        assert s[..0] == [];
      }
    }
  }

  /** `String::pop`: drops the last scalar value, if there is one. */
  function Pop(s: string): (r: string)
    ensures s == [] ==> r == []
    ensures s != [] ==> |r| == |s| - 1 && r + [s[|s| - 1]] == s
  {
    if s == [] then [] else s[..|s| - 1]
  }

  lemma PushPop(s: string, c: char)
    ensures Pop(s + [c]) == s
  {
    assert (s + [c])[..|s|] == s;
  }

  function DigitChar(d: int): (c: char)
    requires 0 <= d <= 9
    ensures '0' <= c <= '9' && (c as int) - ('0' as int) == d
  {
    (('0' as int) + d) as char
  }

  /** Value of a string of decimal digits; used to state what `Decimal` produces. */
  function DigitsValue(s: string): int
    requires forall i :: 0 <= i < |s| ==> '0' <= s[i] <= '9'
  {
    if s == [] then 0
    else DigitsValue(s[..|s| - 1]) * 10 + ((s[|s| - 1] as int) - ('0' as int))
  }

  /** Decimal digits of a natural number, most significant first, as `{}` prints them. */
  function NatDigits(n: nat): (r: string)
    ensures |r| >= 1
    ensures forall i :: 0 <= i < |r| ==> '0' <= r[i] <= '9'
    ensures DigitsValue(r) == n
    ensures n < 10 ==> r == [DigitChar(n)]
  {
    if n < 10 then [DigitChar(n)]
    else
      var prefix := NatDigits(n / 10);
      var r := prefix + [DigitChar(n % 10)];
      assert r[..|r| - 1] == prefix;
      r
  }

  /** `i8::to_string` / `i32::to_string`: a leading '-' for negative values. */
  function Decimal(n: int): (r: string)
    ensures n >= 0 ==> r == NatDigits(n)
    ensures n < 0 ==> r == ['-'] + NatDigits(-n)
  {
    if n >= 0 then NatDigits(n) else ['-'] + NatDigits(-n)
  }
}
