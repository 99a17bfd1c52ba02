/** Bit strings and their numeric values, and the hexadecimal samples of
    src/Job.cpp that are turned into bit strings. */
module Bits {
  import opened Common

  function Pow2(n: nat): (p: nat)
    ensures p > 0
  {
    if n == 0 then 1 else 2 * Pow2(n - 1)
  }

  lemma {:induction false} Pow2Add(a: nat, b: nat)
    ensures Pow2(a + b) == Pow2(a) * Pow2(b)
  {
    if b > 0 {
      Pow2Add(a, b - 1);
    }
  }

  ghost predicate IsBits(bits: string) {
    forall i :: 0 <= i < |bits| ==> bits[i] == '0' || bits[i] == '1'
  }

  function Bit(c: char): nat {
    if c == '1' then 1 else 0
  }

  /** The number a bit string writes, highest bit first. */
  function Value(bits: string): nat {
    if bits == "" then 0 else 2 * Value(bits[..|bits| - 1]) + Bit(bits[|bits| - 1])
  }

  lemma ValueAppend(bits: string, c: char)
    ensures Value(bits + [c]) == 2 * Value(bits) + Bit(c)
  {
    assert (bits + [c])[..|bits|] == bits;
  }

  lemma {:induction false} ValueConcat(a: string, b: string)
    ensures Value(a + b) == Value(a) * Pow2(|b|) + Value(b)
  {
    if b == "" {
      assert a + b == a;
    } else {
      var n := |b| - 1;
      assert a + b == (a + b[..n]) + [b[n]];
      assert b == b[..n] + [b[n]];
      ValueAppend(a + b[..n], b[n]);
      ValueAppend(b[..n], b[n]);
      ValueConcat(a, b[..n]);
      Double(Value(a), Pow2(n));
    }
  }

  lemma Double(x: nat, p: nat)
    ensures 2 * (x * p) == x * (2 * p)
  {
  }

  lemma {:induction false} ValueBound(bits: string)
    ensures Value(bits) < Pow2(|bits|)
  {
    if bits != "" {
      ValueBound(bits[..|bits| - 1]);
    }
  }

  lemma {:induction false} ValueInjective(a: string, b: string)
    requires IsBits(a) && IsBits(b) && |a| == |b| && Value(a) == Value(b)
    ensures a == b
  {
    if a != "" {
      var n := |a| - 1;
      ValueInjective(a[..n], b[..n]);
      assert a == a[..n] + [a[n]] && b == b[..n] + [b[n]];
    }
  }

  /** The bit string of a given width that writes the value. */
  function Binary(value: nat, width: nat): (bits: string)
    ensures |bits| == width && IsBits(bits)
  {
    if width == 0 then "" else Binary(value / 2, width - 1) + [if value % 2 == 1 then '1' else '0']
  }

  lemma {:induction false} BinaryValue(value: nat, width: nat)
    requires value < Pow2(width)
    ensures Value(Binary(value, width)) == value
  {
    if width > 0 {
      BinaryValue(value / 2, width - 1);
      ValueAppend(Binary(value / 2, width - 1), if value % 2 == 1 then '1' else '0');
    }
  }

  // ----- hexadecimal samples

  function HexDigit(c: char): (digit: Option<nat>)
    ensures digit.Some? ==> digit.value < 16
  {
    if '0' <= c <= '9' then Some(c as int - '0' as int)
    else if 'a' <= c <= 'f' then Some(c as int - 'a' as int + 10)
    else if 'A' <= c <= 'F' then Some(c as int - 'A' as int + 10)
    else None
  }

  predicate HexDigits(s: string) {
    forall i :: 0 <= i < |s| ==> HexDigit(s[i]).Some?
  }

  /** A digit is its place among the sixteen, in either case. */
  lemma HexDigitExact(c: char, digit: nat)
    ensures HexDigit(c) == Some(digit) <==>
      digit < 16 && (c == "0123456789abcdef"[digit] || c == "0123456789ABCDEF"[digit])
  {
    var lower, upper := "0123456789abcdef", "0123456789ABCDEF";
    assert forall d :: 0 <= d < 10 ==> lower[d] as int == '0' as int + d && upper[d] == lower[d];
    assert forall d :: 10 <= d < 16 ==> lower[d] as int == 'a' as int + d - 10 && upper[d] as int == 'A' as int + d - 10;
  }

  function HexValue(s: string): nat
    requires HexDigits(s)
  {
    if s == "" then 0 else 16 * HexValue(s[..|s| - 1]) + HexDigit(s[|s| - 1]).value
  }

  /** "0x" and at least one hexadecimal digit of either case. */
  predicate IsSample(sample: string) {
    |sample| > 2 && sample[0] == '0' && sample[1] == 'x' && HexDigits(sample[2..])
  }

  lemma SampleExact(sample: string)
    ensures IsSample(sample) <==> |sample| > 2 && sample[..2] == "0x" && forall i :: 2 <= i < |sample| ==> HexDigit(sample[i]).Some?
  {
    if |sample| > 2 {
      assert sample[..2] == [sample[0], sample[1]];
      assert forall i :: 2 <= i < |sample| ==> sample[i] == sample[2..][i - 2];
    }
  }

  function SampleValue(sample: string): nat
    requires IsSample(sample)
  {
    HexValue(sample[2..])
  }

  /** A sample is good for a width when it is well-formed and its value fits. */
  predicate Fits(sample: string, width: nat) {
    IsSample(sample) && SampleValue(sample) < Pow2(width)
  }

  function Bitstring(sample: string, width: nat): Result<string> {
    if Fits(sample, width) then Ok(Binary(SampleValue(sample), width)) else Err(Fatal)
  }

  /** The position of the first 1, or None. */
  function FirstOne(bits: string): (i: Option<nat>)
    ensures i.Some? ==> i.value < |bits| && bits[i.value] == '1'
    ensures forall k :: 0 <= k < |bits| && (i.None? || k < i.value) ==> bits[k] != '1'
  {
    if bits == "" then None
    else if bits[0] == '1' then Some(0)
    else
      match FirstOne(bits[1..])
      case None => None
      case Some(i) => Some(i + 1)
  }

  lemma {:induction false} ZeroValue(bits: string)
    ensures Value(bits) == 0 <==> forall k :: 0 <= k < |bits| ==> bits[k] != '1'
  {
    if bits != "" {
      var n := |bits| - 1;
      ZeroValue(bits[..n]);
      assert forall k :: 0 <= k < n ==> bits[k] == bits[..n][k];
    }
  }

  /** Fails exactly on a malformed sample or one whose value does not fit. */
  method ToBits(sample: string, width: nat) returns (r: Result<string>)
    ensures r == Bitstring(sample, width)
  {
    if !(|sample| > 2 && sample[0] == '0' && sample[1] == 'x') {
      return Err(Fatal);
    }
    var digits := sample[2..];
    var bits := "";
    for i := 0 to |digits|
      invariant HexDigits(digits[..i])
      invariant IsBits(bits) && Value(bits) == HexValue(digits[..i])
    {
      hide HexDigits, HexDigit, Value, HexValue, FourBits;
      HexStep(digits, i);
      var value := HexDigit(digits[i]);
      if value.None? {
        return Err(Fatal);
      }
      Nibble(bits, value.value);
      bits := bits + FourBits(value.value);
    }
    assert digits[..|digits|] == digits;
    r := Resize(bits, width, SampleValue(sample));
  }

  /** Cuts surplus zeros off the front, or fills it up with zeros. */
  method Resize(digits: string, width: nat, ghost value: nat) returns (r: Result<string>)
    requires IsBits(digits) && Value(digits) == value
    ensures r == if value < Pow2(width) then Ok(Binary(value, width)) else Err(Fatal)
  {
    hide Pow2, Value, Binary;
    var bits := digits;
    ValueBound(bits);
    if |bits| > width {
      var surplus := |bits| - width;
      Surplus(bits, surplus);
      var one := FirstOne(bits);
      if one.Some? && one.value < surplus {
        return Err(Fatal);
      }
      bits := bits[surplus..];
    }
    BinaryFound(bits, width, value);
    return Ok(seq(width - |bits|, _ => '0') + bits);
  }

  lemma HexStep(digits: string, i: nat)
    requires i < |digits| && HexDigits(digits[..i])
    ensures HexDigit(digits[i]).None? ==> !HexDigits(digits)
    ensures HexDigit(digits[i]).Some? ==>
      HexDigits(digits[..i + 1]) && HexValue(digits[..i + 1]) == 16 * HexValue(digits[..i]) + HexDigit(digits[i]).value
  {
    hide HexDigit;
    assert digits[..i + 1][..i] == digits[..i];
  }

  /** The bits of a hexadecimal digit, highest first. */
  function FourBits(digit: nat): (bits: string)
    ensures IsBits(bits)
  {
    [if (digit / 8) % 2 != 0 then '1' else '0']
    + [if (digit / 4) % 2 != 0 then '1' else '0']
    + [if (digit / 2) % 2 != 0 then '1' else '0']
    + [if digit % 2 != 0 then '1' else '0']
  }

  lemma Nibble(bits: string, digit: nat)
    requires digit < 16 && IsBits(bits)
    ensures Value(bits + FourBits(digit)) == 16 * Value(bits) + digit
  {
    var four := FourBits(digit);
    assert bits + four == bits + [four[0]] + [four[1]] + [four[2]] + [four[3]];
    ValueAppend(bits, four[0]);
    ValueAppend(bits + [four[0]], four[1]);
    ValueAppend(bits + [four[0]] + [four[1]], four[2]);
    ValueAppend(bits + [four[0]] + [four[1]] + [four[2]], four[3]);
    NibbleBits(digit);
    hide Value;
  }

  lemma NibbleBits(digit: nat)
    requires digit < 16
    ensures digit == 8 * ((digit / 8) % 2) + 4 * ((digit / 4) % 2) + 2 * ((digit / 2) % 2) + digit % 2
  {
    var half := digit / 2;
    assert half / 2 == digit / 4 && half / 4 == digit / 8;
  }

  /** The surplus bits are all zero exactly when the value fits in the rest. */
  lemma Surplus(bits: string, surplus: nat)
    requires surplus <= |bits|
    ensures (FirstOne(bits).None? || FirstOne(bits).value >= surplus) <==> Value(bits) < Pow2(|bits| - surplus)
    ensures Value(bits) < Pow2(|bits| - surplus) ==> Value(bits[surplus..]) == Value(bits)
  {
    var high, low := bits[..surplus], bits[surplus..];
    assert bits == high + low;
    ValueConcat(high, low);
    ValueBound(low);
    ZeroValue(high);
    if Value(high) > 0 {
      Scaled(Value(high), Pow2(|low|));
    }
    assert forall k :: 0 <= k < surplus ==> bits[k] == high[k];
  }

  lemma Scaled(x: nat, p: nat)
    requires x > 0
    ensures x * p >= p
  {
  }

  lemma BinaryFound(bits: string, width: nat, value: nat)
    requires IsBits(bits) && |bits| <= width && Value(bits) == value
    ensures value < Pow2(width)
    ensures seq(width - |bits|, _ => '0') + bits == Binary(value, width)
  {
    var padded := seq(width - |bits|, _ => '0') + bits;
    ZerosInFront(width - |bits|, bits);
    hide Value, Binary, Pow2;
    ValueBound(padded);
    BinaryValue(value, width);
    ValueInjective(padded, Binary(value, width));
  }

  lemma ZerosInFront(n: nat, bits: string)
    requires IsBits(bits)
    ensures IsBits(seq(n, _ => '0') + bits)
    ensures Value(seq(n, _ => '0') + bits) == Value(bits)
  {
    var zeros := seq(n, _ => '0');
    ZeroValue(zeros);
    ValueConcat(zeros, bits);
    NoTimes(Value(zeros), Pow2(|bits|));
  }

  lemma NoTimes(x: nat, p: nat)
    requires x == 0
    ensures x * p == 0
  {
  }
}
