/** The base64 of src/Qpy.cpp (sections 3.5 and 4 of RFC 4648). What it means for
    a text to be the encoding of bytes is said with numbers: the digits of the
    text and the bytes are the same number up to the zero bits of the padding.
    Encoder and decoder are proved against that relation. */
module Base64 {
  import opened Common

  type Byte = x: int | 0 <= x < 256

  /** The values of std::uint32_t are the integers below this one. */
  const WORD := 0x1_0000_0000

  // ----- numbers

  /** The number that the bytes write in base 256, highest digit first. */
  function Num256(bytes: seq<Byte>): nat {
    if bytes == [] then 0 else 256 * Num256(bytes[..|bytes| - 1]) + bytes[|bytes| - 1] as int
  }

  type Digit = x: int | 0 <= x < 64

  function Num64(digits: seq<Digit>): nat {
    if digits == [] then 0 else 64 * Num64(digits[..|digits| - 1]) + digits[|digits| - 1]
  }

  // ----- the alphabet: A to Z, a to z, 0 to 9, plus and slash

  function Letter(digit: Digit): char {
    if digit < 26 then ('A' as int + digit) as char
    else if digit < 52 then ('a' as int + digit - 26) as char
    else if digit < 62 then ('0' as int + digit - 52) as char
    else if digit == 62 then '+' else '/'
  }

  const ALPHABET := "ABCDEFGHIJKLMNOPQRSTUVWXYZ" + "abcdefghijklmnopqrstuvwxyz" + "0123456789" + "+/"

  lemma AlphabetExact(digit: Digit)
    ensures |ALPHABET| == 64 && Letter(digit) == ALPHABET[digit]
  {
    var upper, lower, digits := "ABCDEFGHIJKLMNOPQRSTUVWXYZ", "abcdefghijklmnopqrstuvwxyz", "0123456789";
    assert forall i :: 0 <= i < 26 ==> upper[i] as int == 'A' as int + i;
    assert forall i :: 0 <= i < 26 ==> lower[i] as int == 'a' as int + i;
    assert forall i :: 0 <= i < 10 ==> digits[i] as int == '0' as int + i;
    assert ALPHABET == upper + lower + digits + "+/";
  }

  /** The position of a character in the alphabet. */
  function Find(c: char): (digit: Option<Digit>)
    ensures digit.Some? ==> Letter(digit.value) == c
    ensures digit.None? ==> forall d: Digit :: Letter(d) != c
  {
    if 'A' <= c <= 'Z' then Some(c as int - 'A' as int)
    else if 'a' <= c <= 'z' then Some(c as int - 'a' as int + 26)
    else if '0' <= c <= '9' then Some(c as int - '0' as int + 52)
    else if c == '+' then Some(62)
    else if c == '/' then Some(63)
    else None
  }

  lemma LetterInjective(a: Digit, b: Digit)
    requires Letter(a) == Letter(b)
    ensures a == b
  {
    assert Find(Letter(a)) == Some(a);
  }

  lemma Num256Append(bytes: seq<Byte>, last: Byte)
    ensures Num256(bytes + [last]) == 256 * Num256(bytes) + last
  {
    assert (bytes + [last])[..|bytes|] == bytes;
  }

  lemma Num64Append(digits: seq<Digit>, last: Digit)
    ensures Num64(digits + [last]) == 64 * Num64(digits) + last
  {
    assert (digits + [last])[..|digits|] == digits;
  }

  lemma {:induction false} Num256Injective(a: seq<Byte>, b: seq<Byte>)
    requires |a| == |b| && Num256(a) == Num256(b)
    ensures a == b
  {
    if a != [] {
      var n := |a| - 1;
      Num256Injective(a[..n], b[..n]);
      assert a == a[..n] + [a[n]] && b == b[..n] + [b[n]];
    }
  }

  lemma {:induction false} Num64Injective(a: seq<Digit>, b: seq<Digit>)
    requires |a| == |b| && Num64(a) == Num64(b)
    ensures a == b
  {
    if a != [] {
      var n := |a| - 1;
      Num64Injective(a[..n], b[..n]);
      assert a == a[..n] + [a[n]] && b == b[..n] + [b[n]];
    }
  }

  // ----- what an encoding is

  function Letters(digits: seq<Digit>): (text: string)
    ensures |text| == |digits|
  {
    seq(|digits|, i requires 0 <= i < |digits| => Letter(digits[i]))
  }

  function Padding(bytes: seq<Byte>): (n: nat)
    ensures n < 3
  {
    (3 - |bytes| % 3) % 3
  }

  /** Four to the power of the padding: the zero bits behind the last byte. */
  function Slack(padding: nat): nat
    requires padding < 3
  {
    if padding == 0 then 1 else if padding == 1 then 4 else 16
  }

  function Signs(padding: nat): string
    requires padding < 3
  {
    if padding == 0 then "" else if padding == 1 then "=" else "=="
  }

  ghost predicate EncodesBy(bytes: seq<Byte>, digits: seq<Digit>, text: string) {
    && text == Letters(digits) + Signs(Padding(bytes))
    && 3 * (|digits| + Padding(bytes)) == 4 * (|bytes| + Padding(bytes))
    && Num64(digits) == Num256(bytes) * Slack(Padding(bytes))
  }

  ghost predicate Encodes(bytes: seq<Byte>, text: string) {
    exists digits: seq<Digit> :: EncodesBy(bytes, digits, text)
  }

  // ----- an encoding determines the bytes and the bytes determine it

  /** The padding can be read off the text. */
  lemma SignsAt(bytes: seq<Byte>, digits: seq<Digit>, text: string)
    requires EncodesBy(bytes, digits, text)
    ensures Padding(bytes) == (if text == "" || text[|text| - 1] != '=' then 0 else if text[|text| - 2] != '=' then 1 else 2)
  {
    if digits != [] {
      assert text[|digits| - 1] == Letter(digits[|digits| - 1]);
    }
  }

  lemma SameText(a: seq<Byte>, b: seq<Byte>, da: seq<Digit>, db: seq<Digit>, text: string)
    requires EncodesBy(a, da, text) && EncodesBy(b, db, text)
    ensures da == db && |a| == |b|
  {
    var n := |text|;
    assert n == |da| + Padding(a) == |db| + Padding(b);
    SignsAt(a, da, text);
    SignsAt(b, db, text);
    forall i | 0 <= i < |da|
      ensures da[i] == db[i]
    {
      assert text[i] == Letter(da[i]) == Letter(db[i]);
      LetterInjective(da[i], db[i]);
    }
  }

  /** No text encodes two byte strings. */
  lemma DecodingUnique(a: seq<Byte>, b: seq<Byte>, text: string)
    requires Encodes(a, text) && Encodes(b, text)
    ensures a == b
  {
    var da :| EncodesBy(a, da, text);
    var db :| EncodesBy(b, db, text);
    SameText(a, b, da, db, text);
    Num256Injective(a, b);
  }

  /** No byte string has two encodings. */
  lemma EncodingUnique(bytes: seq<Byte>, s: string, t: string)
    requires Encodes(bytes, s) && Encodes(bytes, t)
    ensures s == t
  {
    var ds :| EncodesBy(bytes, ds, s);
    var dt :| EncodesBy(bytes, dt, t);
    Num64Injective(ds, dt);
  }

  // ----- the encoder

  /** The byte at an offset as a word, zero behind the end. */
  function At(bytes: seq<Byte>, i: nat): (b: nat)
    ensures b < 256
  {
    if i < |bytes| then bytes[i] else 0
  }

  /** The 24-bit word of up to three bytes. */
  function Word(bytes: seq<Byte>, i: nat): (word: nat)
    ensures word < 0x100_0000
  {
    0x1_0000 * At(bytes, i) + 0x100 * At(bytes, i + 1) + At(bytes, i + 2)
  }

  method EncodeBase64(bytes: seq<Byte>) returns (encoded: string)
    ensures encoded == Encoded(bytes)
  {
    encoded := "";
    ghost var digits: seq<Digit> := [];
    var index := 0;
    while index < |bytes|
      invariant 0 <= index && (index % 3 == 0 || index >= |bytes|)
      invariant EncodesBy(bytes[..Min(index, |bytes|)], digits, encoded)
    {
      hide EncodesBy, Letter;
      var remaining := |bytes| - index;
      // Each term occupies its own bits, so the source's bitwise or is a sum.
      var word := (At(bytes, index) * 0x1_0000) % WORD
        + (if remaining > 1 then At(bytes, index + 1) * 0x100 else 0)
        + (if remaining > 2 then At(bytes, index + 2) else 0);
      var d0: Digit, d1: Digit, d2: Digit, d3: Digit :=
        (word / 0x4_0000) % 64, (word / 0x1000) % 64, (word / 64) % 64, word % 64;
      WordDigits(bytes, index, word, d0, d1, d2, d3);
      digits := EncodeStep(bytes, index, digits, encoded, d0, d1, d2, d3);
      encoded := encoded + [Letter(d0)] + [Letter(d1)];
      encoded := encoded + [if remaining > 1 then Letter(d2) else '='];
      encoded := encoded + [if remaining > 2 then Letter(d3) else '='];
      index := index + 3;
    }
    assert bytes[..|bytes|] == bytes;
    assert Encodes(bytes, encoded);
    EncodingUnique(bytes, encoded, Encoded(bytes));
  }

  lemma WordDigits(bytes: seq<Byte>, index: nat, word: nat, d0: Digit, d1: Digit, d2: Digit, d3: Digit)
    requires index < |bytes|
    requires word == (At(bytes, index) * 0x1_0000) % WORD
      + (if |bytes| - index > 1 then At(bytes, index + 1) * 0x100 else 0)
      + (if |bytes| - index > 2 then At(bytes, index + 2) else 0)
    requires d0 == (word / 0x4_0000) % 64 && d1 == (word / 0x1000) % 64 && d2 == (word / 64) % 64 && d3 == word % 64
    ensures Word(bytes, index) == 0x4_0000 * d0 as int + 0x1000 * d1 as int + 64 * d2 as int + d3 as int
  {
    assert word == Word(bytes, index);
    Digits24(word);
  }

  lemma Digits24(word: nat)
    requires word < 0x100_0000
    ensures word == 0x4_0000 * ((word / 0x4_0000) % 64) + 0x1000 * ((word / 0x1000) % 64) + 64 * ((word / 64) % 64) + word % 64
  {
    var a := word / 64;
    var b := a / 64;
    assert b == word / 0x1000;
    assert b / 64 == word / 0x4_0000;
  }

  /** One turn of the encoder's loop adds the digits of one word. */
  lemma EncodeStep(bytes: seq<Byte>, index: nat, digits: seq<Digit>, encoded: string,
                   d0: Digit, d1: Digit, d2: Digit, d3: Digit) returns (all: seq<Digit>)
    requires index < |bytes| && index % 3 == 0
    requires EncodesBy(bytes[..index], digits, encoded)
    requires Word(bytes, index) == 0x4_0000 * d0 as int + 0x1000 * d1 as int + 64 * d2 as int + d3 as int
    ensures EncodesBy(bytes[..Min(index + 3, |bytes|)], all,
                      encoded + [Letter(d0)] + [Letter(d1)] +
                      [if index + 1 < |bytes| then Letter(d2) else '='] +
                      [if index + 2 < |bytes| then Letter(d3) else '='])
  {
    var done := bytes[..index];
    if index + 1 == |bytes| {
      all := digits + [d0] + [d1];
      assert bytes[..Min(index + 3, |bytes|)] == done + [bytes[index]];
      LastOne(done, bytes[index], digits, encoded, d0, d1);
    } else if index + 2 == |bytes| {
      all := digits + [d0] + [d1] + [d2];
      assert bytes[..Min(index + 3, |bytes|)] == done + [bytes[index]] + [bytes[index + 1]];
      LastTwo(done, bytes[index], bytes[index + 1], digits, encoded, d0, d1, d2);
    } else {
      all := digits + [d0] + [d1] + [d2] + [d3];
      assert bytes[..Min(index + 3, |bytes|)] == done + [bytes[index]] + [bytes[index + 1]] + [bytes[index + 2]];
      NextThree(done, bytes[index], bytes[index + 1], bytes[index + 2], digits, encoded, d0, d1, d2, d3);
    }
  }

  lemma LastOne(done: seq<Byte>, x: Byte, digits: seq<Digit>, encoded: string, d0: Digit, d1: Digit)
    requires |done| % 3 == 0 && EncodesBy(done, digits, encoded)
    requires 64 * d0 as int + d1 as int == 16 * x as int
    ensures EncodesBy(done + [x], digits + [d0] + [d1], encoded + [Letter(d0)] + [Letter(d1)] + ['='] + ['='])
  {
    Num256Append(done, x);
    Num64Append(digits, d0);
    Num64Append(digits + [d0], d1);
    hide Num64, Num256, Letter;
    assert encoded + [Letter(d0)] + [Letter(d1)] + ['='] + ['='] == Letters(digits + [d0] + [d1]) + "==";
  }

  lemma LastTwo(done: seq<Byte>, x: Byte, y: Byte, digits: seq<Digit>, encoded: string, d0: Digit, d1: Digit, d2: Digit)
    requires |done| % 3 == 0 && EncodesBy(done, digits, encoded)
    requires 0x1000 * d0 as int + 64 * d1 as int + d2 as int == 0x400 * x as int + 4 * y as int
    ensures EncodesBy(done + [x] + [y], digits + [d0] + [d1] + [d2], encoded + [Letter(d0)] + [Letter(d1)] + [Letter(d2)] + ['='])
  {
    Num256Append(done, x);
    Num256Append(done + [x], y);
    Num64Append(digits, d0);
    Num64Append(digits + [d0], d1);
    Num64Append(digits + [d0] + [d1], d2);
    hide Num64, Num256, Letter;
    assert encoded + [Letter(d0)] + [Letter(d1)] + [Letter(d2)] + ['='] == Letters(digits + [d0] + [d1] + [d2]) + "=";
  }

  lemma NextThree(done: seq<Byte>, x: Byte, y: Byte, z: Byte, digits: seq<Digit>, encoded: string,
                  d0: Digit, d1: Digit, d2: Digit, d3: Digit)
    requires |done| % 3 == 0 && EncodesBy(done, digits, encoded)
    requires 0x4_0000 * d0 as int + 0x1000 * d1 as int + 64 * d2 as int + d3 as int == 0x1_0000 * x as int + 0x100 * y as int + z as int
    ensures EncodesBy(done + [x] + [y] + [z], digits + [d0] + [d1] + [d2] + [d3],
                      encoded + [Letter(d0)] + [Letter(d1)] + [Letter(d2)] + [Letter(d3)])
  {
    Num256Append(done, x);
    Num256Append(done + [x], y);
    Num256Append(done + [x] + [y], z);
    Num64Append(digits, d0);
    Num64Append(digits + [d0], d1);
    Num64Append(digits + [d0] + [d1], d2);
    Num64Append(digits + [d0] + [d1] + [d2], d3);
    hide Num64, Num256, Letter;
    assert encoded + [Letter(d0)] + [Letter(d1)] + [Letter(d2)] + [Letter(d3)] == Letters(digits + [d0] + [d1] + [d2] + [d3]) + "";
  }

  /** Every byte string has an encoding: the encoder's loop as an induction. */
  lemma {:induction false} EncodingGoesOn(bytes: seq<Byte>, index: nat, digits: seq<Digit>, encoded: string)
    requires index % 3 == 0 || index >= |bytes|
    requires EncodesBy(bytes[..Min(index, |bytes|)], digits, encoded)
    ensures exists text :: Encodes(bytes, text)
    decreases |bytes| - index
  {
    hide EncodesBy, Letter;
    if index < |bytes| {
      var word := Word(bytes, index);
      var d0: Digit, d1: Digit, d2: Digit, d3: Digit :=
        (word / 0x4_0000) % 64, (word / 0x1000) % 64, (word / 64) % 64, word % 64;
      Digits24(word);
      var all := EncodeStep(bytes, index, digits, encoded, d0, d1, d2, d3);
      EncodingGoesOn(bytes, index + 3, all,
                     encoded + [Letter(d0)] + [Letter(d1)] +
                     [if index + 1 < |bytes| then Letter(d2) else '='] +
                     [if index + 2 < |bytes| then Letter(d3) else '=']);
    } else {
      assert bytes[..|bytes|] == bytes;
      assert Encodes(bytes, encoded);
    }
  }

  lemma EncodingExists(bytes: seq<Byte>)
    ensures exists text :: Encodes(bytes, text)
  {
    assert EncodesBy(bytes[..0], [], "");
    EncodingGoesOn(bytes, 0, [], "");
  }

  /** The encoding of the bytes. */
  ghost function Encoded(bytes: seq<Byte>): (text: string)
    ensures Encodes(bytes, text)
  {
    EncodingExists(bytes);
    var text :| Encodes(bytes, text);
    text
  }

  // ----- the decoder

  /** The place values of the bits that wait for the next byte. */
  function Pending(bits: nat): (p: nat)
    ensures p > 0
  {
    if bits == 0 then 1 else if bits == 2 then 4 else if bits == 4 then 16 else 64
  }

  /** What the decoder's loop knows: `word` is the number of the digits so far
      modulo 2^32, and the bytes with the pending bits behind them are that
      number exactly. */
  ghost predicate Decoding(digits: seq<Digit>, compressed: seq<Byte>, word: nat, bits: nat) {
    && bits in {0, 2, 4, 6}
    && word == Num64(digits) % WORD
    && 6 * |digits| == 8 * |compressed| + bits
    && Num64(digits) == Pending(bits) * Num256(compressed) + word % Pending(bits)
  }

  /** Shifting in a digit: the wrapped word stays the unbounded number modulo 2^32. */
  lemma WordWraps(n: nat, word: nat, digit: nat)
    requires word == n % WORD && digit < 64
    ensures (word * 64) % WORD + digit == (64 * n + digit) % WORD
  {
    var q, r, low := n / WORD, word / 0x400_0000, word % 0x400_0000;
    Remainder(word * 64, WORD, r, 64 * low);
    assert 64 * n + digit == WORD * (64 * q + r) + (64 * low + digit);
    Remainder(64 * n + digit, WORD, 64 * q + r, 64 * low + digit);
  }

  lemma Remainder(x: nat, m: nat, q: nat, r: nat)
    requires m > 0 && r < m && x == m * q + r
    ensures x % m == r
  {
    var e, f := x / m, x % m;
    assert x == m * e + f;
    var d := q - e;
    assert m * d == m * q - m * e == f - r;
    if d > 0 {
      AtLeast(m, d);
    } else if d < 0 {
      AtLeast(m, -d);
    }
  }

  lemma AtLeast(m: nat, d: int)
    requires d >= 1
    ensures m * d >= m
  {
  }

  /** The low bits of the wrapped word are the pending bits with the new digit
      behind them. */
  lemma LowBits(word: nat, digit: nat, bits: nat)
    requires bits in {0, 2, 4, 6} && digit < 64
    ensures ((word * 64) % WORD + digit) % (64 * Pending(bits)) == 64 * (word % Pending(bits)) + digit
  {
    var r, low := word / 0x400_0000, word % 0x400_0000;
    Remainder(word * 64, WORD, r, 64 * low);
    var p := Pending(bits);
    var high := low / p;
    assert word % p == low % p by {
      SameRemainder(word, low, r, bits);
    }
    assert 64 * low + digit == 64 * p * high + (64 * (low % p) + digit);
    Remainder(64 * low + digit, 64 * p, high, 64 * (low % p) + digit);
  }

  lemma SameRemainder(word: nat, low: nat, r: nat, bits: nat)
    requires bits in {0, 2, 4, 6} && word == 0x400_0000 * r + low
    ensures word % Pending(bits) == low % Pending(bits)
  {
    if bits == 0 {
      SameModulo(word, low, r, 1, 0x400_0000);
    } else if bits == 2 {
      SameModulo(word, low, r, 4, 0x100_0000);
    } else if bits == 4 {
      SameModulo(word, low, r, 16, 0x40_0000);
    } else {
      SameModulo(word, low, r, 64, 0x10_0000);
    }
  }

  lemma SameModulo(word: nat, low: nat, r: nat, p: nat, k: nat)
    requires p > 0 && p * k == 0x400_0000 && word == 0x400_0000 * r + low
    ensures word % p == low % p
  {
    var h, l := low / p, low % p;
    assert p * (k * r + h) + l == (p * k) * r + (p * h + l);
    Remainder(word, p, k * r + h, l);
  }

  lemma DecodeStep(digits: seq<Digit>, compressed: seq<Byte>, word: nat, bits: nat, digit: Digit)
    requires Decoding(digits, compressed, word, bits)
    ensures var next := (word * 64) % WORD + digit as int;
      if bits == 0 then Decoding(digits + [digit], compressed, next, 6)
      else Decoding(digits + [digit], compressed + [(next / Pending(bits - 2)) % 256], next, bits - 2)
  {
    Num64Append(digits, digit);
    WordWraps(Num64(digits), word, digit);
    LowBits(word, digit, bits);
    var next := (word * 64) % WORD + digit as int;
    if bits > 0 {
      Num256Append(compressed, (next / Pending(bits - 2)) % 256);
      SplitByte(next, bits);
      StepNumbers(Num64(digits), Num256(compressed), word % Pending(bits), digit, next % Pending(bits - 2), (next / Pending(bits - 2)) % 256, bits);
    }
    hide Num64, Num256, Pending;
    assert Pending(0) == 1 && Pending(6) == 64 by { PendingEnds(); }
    assert bits == 0 ==> word % 1 == 0;
  }

  lemma PendingEnds()
    ensures Pending(0) == 1 && Pending(6) == 64
  {
  }

  lemma StepNumbers(n: nat, m: nat, low: nat, digit: nat, rest: nat, byte: nat, bits: nat)
    requires bits in {2, 4, 6} && n == Pending(bits) * m + low
    requires 64 * low + digit == Pending(bits - 2) * byte + rest
    ensures 64 * n + digit == Pending(bits - 2) * (256 * m + byte) + rest
  {
  }

  lemma SplitByte(next: nat, bits: nat)
    requires bits in {2, 4, 6}
    ensures next % (64 * Pending(bits)) == Pending(bits - 2) * ((next / Pending(bits - 2)) % 256) + next % Pending(bits - 2)
  {
  }

  /** The bytes, if any, that a text encodes. */
  ghost function Decoded(text: string): Option<seq<Byte>> {
    if exists bytes :: Encodes(bytes, text) then
      var bytes :| Encodes(bytes, text);
      Some(bytes)
    else None
  }

  lemma DecodedIs(bytes: seq<Byte>, text: string)
    requires Encodes(bytes, text)
    ensures Decoded(text) == Some(bytes)
  {
    DecodingUnique(bytes, Decoded(text).value, text);
  }

  /** Text is accepted exactly when it encodes some bytes, which are returned;
      the empty text is refused. */
  method DecodeBase64(encoded: string) returns (r: Result<seq<Byte>>)
    ensures r == if encoded == "" || Decoded(encoded).None? then Err(InvalidArgument) else Ok(Decoded(encoded).value)
  {
    hide Decoding, Letter, Find;
    if encoded == "" || |encoded| % 4 != 0 {
      if encoded != "" {
        RefuseLength(encoded);
      }
      return Err(InvalidArgument);
    }
    var padding := if encoded[|encoded| - 1] == '=' then 1 else 0;
    if encoded[|encoded| - 2] == '=' && padding == 1 {
      padding := padding + 1;
    }
    var body := encoded[..|encoded| - padding];
    ghost var digits: seq<Digit> := [];
    var compressed: seq<Byte> := [];
    var word: nat, bits: nat := 0, 0;
    DecodingStarts();
    for i := 0 to |body|
      invariant bits in {0, 2, 4, 6}
      invariant Decoding(digits, compressed, word, bits)
      invariant Letters(digits) == body[..i]
    {
      var value := Find(body[i]);
      if value.None? {
        RefuseLetter(encoded, padding, i);
        return Err(InvalidArgument);
      }
      DecodeStep(digits, compressed, word, bits, value.value);
      digits := digits + [value.value];
      word := (word * 64) % WORD + value.value as int;
      bits := bits + 6;
      if bits >= 8 {
        bits := bits - 8;
        compressed := compressed + [(word / Pending(bits)) % 256];
      }
      assert Letters(digits) == body[..i + 1];
    }
    assert body[..|body|] == body;
    Decide(encoded, padding, digits, compressed, word, bits);
    if word % Pending(bits) != 0 {
      return Err(InvalidArgument);
    }
    return Ok(compressed);
  }

  lemma DecodingStarts()
    ensures Decoding([], [], 0, 0)
  {
  }

  lemma RefuseLength(encoded: string)
    requires |encoded| % 4 != 0
    ensures Decoded(encoded) == None
  {
    forall bytes, digits
      ensures !EncodesBy(bytes, digits, encoded)
    {
      if EncodesBy(bytes, digits, encoded) {
        EncodingLength(bytes, digits, encoded);
      }
    }
  }

  lemma EncodingLength(bytes: seq<Byte>, digits: seq<Digit>, text: string)
    requires EncodesBy(bytes, digits, text)
    ensures |text| % 4 == 0 && |text| == |digits| + Padding(bytes)
  {
    hide Num64, Num256, Letters;
    assert 3 * |text| == 4 * (|bytes| + Padding(bytes));
    assert (|bytes| + Padding(bytes)) % 3 == 0;
  }

  lemma RefuseLetter(encoded: string, padding: nat, i: nat)
    requires encoded != "" && |encoded| % 4 == 0
    requires padding == if encoded[|encoded| - 1] != '=' then 0 else if encoded[|encoded| - 2] != '=' then 1 else 2
    requires i < |encoded| - padding && Find(encoded[i]).None?
    ensures Decoded(encoded) == None
  {
    if bytes :| Encodes(bytes, encoded) {
      var digits :| EncodesBy(bytes, digits, encoded);
      SignsAt(bytes, digits, encoded);
      assert encoded[i] == Letter(digits[i]);
    }
  }

  /** When all letters are read, the text is an encoding exactly if the pending
      bits are zero, and then of the bytes collected. */
  lemma Decide(encoded: string, padding: nat, digits: seq<Digit>, compressed: seq<Byte>, word: nat, bits: nat)
    requires encoded != "" && |encoded| % 4 == 0
    requires padding == if encoded[|encoded| - 1] != '=' then 0 else if encoded[|encoded| - 2] != '=' then 1 else 2
    requires Letters(digits) == encoded[..|encoded| - padding] && Decoding(digits, compressed, word, bits)
    ensures word % Pending(bits) == 0 ==> Decoded(encoded) == Some(compressed)
    ensures word % Pending(bits) != 0 ==> Decoded(encoded) == None
  {
    assert encoded == Letters(digits) + Signs(padding);
    hide Num64, Num256, Letter, Letters, Signs;
    assert bits == 2 * padding;
    assert Padding(compressed) == padding;
    assert Pending(bits) == Slack(padding);
    if word % Pending(bits) == 0 {
      assert EncodesBy(compressed, digits, encoded);
      DecodedIs(compressed, encoded);
    } else {
      forall bytes, others
        ensures !EncodesBy(bytes, others, encoded)
      {
        if EncodesBy(bytes, others, encoded) {
          NotDivisible(bytes, others, encoded, padding, digits, compressed, word, bits);
        }
      }
    }
  }

  lemma NotDivisible(bytes: seq<Byte>, others: seq<Digit>, encoded: string, padding: nat,
                     digits: seq<Digit>, compressed: seq<Byte>, word: nat, bits: nat)
    requires encoded != "" && EncodesBy(bytes, others, encoded)
    requires padding == if encoded[|encoded| - 1] != '=' then 0 else if encoded[|encoded| - 2] != '=' then 1 else 2
    requires Letters(digits) == encoded[..|encoded| - padding] && Decoding(digits, compressed, word, bits)
    requires bits == 2 * padding
    ensures word % Pending(bits) == 0
  {
    hide Num64, Num256, Letter, Letters;
    SignsAt(bytes, others, encoded);
    SameLetters(digits, others, encoded);
    BelowMultiple(Num256(bytes), Num256(compressed), word % Pending(bits), bits);
  }

  lemma BelowMultiple(a: nat, b: nat, low: nat, bits: nat)
    requires bits in {0, 2, 4} && low < Pending(bits) && Pending(bits) * b + low == Pending(bits) * a
    ensures low == 0
  {
  }

  lemma SameLetters(a: seq<Digit>, b: seq<Digit>, text: string)
    requires |a| == |b| <= |text| && Letters(a) == text[..|a|] == Letters(b)
    ensures a == b
  {
    forall i | 0 <= i < |a|
      ensures a[i] == b[i]
    {
      assert Letters(a)[i] == Letters(b)[i];
      LetterInjective(a[i], b[i]);
    }
  }

  // ----- the bijection

  /** Decoding undoes encoding, and an accepted text encodes what it decodes to. */
  lemma Bijection(bytes: seq<Byte>, text: string)
    ensures Decoded(Encoded(bytes)) == Some(bytes)
    ensures Decoded(text).Some? ==> Encoded(Decoded(text).value) == text
    ensures Encoded(bytes) == "" <==> bytes == []
  {
    DecodedIs(bytes, Encoded(bytes));
    if Decoded(text).Some? {
      EncodingUnique(Decoded(text).value, text, Encoded(Decoded(text).value));
    }
    var digits :| EncodesBy(bytes, digits, Encoded(bytes));
    EncodingLength(bytes, digits, Encoded(bytes));
  }
}
