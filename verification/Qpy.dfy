/** The QPY transport and reader of src/Qpy.cpp: compressing and encoding a
    program, restoring it, and reading the classical layout of a QPY 17 file. */
module Qpy {
  import opened Common
  import opened Base64

  // ----- zlib, as far as this code sees it

  datatype Compressed = Packed(bytes: seq<Byte>) | PackMemory | PackFailed

  /** Z_OK with the text and the number of input bytes used, Z_BUF_ERROR,
      Z_MEM_ERROR, and every other status. */
  datatype Inflated = Done(text: string, used: nat) | TooSmall | NoMemory | Corrupt

  /** The two foreign calls, compression and inflation into a buffer of a given
      capacity, and the size of the largest string. Nothing is assumed about them
      but where a lemma says so. */
  datatype Zlib = Zlib(compress: string -> Compressed, inflate: (seq<Byte>, nat) -> Inflated, maxSize: nat)

  /** zlib's promise for one program: inflation undoes compression whenever the
      buffer is large enough, and says so when it is not. */
  ghost predicate Inverse(zlib: Zlib, program: string) {
    match zlib.compress(program)
    case Packed(bytes) =>
      && bytes != []
      && forall n :: zlib.inflate(bytes, n) == if |program| <= n then Done(program, |bytes|) else TooSmall
    case _ => false
  }

  // ----- transport

  /** What encodeQpy returns. */
  ghost function Transported(zlib: Zlib, program: string): Result<string> {
    if program == "" then Err(InvalidArgument)
    else
      match zlib.compress(program)
      case PackMemory => Err(OutOfMemory)
      case PackFailed => Err(Fatal)
      case Packed(bytes) => Ok(Encoded(bytes))
  }

  method EncodeQpy(zlib: Zlib, program: string) returns (r: Result<string>)
    ensures r == Transported(zlib, program)
  {
    if program == "" {
      return Err(InvalidArgument);
    }
    var status := zlib.compress(program);
    if status == PackMemory {
      return Err(OutOfMemory);
    }
    if status == PackFailed {
      return Err(Fatal);
    }
    var encoded := EncodeBase64(status.bytes);
    return Ok(encoded);
  }

  /** Inflating with a buffer that doubles while it is too small. */
  function Inflating(zlib: Zlib, bytes: seq<Byte>, capacity: nat): Result<string>
    requires capacity > 0
    decreases zlib.maxSize - capacity
  {
    match zlib.inflate(bytes, capacity)
    case Done(text, used) => if used == |bytes| then Ok(text) else Err(InvalidArgument)
    case NoMemory => Err(OutOfMemory)
    case Corrupt => Err(InvalidArgument)
    case TooSmall => if capacity <= zlib.maxSize / 2 then Inflating(zlib, bytes, capacity * 2) else Err(OutOfMemory)
  }

  /** What decodeQpy returns. */
  ghost function Restored(zlib: Zlib, encoded: string): Result<string> {
    match Decoded(encoded)
    case None => Err(InvalidArgument)
    case Some(bytes) => if bytes == [] then Err(InvalidArgument) else Inflating(zlib, bytes, |bytes|)
  }

  /** Terminates whatever zlib answers. */
  method DecodeQpy(zlib: Zlib, encoded: string) returns (r: Result<string>)
    ensures r == Restored(zlib, encoded)
  {
    var compressed :- DecodeBase64(encoded);
    assert compressed != [] by {
      Bijection(compressed, encoded);
    }
    var capacity := |compressed|;
    while true
      invariant capacity > 0
      invariant Inflating(zlib, compressed, |compressed|) == Inflating(zlib, compressed, capacity)
      decreases zlib.maxSize - capacity
    {
      var status := zlib.inflate(compressed, capacity);
      if status.Done? {
        if status.used != |compressed| {
          return Err(InvalidArgument);
        }
        return Ok(status.text);
      }
      if status == NoMemory {
        return Err(OutOfMemory);
      }
      if status != TooSmall {
        return Err(InvalidArgument);
      }
      if capacity > zlib.maxSize / 2 {
        return Err(OutOfMemory);
      }
      capacity := capacity * 2;
    }
  }

  /** The largest capacity that doubling reaches. */
  function Reach(maxSize: nat, capacity: nat): (n: nat)
    requires capacity > 0
    ensures n >= capacity && n > maxSize / 2
    decreases maxSize - capacity
  {
    if capacity <= maxSize / 2 then Reach(maxSize, capacity * 2) else capacity
  }

  lemma {:induction false} InflatingReaches(zlib: Zlib, program: string, bytes: seq<Byte>, capacity: nat)
    requires zlib.compress(program) == Packed(bytes) && Inverse(zlib, program) && capacity > 0
    ensures Inflating(zlib, bytes, capacity) == if |program| <= Reach(zlib.maxSize, capacity) then Ok(program) else Err(OutOfMemory)
    decreases zlib.maxSize - capacity
  {
    if |program| > capacity && capacity <= zlib.maxSize / 2 {
      InflatingReaches(zlib, program, bytes, capacity * 2);
    }
  }

  /** A transported program is restored exactly, as long as a doubled buffer can
      hold it; a longer one is refused. Every program of up to half the largest
      string is restored. */
  lemma TransportRoundTrip(zlib: Zlib, program: string)
    requires program != "" && Inverse(zlib, program)
    ensures Transported(zlib, program).Ok?
    ensures Restored(zlib, Transported(zlib, program).value) ==
      if |program| <= Reach(zlib.maxSize, |zlib.compress(program).bytes|) then Ok(program) else Err(OutOfMemory)
    ensures |program| <= zlib.maxSize / 2 ==> Restored(zlib, Transported(zlib, program).value) == Ok(program)
  {
    var bytes := zlib.compress(program).bytes;
    Bijection(bytes, "");
    InflatingReaches(zlib, program, bytes, |bytes|);
  }

  /** What an attempt with a buffer says, and whether it ends the search. */
  function Outcome(inflated: Inflated, length: nat): Result<string> {
    match inflated
    case Done(text, used) => if used == length then Ok(text) else Err(InvalidArgument)
    case NoMemory => Err(OutOfMemory)
    case Corrupt => Err(InvalidArgument)
    case TooSmall => Err(OutOfMemory)
  }

  /** A program is refused when it is empty or cannot be compressed. A restored text
      comes from the first buffer, of those that double, that is not too small, or
      from none when no larger one is possible. */
  lemma TransportExact(zlib: Zlib, program: string, encoded: string)
    ensures Transported(zlib, program) ==
      if program == "" then Err(InvalidArgument)
      else match zlib.compress(program)
           case Packed(bytes) => Ok(Encoded(bytes))
           case PackMemory => Err(OutOfMemory)
           case PackFailed => Err(Fatal)
    ensures (forall bytes :: bytes != [] ==> !Encodes(bytes, encoded)) ==> Restored(zlib, encoded) == Err(InvalidArgument)
    ensures forall bytes, n: nat :: bytes != [] && Encodes(bytes, encoded) && Stops(zlib, bytes, |bytes|, n) ==>
      Restored(zlib, encoded) == Outcome(zlib.inflate(bytes, Doubled(|bytes|, n)), |bytes|)
  {
    hide Encodes;
    if Decoded(encoded).Some? {
      Bijection(Decoded(encoded).value, encoded);
    }
    forall bytes, n: nat | bytes != [] && Encodes(bytes, encoded) && Stops(zlib, bytes, |bytes|, n)
      ensures Restored(zlib, encoded) == Outcome(zlib.inflate(bytes, Doubled(|bytes|, n)), |bytes|)
    {
      DecodedIs(bytes, encoded);
      InflatingStops(zlib, bytes, |bytes|, n);
    }
  }

  function Doubled(capacity: nat, n: nat): nat
    decreases n
  {
    if n == 0 then capacity else Doubled(2 * capacity, n - 1)
  }

  /** The first n buffers are too small and can be doubled; the next one is not. */
  ghost predicate Stops(zlib: Zlib, bytes: seq<Byte>, capacity: nat, n: nat) {
    var last := Doubled(capacity, n);
    && (forall k :: 0 <= k < n ==> zlib.inflate(bytes, Doubled(capacity, k)) == TooSmall && Doubled(capacity, k) <= zlib.maxSize / 2)
    && (zlib.inflate(bytes, last) != TooSmall || last > zlib.maxSize / 2)
  }

  lemma {:induction false} InflatingStops(zlib: Zlib, bytes: seq<Byte>, capacity: nat, n: nat)
    requires capacity > 0 && Stops(zlib, bytes, capacity, n)
    ensures Inflating(zlib, bytes, capacity) == Outcome(zlib.inflate(bytes, Doubled(capacity, n)), |bytes|)
    decreases n
  {
    if n > 0 {
      assert Doubled(capacity, 0) == capacity;
      forall k | 0 <= k < n - 1
        ensures zlib.inflate(bytes, Doubled(2 * capacity, k)) == TooSmall && Doubled(2 * capacity, k) <= zlib.maxSize / 2
      {
        assert Doubled(capacity, k + 1) == Doubled(2 * capacity, k);
      }
      InflatingStops(zlib, bytes, 2 * capacity, n - 1);
    } else {
      assert Doubled(capacity, 0) == capacity;
    }
  }

  // ----- the binary reader

  /** A char of a std::string is a byte. */
  function ByteOf(c: char): (b: nat)
    ensures b < 256
  {
    c as int % 256
  }

  /** The value of bytes, highest first. */
  function BigEndian(bytes: string): nat {
    if bytes == "" then 0 else 256 * BigEndian(bytes[..|bytes| - 1]) + ByteOf(bytes[|bytes| - 1])
  }

  function TakeFrom(s: string, size: nat): Result<(string, string)> {
    if size <= |s| then Ok((s[..size], s[size..])) else Err(InvalidArgument)
  }

  function TakeInteger(s: string, size: nat): Result<(nat, string)> {
    var (bytes, rest) :- TakeFrom(s, size);
    Ok((BigEndian(bytes), rest))
  }

  lemma {:induction false} BigEndianBound(bytes: string)
    ensures |bytes| == 1 ==> BigEndian(bytes) < 0x100
    ensures |bytes| == 2 ==> BigEndian(bytes) < 0x1_0000
    ensures |bytes| == 4 ==> BigEndian(bytes) < 0x1_0000_0000
    ensures |bytes| == 8 ==> BigEndian(bytes) < 0x1_0000_0000_0000_0000
  {
    BigEndianPower(bytes);
  }

  function Power256(n: nat): nat {
    if n == 0 then 1 else 256 * Power256(n - 1)
  }

  lemma {:induction false} BigEndianPower(bytes: string)
    ensures BigEndian(bytes) < Power256(|bytes|)
  {
    if bytes != "" {
      BigEndianPower(bytes[..|bytes| - 1]);
    }
  }

  /** The cursor over the unread bytes. */
  class Reader {
    var remaining: string

    constructor (source: string)
      ensures remaining == source
    {
      remaining := source;
    }

    /** Never reads past the end: a request for too much fails and takes nothing. */
    method Take(size: nat) returns (r: Result<string>)
      modifies this
      ensures match TakeFrom(old(remaining), size)
              case Ok((taken, rest)) => r == Ok(taken) && remaining == rest
              case Err(error) => r == Err(error) && remaining == old(remaining)
    {
      if size > |remaining| {
        return Err(InvalidArgument);
      }
      var result := remaining[..size];
      remaining := remaining[size..];
      return Ok(result);
    }

    /** The 64-bit shift register never loses a bit of an integer of at most
        eight bytes. */
    method Integer(size: nat) returns (r: Result<nat>)
      requires size <= 8
      modifies this
      ensures match TakeInteger(old(remaining), size)
              case Ok((value, rest)) => r == Ok(value) && remaining == rest
              case Err(error) => r == Err(error) && remaining == old(remaining)
    {
      var bytes :- Take(size);
      ghost var rest := remaining;
      var value := 0;
      for i := 0 to |bytes|
        invariant value == BigEndian(bytes[..i]) && remaining == rest
      {
        assert bytes[..i + 1][..i] == bytes[..i];
        BigEndianPower(bytes[..i]);
        PowerBound(i);
        value := (value * 256) % 0x1_0000_0000_0000_0000 + ByteOf(bytes[i]);
      }
      assert bytes[..|bytes|] == bytes;
      return Ok(value);
    }
  }

  lemma PowerBound(i: nat)
    requires i < 8
    ensures Power256(i) <= 0x100_0000_0000_0000
  {
    assert Power256(7) == 0x100_0000_0000_0000;
    PowerMonotone(i, 7);
  }

  lemma PowerMonotone(i: nat, j: nat)
    requires i <= j
    ensures Power256(i) <= Power256(j)
  {
  }
}
