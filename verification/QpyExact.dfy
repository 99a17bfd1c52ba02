/** The QPY reader accepts exactly the files that a writer can produce: a header
    of the supported kind, followed by register entries in which the classical
    bits count up from zero and are used up at the end. */
module QpyExact {
  import opened Common
  import opened Qpy
  import opened Utf8
  import opened QpyLayout

  // ----- big-endian integers

  /** The bytes of n, highest first. */
  function Bytes(n: nat, size: nat): (bytes: string)
    ensures |bytes| == size
  {
    if size == 0 then "" else Bytes(n / 256, size - 1) + [(n % 256) as char]
  }

  ghost predicate AllBytes(s: string) {
    forall i :: 0 <= i < |s| ==> s[i] as int < 256
  }

  lemma {:induction false} BytesValue(n: nat, size: nat)
    requires n < Power256(size)
    ensures BigEndian(Bytes(n, size)) == n && AllBytes(Bytes(n, size))
  {
    if size > 0 {
      BytesValue(n / 256, size - 1);
      var bytes := Bytes(n, size);
      assert bytes[..|bytes| - 1] == Bytes(n / 256, size - 1);
    }
  }

  lemma {:induction false} ValueBytes(bytes: string)
    requires AllBytes(bytes)
    ensures Bytes(BigEndian(bytes), |bytes|) == bytes && BigEndian(bytes) < Power256(|bytes|)
  {
    BigEndianPower(bytes);
    if bytes != "" {
      var front := bytes[..|bytes| - 1];
      ValueBytes(front);
      var last := bytes[|bytes| - 1];
      assert BigEndian(bytes) / 256 == BigEndian(front) && BigEndian(bytes) % 256 == last as int;
      assert bytes == front + [last];
    }
  }

  /** Reading a field and writing it in front of the rest are inverse. */
  lemma TakeExact(s: string, size: nat, field: string, rest: string)
    ensures TakeFrom(s, size) == Ok((field, rest)) <==> |field| == size && s == field + rest
    ensures AllBytes(s) && TakeFrom(s, size).Ok? ==> AllBytes(TakeFrom(s, size).value.1)
  {
    if size <= |s| {
      assert s == s[..size] + s[size..];
    }
    if |field| == size && s == field + rest {
      assert s[..size] == field && s[size..] == rest;
    }
  }

  lemma IntegerExact(s: string, size: nat, n: nat, rest: string)
    requires AllBytes(s)
    ensures TakeInteger(s, size) == Ok((n, rest)) <==> n < Power256(size) && s == Bytes(n, size) + rest
    ensures TakeInteger(s, size).Ok? ==> AllBytes(TakeInteger(s, size).value.1)
  {
    if size <= |s| {
      ValueBytes(s[..size]);
      assert s == s[..size] + s[size..];
    }
    if n < Power256(size) && s == Bytes(n, size) + rest {
      BytesValue(n, size);
      assert s[..size] == Bytes(n, size) && s[size..] == rest;
    }
  }

  // ----- writing

  function WriteCircuit(h: Header, rest: string): string {
    Bytes(|h.name|, 2) + (h.nameKind + (Bytes(|h.phase|, 2) + (Bytes(h.width, 4) + (Bytes(h.bits, 4) +
    (Bytes(|h.metadata|, 8) + (Bytes(h.count, 4) + (h.filler + (Bytes(0, 4) +
    (h.name + (h.phase + (h.metadata + rest)))))))))))
  }

  function WriteHeader(h: Header, rest: string): string {
    "QISKIT" + (Bytes(17, 1) + (h.release + (Bytes(1, 8) + (h.symbolic + ("q" + (Bytes(28, 8) + WriteCircuit(h, rest)))))))
  }

  predicate ValidHeader(h: Header, qubits: nat) {
    && |h.release| == 3 && h.symbolic in {"p", "e"} && |h.nameKind| == 1 && |h.filler| == 8
    && |h.name| < Power256(2) && |h.phase| < Power256(2) && |h.metadata| < Power256(8)
    && 0 < h.width <= qubits && h.width < Power256(4)
    && 0 < h.bits < Power256(4) && h.count < Power256(4)
  }

  /** The indices `next`, `next + 1`, ... of `size` bits. */
  function WriteBits(size: nat, next: nat, rest: string): string
    decreases size
  {
    if size == 0 then rest else Bytes(next, 8) + WriteBits(size - 1, next + 1, rest)
  }

  function WriteFront(front: Front, rest: string): string {
    front.kind + (Bytes(front.standalone, 1) + (Bytes(front.size, 4) + (Bytes(front.length, 2) + (Bytes(front.inCircuit, 1) + rest))))
  }

  function FrontOf(entry: Entry): Front {
    match entry
    case Qubits(standalone, inCircuit, name, size, _) => Front("q", standalone, size, |name|, inCircuit)
    case Bits(standalone, inCircuit, register) => Front("c", standalone, register.width, |register.name|, inCircuit)
  }

  predicate ValidFront(front: Front) {
    && front.kind in {"q", "c"} && front.standalone <= 1 && front.inCircuit <= 1
    && front.length < Power256(2) && front.size < Power256(4)
  }

  function WriteEntry(entry: Entry, next: nat, rest: string): string {
    WriteFront(FrontOf(entry),
               match entry
               case Qubits(_, _, name, _, indices) => name + (indices + rest)
               case Bits(_, _, register) => register.name + WriteBits(register.width, next, rest))
  }

  predicate ValidEntry(entry: Entry, bits: nat, registers: seq<Register>) {
    && ValidFront(FrontOf(entry))
    && match entry
       case Qubits(_, _, _, size, indices) => |indices| == size * 8
       case Bits(_, inCircuit, register) =>
         && inCircuit == 1
         && register.name != "" && '\0' !in register.name && IsUtf8(register.name)
         && 0 < register.width <= bits - TotalWidth(registers)
         && register.name !in Names(registers)
  }

  // ----- the header

  lemma CircuitSound(s: string, qubits: nat, release: string, symbolic: string)
    requires AllBytes(s) && ReadCircuit(s, qubits, release, symbolic).Ok?
    ensures var (h, rest) := ReadCircuit(s, qubits, release, symbolic).value;
      && s == WriteCircuit(h, rest) && AllBytes(rest)
      && h.release == release && h.symbolic == symbolic
      && (|release| == 3 && symbolic in {"p", "e"} ==> ValidHeader(h, qubits))
  {
    hide TakeFrom, TakeInteger, AllBytes, BigEndian, Bytes, Power256;
    var (h, rest) := ReadCircuit(s, qubits, release, symbolic).value;
    var (nameSize, s1) := TakeInteger(s, 2).value;
    IntegerExact(s, 2, nameSize, s1);
    var (nameKind, s2) := TakeFrom(s1, 1).value;
    TakeExact(s1, 1, nameKind, s2);
    var (phaseSize, s3) := TakeInteger(s2, 2).value;
    IntegerExact(s2, 2, phaseSize, s3);
    var (width, s4) := TakeInteger(s3, 4).value;
    IntegerExact(s3, 4, width, s4);
    var (bits, s5) := TakeInteger(s4, 4).value;
    IntegerExact(s4, 4, bits, s5);
    var (metadataSize, s6) := TakeInteger(s5, 8).value;
    IntegerExact(s5, 8, metadataSize, s6);
    var (count, s7) := TakeInteger(s6, 4).value;
    IntegerExact(s6, 4, count, s7);
    var (filler, s8) := TakeFrom(s7, 8).value;
    TakeExact(s7, 8, filler, s8);
    var (variables, s9) := TakeInteger(s8, 4).value;
    IntegerExact(s8, 4, variables, s9);
    var (name, s10) := TakeFrom(s9, nameSize).value;
    TakeExact(s9, nameSize, name, s10);
    var (phase, s11) := TakeFrom(s10, phaseSize).value;
    TakeExact(s10, phaseSize, phase, s11);
    var (metadata, s12) := TakeFrom(s11, metadataSize).value;
    TakeExact(s11, metadataSize, metadata, s12);
  }

  lemma CircuitComplete(h: Header, qubits: nat, rest: string)
    requires ValidHeader(h, qubits) && AllBytes(WriteCircuit(h, rest))
    ensures ReadCircuit(WriteCircuit(h, rest), qubits, h.release, h.symbolic) == Ok((h, rest))
  {
    assert Power256(4) > 0 by { Positive(4); }
    hide TakeFrom, TakeInteger, AllBytes, BigEndian, Bytes, Power256;
    var s12 := rest;
    var s11 := h.metadata + s12;
    var s10 := h.phase + s11;
    var s9 := h.name + s10;
    var s8 := Bytes(0, 4) + s9;
    var s7 := h.filler + s8;
    var s6 := Bytes(h.count, 4) + s7;
    var s5 := Bytes(|h.metadata|, 8) + s6;
    var s4 := Bytes(h.bits, 4) + s5;
    var s3 := Bytes(h.width, 4) + s4;
    var s2 := Bytes(|h.phase|, 2) + s3;
    var s1 := h.nameKind + s2;
    var s := Bytes(|h.name|, 2) + s1;
    IntegerExact(s, 2, |h.name|, s1);
    TakeExact(s1, 1, h.nameKind, s2);
    IntegerExact(s2, 2, |h.phase|, s3);
    IntegerExact(s3, 4, h.width, s4);
    IntegerExact(s4, 4, h.bits, s5);
    IntegerExact(s5, 8, |h.metadata|, s6);
    IntegerExact(s6, 4, h.count, s7);
    TakeExact(s7, 8, h.filler, s8);
    IntegerExact(s8, 4, 0, s9);
    TakeExact(s9, |h.name|, h.name, s10);
    TakeExact(s10, |h.phase|, h.phase, s11);
    TakeExact(s11, |h.metadata|, h.metadata, s12);
  }

  lemma Positive(n: nat)
    ensures Power256(n) > 0
  {
  }

  lemma HeaderSound(s: string, qubits: nat)
    requires AllBytes(s) && ReadHeader(s, qubits).Ok?
    ensures var (h, rest) := ReadHeader(s, qubits).value;
      s == WriteHeader(h, rest) && AllBytes(rest) && ValidHeader(h, qubits)
  {
    hide TakeFrom, TakeInteger, AllBytes, BigEndian, Bytes, Power256, ReadCircuit, WriteCircuit, ValidHeader;
    var (magic, s1) := TakeFrom(s, 6).value;
    TakeExact(s, 6, magic, s1);
    var (version, s2) := TakeInteger(s1, 1).value;
    IntegerExact(s1, 1, version, s2);
    var (release, s3) := TakeFrom(s2, 3).value;
    TakeExact(s2, 3, release, s3);
    var (circuits, s4) := TakeInteger(s3, 8).value;
    IntegerExact(s3, 8, circuits, s4);
    var (symbolic, s5) := TakeFrom(s4, 1).value;
    TakeExact(s4, 1, symbolic, s5);
    var (kind, s6) := TakeFrom(s5, 1).value;
    TakeExact(s5, 1, kind, s6);
    var (offset, s7) := TakeInteger(s6, 8).value;
    IntegerExact(s6, 8, offset, s7);
    CircuitSound(s7, qubits, release, symbolic);
  }

  lemma HeaderNumbers()
    ensures 17 < Power256(1) && 28 < Power256(8)
  {
    assert Power256(1) == 256;
    PowerMonotone(1, 8);
  }

  /** Once the fields before it are read, the circuit header is. */
  lemma HeaderFields(s: string, s1: string, s2: string, s3: string, s4: string, s5: string, s6: string, s7: string,
                     release: string, symbolic: string, qubits: nat)
    requires TakeFrom(s, 6) == Ok(("QISKIT", s1)) && TakeInteger(s1, 1) == Ok((17, s2)) && TakeFrom(s2, 3) == Ok((release, s3))
    requires TakeInteger(s3, 8) == Ok((1, s4)) && TakeFrom(s4, 1) == Ok((symbolic, s5)) && symbolic in {"p", "e"}
    requires TakeFrom(s5, 1) == Ok(("q", s6)) && TakeInteger(s6, 8) == Ok((28, s7))
    ensures ReadHeader(s, qubits) == ReadCircuit(s7, qubits, release, symbolic)
  {
    hide TakeFrom, TakeInteger, ReadCircuit;
  }

  lemma HeaderComplete(h: Header, qubits: nat, rest: string)
    requires ValidHeader(h, qubits) && AllBytes(WriteHeader(h, rest))
    ensures ReadHeader(WriteHeader(h, rest), qubits) == Ok((h, rest))
  {
    hide TakeFrom, TakeInteger, AllBytes, BigEndian, Bytes, Power256, ReadHeader, ReadCircuit, WriteCircuit;
    HeaderNumbers();
    var s7 := WriteCircuit(h, rest);
    var s6 := Bytes(28, 8) + s7;
    var s5 := "q" + s6;
    var s4 := h.symbolic + s5;
    var s3 := Bytes(1, 8) + s4;
    var s2 := h.release + s3;
    var s1 := Bytes(17, 1) + s2;
    var s := "QISKIT" + s1;
    TakeExact(s, 6, "QISKIT", s1);
    IntegerExact(s1, 1, 17, s2);
    TakeExact(s2, 3, h.release, s3);
    IntegerExact(s3, 8, 1, s4);
    TakeExact(s4, 1, h.symbolic, s5);
    TakeExact(s5, 1, "q", s6);
    IntegerExact(s6, 8, 28, s7);
    HeaderFields(s, s1, s2, s3, s4, s5, s6, s7, h.release, h.symbolic, qubits);
    CircuitComplete(h, qubits, rest);
  }

  // ----- the entries

  lemma {:induction false} BitsExact(s: string, size: nat, next: nat, rest: string)
    requires AllBytes(s) && next + size <= Power256(8)
    ensures ReadBits(s, size, next) == Ok(rest) <==> s == WriteBits(size, next, rest)
    ensures ReadBits(s, size, next).Ok? ==> AllBytes(ReadBits(s, size, next).value)
    decreases size
  {
    hide TakeFrom, TakeInteger, AllBytes, BigEndian, Bytes, Power256;
    if size > 0 {
      if TakeInteger(s, 8).Ok? {
        var (bit, later) := TakeInteger(s, 8).value;
        IntegerExact(s, 8, bit, later);
        BitsExact(later, size - 1, next + 1, rest);
      }
      if s == WriteBits(size, next, rest) {
        IntegerExact(s, 8, next, WriteBits(size - 1, next + 1, rest));
      }
    }
  }

  lemma FrontSound(s: string)
    requires AllBytes(s) && ReadFront(s).Ok?
    ensures var (front, rest) := ReadFront(s).value;
      s == WriteFront(front, rest) && AllBytes(rest) && ValidFront(front)
  {
    hide TakeFrom, TakeInteger, AllBytes, BigEndian, Bytes, Power256;
    var (kind, s1) := TakeFrom(s, 1).value;
    TakeExact(s, 1, kind, s1);
    var (standalone, s2) := TakeInteger(s1, 1).value;
    IntegerExact(s1, 1, standalone, s2);
    var (size, s3) := TakeInteger(s2, 4).value;
    IntegerExact(s2, 4, size, s3);
    var (length, s4) := TakeInteger(s3, 2).value;
    IntegerExact(s3, 2, length, s4);
    var (inCircuit, s5) := TakeInteger(s4, 1).value;
    IntegerExact(s4, 1, inCircuit, s5);
  }

  lemma FrontComplete(front: Front, rest: string)
    requires ValidFront(front) && AllBytes(WriteFront(front, rest))
    ensures ReadFront(WriteFront(front, rest)) == Ok((front, rest))
  {
    assert Power256(1) == 256;
    hide TakeFrom, TakeInteger, AllBytes, BigEndian, Bytes, Power256;
    var s4 := Bytes(front.inCircuit, 1) + rest;
    var s3 := Bytes(front.length, 2) + s4;
    var s2 := Bytes(front.size, 4) + s3;
    var s1 := Bytes(front.standalone, 1) + s2;
    TakeExact(front.kind + s1, 1, front.kind, s1);
    IntegerExact(s1, 1, front.standalone, s2);
    IntegerExact(s2, 4, front.size, s3);
    IntegerExact(s3, 2, front.length, s4);
    IntegerExact(s4, 1, front.inCircuit, rest);
  }

  lemma EntrySound(s: string, bits: nat, registers: seq<Register>)
    requires AllBytes(s) && bits < Power256(4) && ReadEntry(s, bits, registers).Ok?
    ensures var (entry, rest) := ReadEntry(s, bits, registers).value;
      && s == WriteEntry(entry, TotalWidth(registers), rest) && AllBytes(rest)
      && ValidEntry(entry, bits, registers)
  {
    PowerMonotone(4, 8);
    hide TakeFrom, AllBytes, Power256, IsUtf8, Names, TotalWidth, ReadFront, WriteFront, ReadBits, WriteBits;
    FrontSound(s);
    var (front, s5) := ReadFront(s).value;
    var (name, s6) := TakeFrom(s5, front.length).value;
    TakeExact(s5, front.length, name, s6);
    if front.kind == "q" {
      var (indices, s7) := TakeFrom(s6, front.size * 8).value;
      TakeExact(s6, front.size * 8, indices, s7);
    } else {
      BitsExact(s6, front.size, TotalWidth(registers), ReadBits(s6, front.size, TotalWidth(registers)).value);
    }
  }

  lemma EntryComplete(entry: Entry, bits: nat, registers: seq<Register>, rest: string)
    requires bits < Power256(4) && ValidEntry(entry, bits, registers)
    requires AllBytes(WriteEntry(entry, TotalWidth(registers), rest))
    ensures ReadEntry(WriteEntry(entry, TotalWidth(registers), rest), bits, registers) == Ok((entry, rest))
  {
    PowerMonotone(4, 8);
    hide TakeFrom, AllBytes, Power256, IsUtf8, Names, TotalWidth, ReadFront, WriteFront, ReadBits, WriteBits;
    var name := if entry.Qubits? then entry.name else entry.register.name;
    var s6 := if entry.Qubits? then entry.indices + rest else WriteBits(entry.register.width, TotalWidth(registers), rest);
    var s := WriteFront(FrontOf(entry), name + s6);
    FrontComplete(FrontOf(entry), name + s6);
    FrontSound(s);
    TakeExact(name + s6, |name|, name, s6);
    if entry.Qubits? {
      TakeExact(s6, entry.size * 8, entry.indices, rest);
    } else {
      BitsExact(s6, entry.register.width, TotalWidth(registers), rest);
    }
  }

  function WriteEntries(entries: seq<Entry>, next: nat, tail: string): string
    decreases |entries|
  {
    if entries == [] then tail
    else WriteEntry(entries[0], next, WriteEntries(entries[1..], next + Taken(entries[0]), tail))
  }

  /** The classical bits that an entry uses up. */
  function Taken(entry: Entry): nat {
    if entry.Bits? then entry.register.width else 0
  }

  predicate ValidEntries(entries: seq<Entry>, bits: nat, registers: seq<Register>)
    decreases |entries|
  {
    entries == [] || (ValidEntry(entries[0], bits, registers) && ValidEntries(entries[1..], bits, Grown(registers, entries[0])))
  }

  /** The registers behind the entries when `registers` came before. */
  function Declared(registers: seq<Register>, entries: seq<Entry>): seq<Register>
    decreases |entries|
  {
    if entries == [] then registers else Declared(Grown(registers, entries[0]), entries[1..])
  }

  lemma GrownWidth(registers: seq<Register>, entry: Entry)
    ensures TotalWidth(Grown(registers, entry)) == TotalWidth(registers) + Taken(entry)
  {
    if entry.Bits? {
      TotalWidthAppend(registers, entry.register);
    }
  }

  lemma ReadEntriesStep(s: string, count: nat, bits: nat, registers: seq<Register>)
    requires count > 0
    ensures ReadEntries(s, count, bits, registers) ==
      match ReadEntry(s, bits, registers)
      case Ok((entry, rest)) => ReadEntries(rest, count - 1, bits, Grown(registers, entry))
      case Err(error) => Err(error)
  {
    hide ReadEntry;
  }

  lemma {:induction false} EntriesSound(s: string, count: nat, bits: nat, registers: seq<Register>) returns (entries: seq<Entry>, tail: string)
    requires AllBytes(s) && bits < Power256(4) && ReadEntries(s, count, bits, registers).Ok?
    ensures |entries| == count && ValidEntries(entries, bits, registers)
    ensures s == WriteEntries(entries, TotalWidth(registers), tail)
    ensures ReadEntries(s, count, bits, registers) == Ok(Declared(registers, entries))
    decreases count
  {
    if count == 0 {
      entries, tail := [], s;
    } else {
      entries, tail := EntriesSoundLater(s, count, bits, registers);
    }
  }

  lemma {:induction false} EntriesSoundLater(s: string, count: nat, bits: nat, registers: seq<Register>) returns (entries: seq<Entry>, tail: string)
    requires count > 0
    requires AllBytes(s) && bits < Power256(4) && ReadEntries(s, count, bits, registers).Ok?
    ensures |entries| == count && ValidEntries(entries, bits, registers)
    ensures s == WriteEntries(entries, TotalWidth(registers), tail)
    ensures ReadEntries(s, count, bits, registers) == Ok(Declared(registers, entries))
    decreases count, 0
  {
    hide AllBytes, Power256, ReadEntry, WriteEntry, ValidEntry, Grown, TotalWidth, ReadEntries, WriteEntries, ValidEntries, Declared;
    ReadEntriesStep(s, count, bits, registers);
    var (entry, rest) := ReadEntry(s, bits, registers).value;
    EntrySound(s, bits, registers);
    GrownWidth(registers, entry);
    var later;
    later, tail := EntriesSound(rest, count - 1, bits, Grown(registers, entry));
    entries := [entry] + later;
    EntriesPrepend(entry, later, TotalWidth(registers), tail, bits, registers);
  }

  lemma EntriesPrepend(entry: Entry, later: seq<Entry>, next: nat, tail: string, bits: nat, registers: seq<Register>)
    ensures WriteEntries([entry] + later, next, tail) == WriteEntry(entry, next, WriteEntries(later, next + Taken(entry), tail))
    ensures ValidEntries([entry] + later, bits, registers) <==>
      ValidEntry(entry, bits, registers) && ValidEntries(later, bits, Grown(registers, entry))
    ensures Declared(registers, [entry] + later) == Declared(Grown(registers, entry), later)
  {
    hide WriteEntry, ValidEntry, Grown;
    assert ([entry] + later)[1..] == later;
  }

  lemma {:induction false} EntriesComplete(entries: seq<Entry>, bits: nat, registers: seq<Register>, tail: string)
    requires bits < Power256(4) && ValidEntries(entries, bits, registers)
    requires AllBytes(WriteEntries(entries, TotalWidth(registers), tail))
    ensures ReadEntries(WriteEntries(entries, TotalWidth(registers), tail), |entries|, bits, registers)
      == ReadEntries(tail, 0, bits, Declared(registers, entries))
    decreases |entries|
  {
    hide AllBytes, Power256, ReadEntry, WriteEntry, ValidEntry, Grown, TotalWidth, ReadEntries;
    if entries != [] {
      var entry, later := entries[0], entries[1..];
      assert entries == [entry] + later;
      hide WriteEntries, ValidEntries, Declared;
      EntriesPrepend(entry, later, TotalWidth(registers), tail, bits, registers);
      var rest := WriteEntries(later, TotalWidth(registers) + Taken(entry), tail);
      var s := WriteEntry(entry, TotalWidth(registers), rest);
      EntryComplete(entry, bits, registers, rest);
      EntrySound(s, bits, registers);
      GrownWidth(registers, entry);
      EntriesComplete(later, bits, Grown(registers, entry), tail);
      ReadEntriesStep(s, |entries|, bits, registers);
    }
  }

  // ----- the whole file

  ghost predicate IsFile(program: string, qubits: nat, h: Header, entries: seq<Entry>, tail: string) {
    && ValidHeader(h, qubits) && h.count == |entries|
    && ValidEntries(entries, h.bits, [])
    && program == WriteHeader(h, WriteEntries(entries, 0, tail))
  }

  /** A file has the given layout exactly when it can be written from a header
      and entries that declare those registers and use every classical bit. */
  lemma QpyExact(program: string, qubits: nat, registers: seq<Register>)
    requires AllBytes(program)
    ensures QpyRegisters(program, qubits) == Ok(registers) <==>
      exists h: Header, entries: seq<Entry>, tail: string ::
        && IsFile(program, qubits, h, entries, tail)
        && registers == Declared([], entries) != []
        && TotalWidth(registers) == h.bits
  {
    hide ReadHeader, WriteHeader, WriteEntries, ValidEntries, Power256;
    if QpyRegisters(program, qubits) == Ok(registers) {
      var (h, s) := ReadHeader(program, qubits).value;
      HeaderSound(program, qubits);
      var entries, tail := EntriesSound(s, h.count, h.bits, []);
      EntriesEnd(s, h.count, h.bits, []);
      assert IsFile(program, qubits, h, entries, tail);
    }
    if h: Header, entries: seq<Entry>, tail: string :|
      IsFile(program, qubits, h, entries, tail) && registers == Declared([], entries) != [] && TotalWidth(registers) == h.bits {
      HeaderComplete(h, qubits, WriteEntries(entries, 0, tail));
      HeaderSound(program, qubits);
      EntriesComplete(entries, h.bits, [], tail);
    }
  }

  lemma {:induction false} EntriesEnd(s: string, count: nat, bits: nat, registers: seq<Register>)
    requires ReadEntries(s, count, bits, registers).Ok?
    ensures var result := ReadEntries(s, count, bits, registers).value;
      TotalWidth(result) == bits && result != []
    decreases count
  {
    hide ReadEntry;
    if count > 0 {
      var (entry, rest) := ReadEntry(s, bits, registers).value;
      EntriesEnd(rest, count - 1, bits, Grown(registers, entry));
    }
  }

  // ----- the layout is sound

  ghost predicate Growing(registers: seq<Register>, bits: nat) {
    && Distinct(Names(registers))
    && (forall i :: 0 <= i < |registers| ==> registers[i].name != "" && registers[i].width > 0)
    && TotalWidth(registers) <= bits
  }

  lemma GrownGrowing(s: string, bits: nat, registers: seq<Register>)
    requires Growing(registers, bits) && ReadEntry(s, bits, registers).Ok?
    ensures Growing(Grown(registers, ReadEntry(s, bits, registers).value.0), bits)
  {
    hide TakeFrom, ReadFront, ReadBits, IsUtf8;
    var (entry, _) := ReadEntry(s, bits, registers).value;
    if entry.Bits? {
      TotalWidthAppend(registers, entry.register);
      assert Names(registers + [entry.register]) == Names(registers) + [entry.register.name];
    }
  }

  lemma {:induction false} EntriesGrowing(s: string, count: nat, bits: nat, registers: seq<Register>)
    requires Growing(registers, bits) && ReadEntries(s, count, bits, registers).Ok?
    ensures Growing(ReadEntries(s, count, bits, registers).value, bits)
    decreases count
  {
    hide ReadEntry, Growing;
    if count > 0 {
      GrownGrowing(s, bits, registers);
      var (entry, rest) := ReadEntry(s, bits, registers).value;
      EntriesGrowing(rest, count - 1, bits, Grown(registers, entry));
    }
  }

  /** Registers have distinct nonempty names and positive widths. */
  lemma QpySound(program: string, qubits: nat)
    requires AllBytes(program) && QpyRegisters(program, qubits).Ok?
    ensures SoundLayout(QpyRegisters(program, qubits).value)
  {
    assert Power256(4) <= SIZE_MAX;
    hide Power256, ReadHeader, ReadEntries;
    var (h, s) := ReadHeader(program, qubits).value;
    HeaderSound(program, qubits);
    EntriesGrowing(s, h.count, h.bits, []);
    EntriesEnd(s, h.count, h.bits, []);
  }
}
