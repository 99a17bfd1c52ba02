/** qpyRegisters of src/Qpy.cpp: the classical layout of a QPY 17 file with one
    circuit. The reader accepts exactly the files that can be written from a
    header and register entries whose classical bits are numbered in order. */
module QpyLayout {
  import opened Common
  import opened Qpy
  import opened Utf8

  // ----- reading

  /** The fields of the file header, of the circuit table and of the circuit
      header; those the reader skips are kept as they are. */
  datatype Header = Header(
    release: string, symbolic: string, nameKind: string, width: nat, bits: nat, count: nat, filler: string,
    name: string, phase: string, metadata: string)

  function ReadHeader(program: string, qubits: nat): Result<(Header, string)> {
    var (magic, s) :- TakeFrom(program, 6);
    if magic != "QISKIT" then Err(InvalidArgument) else
    var (version, s) :- TakeInteger(s, 1);
    if version != 17 then Err(NotSupported) else
    var (release, s) :- TakeFrom(s, 3);
    var (circuits, s) :- TakeInteger(s, 8);
    if circuits != 1 then Err(NotSupported) else
    var (symbolic, s) :- TakeFrom(s, 1);
    if symbolic != "p" && symbolic != "e" then Err(InvalidArgument) else
    var (kind, s) :- TakeFrom(s, 1);
    if kind != "q" then Err(NotSupported) else
    var (offset, s) :- TakeInteger(s, 8);
    if offset != 28 then Err(InvalidArgument) else
    ReadCircuit(s, qubits, release, symbolic)
  }

  function ReadCircuit(s: string, qubits: nat, release: string, symbolic: string): Result<(Header, string)> {
    var (nameSize, s) :- TakeInteger(s, 2);
    var (nameKind, s) :- TakeFrom(s, 1);
    var (phaseSize, s) :- TakeInteger(s, 2);
    var (width, s) :- TakeInteger(s, 4);
    var (bits, s) :- TakeInteger(s, 4);
    var (metadataSize, s) :- TakeInteger(s, 8);
    var (count, s) :- TakeInteger(s, 4);
    var (filler, s) :- TakeFrom(s, 8);
    var (variables, s) :- TakeInteger(s, 4);
    if variables != 0 then Err(NotSupported)
    else if !(0 < width <= qubits && bits > 0) then Err(InvalidArgument) else
    var (name, s) :- TakeFrom(s, nameSize);
    var (phase, s) :- TakeFrom(s, phaseSize);
    var (metadata, s) :- TakeFrom(s, metadataSize);
    Ok((Header(release, symbolic, nameKind, width, bits, count, filler, name, phase, metadata), s))
  }

  /** A register entry: of qubits, whose indices are skipped, or of bits. */
  datatype Entry =
    | Qubits(standalone: nat, inCircuit: nat, name: string, size: nat, indices: string)
    | Bits(standalone: nat, inCircuit: nat, register: Register)

  /** Reads `size` integers that must count up from `next`. */
  function ReadBits(s: string, size: nat, next: nat): Result<string>
    decreases size
  {
    if size == 0 then Ok(s) else
    var (bit, s) :- TakeInteger(s, 8);
    if bit != next then Err(NotSupported) else ReadBits(s, size - 1, next + 1)
  }

  /** The fixed fields of an entry. */
  datatype Front = Front(kind: string, standalone: nat, size: nat, length: nat, inCircuit: nat)

  function ReadFront(s: string): Result<(Front, string)> {
    var (kind, s) :- TakeFrom(s, 1);
    if kind != "q" && kind != "c" then Err(InvalidArgument) else
    var (standalone, s) :- TakeInteger(s, 1);
    if standalone > 1 then Err(InvalidArgument) else
    var (size, s) :- TakeInteger(s, 4);
    var (length, s) :- TakeInteger(s, 2);
    var (inCircuit, s) :- TakeInteger(s, 1);
    if inCircuit > 1 then Err(InvalidArgument) else
    Ok((Front(kind, standalone, size, length, inCircuit), s))
  }

  function ReadEntry(s: string, bits: nat, registers: seq<Register>): Result<(Entry, string)> {
    var (front, s) :- ReadFront(s);
    if front.kind == "q" then
      var (name, s) :- TakeFrom(s, front.length);
      var (indices, s) :- TakeFrom(s, front.size * 8);
      Ok((Qubits(front.standalone, front.inCircuit, name, front.size, indices), s))
    else if front.inCircuit == 0 then Err(NotSupported)
    else
      var (name, s) :- TakeFrom(s, front.length);
      if name == "" || '\0' in name || !IsUtf8(name) then Err(InvalidArgument)
      else if !(0 < front.size <= bits - TotalWidth(registers)) || name in Names(registers) then Err(NotSupported)
      else
        var s :- ReadBits(s, front.size, TotalWidth(registers));
        Ok((Bits(front.standalone, front.inCircuit, Register(name, front.size)), s))
  }

  function Grown(registers: seq<Register>, entry: Entry): seq<Register> {
    if entry.Bits? then registers + [entry.register] else registers
  }

  function ReadEntries(s: string, count: nat, bits: nat, registers: seq<Register>): Result<seq<Register>>
    decreases count
  {
    if count == 0 then
      if TotalWidth(registers) == bits && registers != [] then Ok(registers) else Err(NotSupported)
    else
      var (entry, s) :- ReadEntry(s, bits, registers);
      ReadEntries(s, count - 1, bits, Grown(registers, entry))
  }

  /** The classical layout of a QPY file, or why it is refused. */
  function QpyRegisters(program: string, qubits: nat): Result<seq<Register>> {
    var (header, s) :- ReadHeader(program, qubits);
    ReadEntries(s, header.count, header.bits, [])
  }

  // ----- the reader's loops

  method ReadQpyRegisters(program: string, qubits: nat) returns (r: Result<seq<Register>>)
    ensures r == QpyRegisters(program, qubits)
  {
    hide ReadHeader, ReadEntry;
    var reader := new Reader(program);
    var header :- ScanHeader(reader, qubits);
    var registers: seq<Register> := [];
    var names: set<string> := {};
    var next := 0;
    for index := 0 to header.count
      invariant QpyRegisters(program, qubits) == ReadEntries(reader.remaining, header.count - index, header.bits, registers)
      invariant names == set name | name in Names(registers)
      invariant next == TotalWidth(registers) <= header.bits
    {
      var entry :- ScanEntry(reader, header.bits, next, names, registers);
      if entry.Bits? {
        TotalWidthAppend(registers, entry.register);
        assert Names(registers + [entry.register]) == Names(registers) + [entry.register.name];
        names := names + {entry.register.name};
        next := next + entry.register.width;
        registers := registers + [entry.register];
      }
    }
    if next != header.bits || registers == [] {
      return Err(NotSupported);
    }
    return Ok(registers);
  }

  method ScanHeader(reader: Reader, qubits: nat) returns (r: Result<Header>)
    modifies reader
    ensures match ReadHeader(old(reader.remaining), qubits)
            case Ok((header, rest)) => r == Ok(header) && reader.remaining == rest
            case Err(error) => r == Err(error)
  {
    hide BigEndian, TakeFrom, TakeInteger;
    var magic :- reader.Take(6);
    if magic != "QISKIT" {
      return Err(InvalidArgument);
    }
    var version :- reader.Integer(1);
    if version != 17 {
      return Err(NotSupported);
    }
    var release :- reader.Take(3);
    var circuits :- reader.Integer(8);
    if circuits != 1 {
      return Err(NotSupported);
    }
    var symbolic :- reader.Take(1);
    if symbolic != "p" && symbolic != "e" {
      return Err(InvalidArgument);
    }
    var kind :- reader.Take(1);
    if kind != "q" {
      return Err(NotSupported);
    }
    var offset :- reader.Integer(8);
    if offset != 28 {
      return Err(InvalidArgument);
    }
    r := ScanCircuit(reader, qubits, release, symbolic);
  }

  method ScanCircuit(reader: Reader, qubits: nat, release: string, symbolic: string) returns (r: Result<Header>)
    modifies reader
    ensures match ReadCircuit(old(reader.remaining), qubits, release, symbolic)
            case Ok((header, rest)) => r == Ok(header) && reader.remaining == rest
            case Err(error) => r == Err(error)
  {
    hide BigEndian, TakeFrom, TakeInteger;
    var nameSize :- reader.Integer(2);
    var nameKind :- reader.Take(1);
    var phaseSize :- reader.Integer(2);
    var width :- reader.Integer(4);
    var bits :- reader.Integer(4);
    var metadataSize :- reader.Integer(8);
    var count :- reader.Integer(4);
    var filler :- reader.Take(8);
    var variables :- reader.Integer(4);
    if variables != 0 {
      return Err(NotSupported);
    }
    if !(width > 0 && width <= qubits && bits > 0) {
      return Err(InvalidArgument);
    }
    var name :- reader.Take(nameSize);
    var phase :- reader.Take(phaseSize);
    var metadata :- reader.Take(metadataSize);
    return Ok(Header(release, symbolic, nameKind, width, bits, count, filler, name, phase, metadata));
  }

  lemma IntegerBound(s: string)
    ensures TakeInteger(s, 4).Ok? ==> TakeInteger(s, 4).value.0 < 0x1_0000_0000
  {
    if |s| >= 4 {
      BigEndianBound(s[..4]);
    }
  }

  /** One turn of the loop over the entries. The products and differences stay
      inside 64 bits. */
  method ScanEntry(reader: Reader, bits: nat, next: nat, names: set<string>, ghost registers: seq<Register>) returns (r: Result<Entry>)
    requires next == TotalWidth(registers) <= bits
    requires names == set name | name in Names(registers)
    modifies reader
    ensures match ReadEntry(old(reader.remaining), bits, registers)
            case Ok((entry, rest)) => r == Ok(entry) && reader.remaining == rest
            case Err(error) => r == Err(error)
    ensures r.Ok? && r.value.Bits? ==> next + r.value.register.width <= bits
  {
    hide BigEndian, TakeFrom, TakeInteger, IsUtf8, Names, TotalWidth;
    var kind :- reader.Take(1);
    if kind != "q" && kind != "c" {
      return Err(InvalidArgument);
    }
    var standalone :- reader.Integer(1);
    if standalone > 1 {
      return Err(InvalidArgument);
    }
    IntegerBound(reader.remaining);
    var size :- reader.Integer(4);
    var length :- reader.Integer(2);
    var inCircuit :- reader.Integer(1);
    if inCircuit > 1 {
      return Err(InvalidArgument);
    }
    if kind == "q" {
      var name :- reader.Take(length);
      assert size * 8 <= SIZE_MAX;
      var indices :- reader.Take(size * 8);
      return Ok(Qubits(standalone, inCircuit, name, size, indices));
    }
    if inCircuit == 0 {
      return Err(NotSupported);
    }
    var name :- reader.Take(length);
    if name == "" || '\0' in name || !IsUtf8(name) {
      return Err(InvalidArgument);
    }
    if !(size > 0 && size <= bits - next && name !in names) {
      return Err(NotSupported);
    }

    ghost var start := reader.remaining;
    for bit := 0 to size
      invariant ReadBits(start, size, next) == ReadBits(reader.remaining, size - bit, next + bit)
    {
      var position :- reader.Integer(8);
      if position != next + bit {
        return Err(NotSupported);
      }
    }
    return Ok(Bits(standalone, inCircuit, Register(name, size)));
  }
}
