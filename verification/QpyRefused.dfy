/** Why a QPY file has no layout (src/Qpy.cpp): the field that offends, behind fields
    that are as they should be. */
module QpyRefused {
  import opened Common
  import opened Qpy
  import opened Utf8
  import opened QpyLayout
  import opened QpyExact

  // ----- the file header

  /** The fields up to one that is refused. */
  datatype Offence =
    | Version(version: nat)
    | Circuits(release: string, circuits: nat)
    | Symbolic(release: string, symbolic: string)
    | Kind(release: string, symbolic: string, kind: string)
    | Offset(release: string, symbolic: string, offset: nat)
  {
    function Text(rest: string): string {
      match this
      case Version(version) => "QISKIT" + (Bytes(version, 1) + rest)
      case Circuits(release, circuits) => "QISKIT" + (Bytes(17, 1) + (release + (Bytes(circuits, 8) + rest)))
      case Symbolic(release, symbolic) => "QISKIT" + (Bytes(17, 1) + (release + (Bytes(1, 8) + (symbolic + rest))))
      case Kind(release, symbolic, kind) => "QISKIT" + (Bytes(17, 1) + (release + (Bytes(1, 8) + (symbolic + (kind + rest)))))
      case Offset(release, symbolic, offset) =>
        "QISKIT" + (Bytes(17, 1) + (release + (Bytes(1, 8) + (symbolic + ("q" + (Bytes(offset, 8) + rest))))))
    }

    predicate Offends() {
      match this
      case Version(version) => version != 17 && version < Power256(1)
      case Circuits(release, circuits) => |release| == 3 && circuits != 1 && circuits < Power256(8)
      case Symbolic(release, symbolic) => |release| == 3 && |symbolic| == 1 && symbolic != "p" && symbolic != "e"
      case Kind(release, symbolic, kind) => |release| == 3 && (symbolic == "p" || symbolic == "e") && |kind| == 1 && kind != "q"
      case Offset(release, symbolic, offset) =>
        |release| == 3 && (symbolic == "p" || symbolic == "e") && offset != 28 && offset < Power256(8)
    }

    /** A file of another version, with several circuits or a schedule is not
        supported; any other offence is an invalid argument. */
    function Error(): Error {
      if Version? || Circuits? || Kind? then NotSupported else InvalidArgument
    }
  }

  lemma NoMagic(program: string, qubits: nat)
    requires |program| < 6 || program[..6] != "QISKIT"
    ensures QpyRegisters(program, qubits) == Err(InvalidArgument)
  {
  }

  /** A file that ends inside a field is an invalid argument. */
  lemma Truncated(s: string, size: nat)
    requires |s| < size
    ensures TakeFrom(s, size) == Err(InvalidArgument) && TakeInteger(s, size) == Err(InvalidArgument)
  {
  }

  lemma HeaderRefused(offence: Offence, rest: string, qubits: nat)
    requires offence.Offends() && AllBytes(offence.Text(rest))
    ensures QpyRegisters(offence.Text(rest), qubits) == Err(offence.Error())
  {
    HeaderNumbers();
    hide TakeFrom, TakeInteger, AllBytes, BigEndian, Bytes, Power256, ReadCircuit, ReadEntries;
    var s := offence.Text(rest);
    match offence
    case Version(version) =>
      TakeExact(s, 6, "QISKIT", Bytes(version, 1) + rest);
      IntegerExact(Bytes(version, 1) + rest, 1, version, rest);
    case Circuits(release, circuits) =>
      UpToRelease(s, release, Bytes(circuits, 8) + rest);
      IntegerExact(Bytes(circuits, 8) + rest, 8, circuits, rest);
    case Symbolic(release, symbolic) =>
      UpToCircuits(s, release, symbolic + rest);
      TakeExact(symbolic + rest, 1, symbolic, rest);
    case Kind(release, symbolic, kind) =>
      UpToCircuits(s, release, symbolic + (kind + rest));
      TakeExact(symbolic + (kind + rest), 1, symbolic, kind + rest);
      TakeExact(kind + rest, 1, kind, rest);
    case Offset(release, symbolic, offset) =>
      var later := Bytes(offset, 8) + rest;
      UpToCircuits(s, release, symbolic + ("q" + later));
      TakeExact(symbolic + ("q" + later), 1, symbolic, "q" + later);
      TakeExact("q" + later, 1, "q", later);
      IntegerExact(later, 8, offset, rest);
  }

  lemma UpToRelease(s: string, release: string, later: string)
    requires |release| == 3 && AllBytes(s) && s == "QISKIT" + (Bytes(17, 1) + (release + later))
    ensures TakeFrom(s, 6) == Ok(("QISKIT", Bytes(17, 1) + (release + later)))
    ensures TakeInteger(Bytes(17, 1) + (release + later), 1) == Ok((17, release + later))
    ensures TakeFrom(release + later, 3) == Ok((release, later)) && AllBytes(later)
  {
    HeaderNumbers();
    hide TakeFrom, TakeInteger, AllBytes, BigEndian, Bytes, Power256;
    TakeExact(s, 6, "QISKIT", Bytes(17, 1) + (release + later));
    IntegerExact(Bytes(17, 1) + (release + later), 1, 17, release + later);
    TakeExact(release + later, 3, release, later);
  }

  lemma UpToCircuits(s: string, release: string, later: string)
    requires |release| == 3 && AllBytes(s) && s == "QISKIT" + (Bytes(17, 1) + (release + (Bytes(1, 8) + later)))
    ensures TakeFrom(s, 6) == Ok(("QISKIT", Bytes(17, 1) + (release + (Bytes(1, 8) + later))))
    ensures TakeInteger(Bytes(17, 1) + (release + (Bytes(1, 8) + later)), 1) == Ok((17, release + (Bytes(1, 8) + later)))
    ensures TakeFrom(release + (Bytes(1, 8) + later), 3) == Ok((release, Bytes(1, 8) + later))
    ensures TakeInteger(Bytes(1, 8) + later, 8) == Ok((1, later)) && AllBytes(later)
  {
    HeaderNumbers();
    hide TakeFrom, TakeInteger, AllBytes, BigEndian, Bytes, Power256;
    UpToRelease(s, release, Bytes(1, 8) + later);
    IntegerExact(Bytes(1, 8) + later, 8, 1, later);
  }

  // ----- the circuit header

  /** Standalone variables are not supported; a circuit without qubits or bits, or
      with more qubits than the backend, is an invalid argument. */
  lemma CircuitRefused(name: nat, nameKind: string, phase: nat, width: nat, bits: nat, metadata: nat, count: nat, filler: string,
                       variables: nat, rest: string, qubits: nat, release: string, symbolic: string)
    requires name < Power256(2) && |nameKind| == 1 && phase < Power256(2) && width < Power256(4) && bits < Power256(4)
    requires metadata < Power256(8) && count < Power256(4) && |filler| == 8 && variables < Power256(4)
    requires var s := Bytes(name, 2) + (nameKind + (Bytes(phase, 2) + (Bytes(width, 4) + (Bytes(bits, 4) +
                 (Bytes(metadata, 8) + (Bytes(count, 4) + (filler + (Bytes(variables, 4) + rest)))))))); AllBytes(s)
    ensures var s := Bytes(name, 2) + (nameKind + (Bytes(phase, 2) + (Bytes(width, 4) + (Bytes(bits, 4) +
                 (Bytes(metadata, 8) + (Bytes(count, 4) + (filler + (Bytes(variables, 4) + rest))))))));
      && (variables != 0 ==> ReadCircuit(s, qubits, release, symbolic) == Err(NotSupported))
      && (variables == 0 && (width == 0 || width > qubits || bits == 0) ==> ReadCircuit(s, qubits, release, symbolic) == Err(InvalidArgument))
  {
    hide TakeFrom, TakeInteger, AllBytes, BigEndian, Bytes, Power256;
    var s8 := Bytes(variables, 4) + rest;
    var s7 := filler + s8;
    var s6 := Bytes(count, 4) + s7;
    var s5 := Bytes(metadata, 8) + s6;
    var s4 := Bytes(bits, 4) + s5;
    var s3 := Bytes(width, 4) + s4;
    var s2 := Bytes(phase, 2) + s3;
    var s1 := nameKind + s2;
    IntegerExact(Bytes(name, 2) + s1, 2, name, s1);
    TakeExact(s1, 1, nameKind, s2);
    IntegerExact(s2, 2, phase, s3);
    IntegerExact(s3, 4, width, s4);
    IntegerExact(s4, 4, bits, s5);
    IntegerExact(s5, 8, metadata, s6);
    IntegerExact(s6, 4, count, s7);
    TakeExact(s7, 8, filler, s8);
    IntegerExact(s8, 4, variables, rest);
  }

  // ----- the entries

  /** Registers outside the circuit, of no bits, of more than are left, of a name that
      is taken or of bits out of order are not supported; a name that is empty, holds
      a null character or is not UTF-8 is an invalid argument. */
  lemma EntryRefused(front: Front, name: string, rest: string, bits: nat, registers: seq<Register>)
    requires ValidFront(front) && front.kind == "c" && |name| == front.length
    requires AllBytes(WriteFront(front, name + rest)) && bits < Power256(4)
    ensures var r := ReadEntry(WriteFront(front, name + rest), bits, registers);
      && (front.inCircuit == 0 ==> r == Err(NotSupported))
      && (front.inCircuit == 1 && (name == "" || '\0' in name || !IsUtf8(name)) ==> r == Err(InvalidArgument))
      && (front.inCircuit == 1 && name != "" && '\0' !in name && IsUtf8(name) ==>
            front.size == 0 || TotalWidth(registers) + front.size > bits || name in Names(registers) ==> r == Err(NotSupported))
  {
    hide TakeFrom, TakeInteger, AllBytes, Power256, IsUtf8, Names, TotalWidth, ReadFront, WriteFront, ReadBits;
    FrontComplete(front, name + rest);
    FrontSound(WriteFront(front, name + rest));
    TakeExact(name + rest, front.length, name, rest);
  }

  /** A file that leaves bits without a register, or has none, is not supported. */
  lemma EndRefused(s: string, bits: nat, registers: seq<Register>)
    requires TotalWidth(registers) != bits || registers == []
    ensures ReadEntries(s, 0, bits, registers) == Err(NotSupported)
  {
  }

  /** A register whose bits are not the next ones is not supported. */
  lemma {:induction false} BitsRefused(s: string, size: nat, next: nat, good: nat, bit: nat, rest: string)
    requires good < size && bit != next + good && bit < Power256(8) && next + size <= Power256(8)
    requires s == WriteBits(good, next, Bytes(bit, 8) + rest) && AllBytes(s)
    ensures ReadBits(s, size, next) == Err(NotSupported)
    decreases size
  {
    hide TakeFrom, TakeInteger, AllBytes, BigEndian, Bytes, Power256;
    if good == 0 {
      IntegerExact(s, 8, bit, rest);
    } else {
      var later := WriteBits(good - 1, next + 1, Bytes(bit, 8) + rest);
      IntegerExact(s, 8, next, later);
      BitsRefused(later, size - 1, next + 1, good - 1, bit, rest);
    }
  }
}
