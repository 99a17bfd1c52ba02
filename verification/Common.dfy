/** Vocabulary shared by every module: optional values, the device's error
    codes, results that carry either a value or an error, and registers. */
module Common {

  datatype Option<+T> = None | Some(value: T)

  /** The QDMI error codes the device can return. */
  datatype Error =
    | InvalidArgument
    | NotSupported
    | BadState
    | Fatal
    | OutOfMemory
    | OutOfRange
    | PermissionDenied
    | NotFound
    | Timeout

  /** A C++ function that may throw a failure returns a Result. */
  datatype Result<+T> = Ok(value: T) | Err(error: Error) {
    predicate IsFailure() {
      Err?
    }

    function PropagateFailure<U>(): Result<U>
      requires Err?
    {
      Err(error)
    }

    function Extract(): T
      requires Ok?
    {
      value
    }
  }

  /** Passes when the condition holds and fails with the given error otherwise. */
  function Require(condition: bool, error: Error): Result<()> {
    if condition then Ok(()) else Err(error)
  }

  /** The largest 64-bit unsigned value; std::size_t is 64 bits wide. */
  const SIZE_MAX: nat := 0xFFFF_FFFF_FFFF_FFFF

  /** A classical register of a program: its name and its number of bits. */
  datatype Register = Register(name: string, width: nat)

  function Names(registers: seq<Register>): seq<string> {
    seq(|registers|, i requires 0 <= i < |registers| => registers[i].name)
  }

  function TotalWidth(registers: seq<Register>): nat {
    if registers == [] then 0 else registers[0].width + TotalWidth(registers[1..])
  }

  lemma TotalWidthAppend(registers: seq<Register>, last: Register)
    ensures TotalWidth(registers + [last]) == TotalWidth(registers) + last.width
  {
    if registers == [] {
      assert registers + [last] == [last];
    } else {
      assert (registers + [last])[1..] == registers[1..] + [last];
      TotalWidthAppend(registers[1..], last);
    }
  }

  ghost predicate Distinct<T>(items: seq<T>) {
    forall i, j :: 0 <= i < j < |items| ==> items[i] != items[j]
  }

  /** What every layout reader promises about the registers it returns. */
  ghost predicate SoundLayout(registers: seq<Register>) {
    && registers != []
    && Distinct(Names(registers))
    && (forall i :: 0 <= i < |registers| ==> registers[i].name != "" && registers[i].width > 0)
    && TotalWidth(registers) <= SIZE_MAX
  }

  function Max(a: int, b: int): int {
    if a < b then b else a
  }

  function Min(a: int, b: int): int {
    if a < b then a else b
  }
}
