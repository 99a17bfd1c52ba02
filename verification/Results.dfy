/** decodeResults of src/Job.cpp: one program's sampler output becomes the
    comma-separated shots, the histogram's keys and its counts. */
module Results {
  import opened Common
  import opened JsonModel
  import opened Bits

  datatype Results = Results(shots: string, keys: string, counts: seq<nat>)

  // ----- one register's samples

  /** The bit strings of the register's samples, one a shot. */
  function Column(result: Json, width: nat, shots: nat): (r: Result<seq<string>>)
    ensures r.Ok? ==> |r.value| == shots
  {
    var _ :- CheckWidth(result, width);
    var samples :- At(result, "samples");
    var values :- Items(samples);
    if |values| != shots then Err(Fatal) else BitStrings(values, width)
  }

  function CheckWidth(result: Json, width: nat): Result<()> {
    if Has(result, "num_bits") then
      var bits :- PositiveInteger(result.fields["num_bits"]);
      Require(bits == width, Fatal)
    else Ok(())
  }

  function BitStrings(values: seq<Json>, width: nat): (r: Result<seq<string>>)
    ensures r.Ok? ==> |r.value| == |values|
  {
    if values == [] then Ok([])
    else
      var front :- BitStrings(values[..|values| - 1], width);
      var bits :- BitString(values[|values| - 1], width);
      Ok(front + [bits])
  }

  function BitString(value: Json, width: nat): Result<string> {
    var sample :- Text(value);
    Bitstring(sample, width)
  }

  /** The columns of the registers in declaration order. */
  function Columns(output: Json, registers: seq<Register>, shots: nat): (r: Result<seq<seq<string>>>)
    ensures r.Ok? ==> |r.value| == |registers| && forall k :: 0 <= k < |registers| ==> |r.value[k]| == shots
  {
    if registers == [] then Ok([])
    else
      var last := registers[|registers| - 1];
      var front :- Columns(output, registers[..|registers| - 1], shots);
      var column :- RegisterColumn(output, last, shots);
      Ok(front + [column])
  }

  function RegisterColumn(output: Json, register: Register, shots: nat): (r: Result<seq<string>>)
    ensures r.Ok? ==> |r.value| == shots
  {
    var result :- At(output, register.name);
    Column(result, register.width, shots)
  }

  /** A shot's bits: each register to the left of those declared before it. */
  function Row(columns: seq<seq<string>>, i: nat): string
    requires forall k :: 0 <= k < |columns| ==> i < |columns[k]|
  {
    if columns == [] then "" else columns[|columns| - 1][i] + Row(columns[..|columns| - 1], i)
  }

  function Rows(columns: seq<seq<string>>, shots: nat): (rows: seq<string>)
    requires forall k :: 0 <= k < |columns| ==> |columns[k]| == shots
    ensures |rows| == shots
  {
    seq(shots, i requires 0 <= i < shots => Row(columns, i))
  }

  // ----- the histogram

  /** An entry of the ordered map from samples to counts. */
  datatype Bin = Bin(key: string, count: nat)

  /** The order of std::string. */
  predicate Less(a: string, b: string) {
    b != "" && (a == "" || a[0] < b[0] || (a[0] == b[0] && Less(a[1..], b[1..])))
  }

  /** ++histogram[key] */
  function Increment(histogram: seq<Bin>, key: string): seq<Bin> {
    if histogram == [] || Less(key, histogram[0].key) then [Bin(key, 1)] + histogram
    else if key == histogram[0].key then [Bin(key, histogram[0].count + 1)] + histogram[1..]
    else [histogram[0]] + Increment(histogram[1..], key)
  }

  function Histogram(samples: seq<string>): seq<Bin> {
    if samples == [] then [] else Increment(Histogram(samples[..|samples| - 1]), samples[|samples| - 1])
  }

  // ----- comma-separated lists

  function Append(destination: string, value: string): string {
    if destination == "" then value else destination + "," + value
  }

  function Join(values: seq<string>): string {
    if values == [] then "" else Append(Join(values[..|values| - 1]), values[|values| - 1])
  }

  function Keys(histogram: seq<Bin>): seq<string> {
    seq(|histogram|, i requires 0 <= i < |histogram| => histogram[i].key)
  }

  function Counts(histogram: seq<Bin>): seq<nat> {
    seq(|histogram|, i requires 0 <= i < |histogram| => histogram[i].count)
  }

  // ----- the whole result

  function Samples(data: Json, registers: seq<Register>, shots: nat): (r: Result<seq<string>>)
    ensures r.Ok? ==> |r.value| == shots
  {
    var output :- At(data, "data");
    if !output.Obj? || |output.fields| != |registers| then Err(Fatal)
    else
      var columns :- Columns(output, registers, shots);
      Ok(Rows(columns, shots))
  }

  function Summary(samples: seq<string>): Results {
    var histogram := Histogram(samples);
    Results(Join(samples), Join(Keys(histogram)), Counts(histogram))
  }

  function Decoded(data: Json, registers: seq<Register>, shots: nat): Result<Results> {
    var samples :- Samples(data, registers, shots);
    Ok(Summary(samples))
  }

  // ----- the decoder's loops

  /** Puts the register's bits in front of the shots collected so far. */
  method PrependColumn(output: Json, register: Register, samples: array<string>) returns (r: Result<()>, ghost column: seq<string>)
    modifies samples
    ensures match RegisterColumn(output, register, samples.Length)
            case Err(error) => r == Err(error)
            case Ok(bits) =>
              && r.Ok? && column == bits
              && forall i :: 0 <= i < samples.Length ==> samples[i] == column[i] + old(samples[i])
  {
    hide Bitstring;
    column := [];
    var shots := samples.Length;
    var result :- At(output, register.name);
    if Has(result, "num_bits") {
      var bits :- PositiveInteger(result.fields["num_bits"]);
      if bits != register.width {
        return Err(Fatal), [];
      }
    }
    var list :- At(result, "samples");
    var values :- Items(list);
    if |values| != shots {
      return Err(Fatal), [];
    }
    for index := 0 to shots
      invariant BitStrings(values[..index], register.width) == Ok(column)
      invariant forall i :: 0 <= i < index ==> samples[i] == column[i] + old(samples[i])
      invariant forall i :: index <= i < shots ==> samples[i] == old(samples[i])
    {
      BitStringsStep(values, register.width, index);
      var sample :- Text(values[index]);
      var bits := ToBits(sample, register.width);
      if bits.Err? {
        return Err(Fatal), [];
      }
      samples[index] := bits.value + samples[index];
      column := column + [bits.value];
    }
    assert values[..|values|] == values;
    return Ok(()), column;
  }

  /** One more value either fails the whole list or adds its bit string. */
  lemma BitStringsStep(values: seq<Json>, width: nat, i: nat)
    requires i < |values| && BitStrings(values[..i], width).Ok?
    ensures match BitString(values[i], width)
            case Err(_) => BitStrings(values, width) == Err(Fatal)
            case Ok(bits) => BitStrings(values[..i + 1], width) == Ok(BitStrings(values[..i], width).value + [bits])
  {
    hide BitString;
    assert values[..i + 1][..i] == values[..i];
    if BitString(values[i], width).Err? {
      BitStringsPrefix(values, width, i + 1);
    }
  }

  lemma {:induction false} BitStringsPrefix(values: seq<Json>, width: nat, n: nat)
    requires n <= |values| && BitStrings(values[..n], width).Err?
    ensures BitStrings(values, width) == Err(Fatal)
    decreases |values|
  {
    if n < |values| {
      var front := values[..|values| - 1];
      assert front[..n] == values[..n];
      BitStringsPrefix(front, width, n);
    } else {
      assert values[..n] == values;
      BitStringsFatal(values, width);
    }
  }

  lemma BitStringsFatal(values: seq<Json>, width: nat)
    ensures BitStrings(values, width).Err? ==> BitStrings(values, width) == Err(Fatal)
  {
  }

  lemma ColumnsStep(output: Json, registers: seq<Register>, k: nat, shots: nat)
    requires k < |registers| && Columns(output, registers[..k], shots).Ok?
    ensures match RegisterColumn(output, registers[k], shots)
            case Err(_) => Columns(output, registers, shots) == Err(Fatal)
            case Ok(bits) => Columns(output, registers[..k + 1], shots) == Ok(Columns(output, registers[..k], shots).value + [bits])
  {
    hide RegisterColumn;
    assert registers[..k + 1][..k] == registers[..k];
    if RegisterColumn(output, registers[k], shots).Err? {
      ColumnsPrefix(output, registers, shots, k + 1);
    }
  }

  lemma {:induction false} ColumnsPrefix(output: Json, registers: seq<Register>, shots: nat, n: nat)
    requires n <= |registers| && Columns(output, registers[..n], shots).Err?
    ensures Columns(output, registers, shots) == Err(Fatal)
    decreases |registers|
  {
    if n < |registers| {
      var front := registers[..|registers| - 1];
      assert front[..n] == registers[..n];
      ColumnsPrefix(output, front, shots, n);
    } else {
      assert registers[..n] == registers;
      ColumnsFatal(output, registers, shots);
    }
  }

  lemma ColumnsFatal(output: Json, registers: seq<Register>, shots: nat)
    ensures Columns(output, registers, shots).Err? ==> Columns(output, registers, shots) == Err(Fatal)
  {
    forall values: seq<Json>, width
      ensures BitStrings(values, width).Err? ==> BitStrings(values, width) == Err(Fatal)
    {
      BitStringsFatal(values, width);
    }
  }

  /** Collects the shots and counts them, and lists the ordered counts. */
  method Summarise(samples: seq<string>) returns (result: Results)
    ensures result == Summary(samples)
  {
    var shots := "";
    var histogram: seq<Bin> := [];
    for i := 0 to |samples|
      invariant shots == Join(samples[..i]) && histogram == Histogram(samples[..i])
    {
      assert samples[..i + 1][..i] == samples[..i];
      shots := Append(shots, samples[i]);
      histogram := Increment(histogram, samples[i]);
    }
    assert samples[..|samples|] == samples;
    hide Histogram, Increment;
    var keys := "";
    var counts: seq<nat> := [];
    for i := 0 to |histogram|
      invariant keys == Join(Keys(histogram)[..i]) && counts == Counts(histogram)[..i]
    {
      assert Keys(histogram)[..i + 1][..i] == Keys(histogram)[..i];
      keys := Append(keys, histogram[i].key);
      counts := counts + [histogram[i].count];
    }
    assert Keys(histogram)[..|histogram|] == Keys(histogram) && Counts(histogram)[..|histogram|] == Counts(histogram);
    return Results(shots, keys, counts);
  }

  method DecodeResults(data: Json, registers: seq<Register>, shots: nat) returns (r: Result<Results>)
    ensures r == Decoded(data, registers, shots)
  {
    var output :- At(data, "data");
    if !output.Obj? || |output.fields| != |registers| {
      return Err(Fatal);
    }
    var samples := new string[shots](_ => "");
    ghost var columns: seq<seq<string>> := [];
    for k := 0 to |registers|
      invariant forall j :: 0 <= j < |columns| ==> |columns[j]| == shots
      invariant Columns(output, registers[..k], shots) == Ok(columns)
      invariant forall i :: 0 <= i < shots ==> samples[i] == Row(columns, i)
    {
      ColumnsStep(output, registers, k, shots);
      hide Columns, RegisterColumn;
      var added;
      ghost var column;
      ghost var before := columns;
      added, column := PrependColumn(output, registers[k], samples);
      if added.Err? {
        return Err(Fatal);
      }
      columns := before + [column];
      assert columns[..|columns| - 1] == before;
    }
    assert registers[..|registers|] == registers;
    assert samples[..] == Rows(columns, shots);
    var summary := Summarise(samples[..]);
    return Ok(summary);
  }
}
