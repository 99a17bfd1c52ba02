/** Decoding is exact: it succeeds on exactly the outputs that match the layout,
    every shot carries the value of its registers at their declared offsets, and
    the histogram counts the shots in the order of their values. */
module ResultsExact {
  import opened Common
  import opened JsonModel
  import opened Bits
  import opened Results

  // ----- which outputs are accepted

  ghost predicate IsSampleOf(value: Json, width: nat) {
    value.Str? && Bits.Fits(value.s, width)
  }

  /** The output holds the register's samples: one well-formed sample a shot,
      none beyond the register's width, and no other width announced. */
  ghost predicate Provides(output: Json, register: Register, shots: nat) {
    && Has(output, register.name)
    && var result := output.fields[register.name];
    && (Has(result, "num_bits") ==> result.fields["num_bits"] == Int(register.width) && 0 < register.width <= SIZE_MAX)
    && Has(result, "samples")
    && var samples := result.fields["samples"];
    && samples.Arr? && |samples.items| == shots
    && forall i :: 0 <= i < shots ==> IsSampleOf(samples.items[i], register.width)
  }

  /** The value of the register in one shot. */
  ghost function RegisterValue(output: Json, register: Register, shots: nat, i: nat): nat
    requires Provides(output, register, shots) && i < shots
  {
    var value := output.fields[register.name].fields["samples"].items[i];
    assert IsSampleOf(value, register.width);
    SampleValue(value.s)
  }

  lemma {:induction false} BitStringsExact(values: seq<Json>, width: nat)
    ensures BitStrings(values, width).Ok? <==> forall i :: 0 <= i < |values| ==> IsSampleOf(values[i], width)
    ensures BitStrings(values, width).Ok? ==>
      forall i :: 0 <= i < |values| ==> BitStrings(values, width).value[i] == Binary(SampleValue(values[i].s), width)
  {
    if values != [] {
      var n := |values| - 1;
      BitStringsExact(values[..n], width);
      assert BitString(values[n], width).Ok? <==> IsSampleOf(values[n], width);
      hide BitString, IsSampleOf;
      assert forall i :: 0 <= i < n ==> values[..n][i] == values[i];
    }
  }

  lemma ColumnExact(output: Json, register: Register, shots: nat)
    ensures RegisterColumn(output, register, shots).Ok? <==> Provides(output, register, shots)
    ensures RegisterColumn(output, register, shots).Ok? ==>
      forall i :: 0 <= i < shots ==>
        RegisterColumn(output, register, shots).value[i] == Binary(RegisterValue(output, register, shots, i), register.width)
  {
    hide IsSampleOf, BitStrings, SampleValue, Binary;
    if Has(output, register.name) && Has(output.fields[register.name], "samples") {
      var samples := output.fields[register.name].fields["samples"];
      if samples.Arr? {
        BitStringsExact(samples.items, register.width);
      }
    }
  }

  ghost predicate ProvidesAll(output: Json, registers: seq<Register>, shots: nat) {
    forall k :: 0 <= k < |registers| ==> Provides(output, registers[k], shots)
  }

  lemma {:induction false} ColumnsExact(output: Json, registers: seq<Register>, shots: nat)
    ensures Columns(output, registers, shots).Ok? <==> ProvidesAll(output, registers, shots)
    ensures Columns(output, registers, shots).Ok? ==>
      forall k :: 0 <= k < |registers| ==> RegisterColumn(output, registers[k], shots) == Ok(Columns(output, registers, shots).value[k])
  {
    hide Provides, RegisterColumn;
    if registers != [] {
      var n := |registers| - 1;
      ColumnsExact(output, registers[..n], shots);
      ColumnExact(output, registers[n], shots);
      assert forall k :: 0 <= k < n ==> registers[..n][k] == registers[k];
      if ProvidesAll(output, registers, shots) {
        assert ProvidesAll(output, registers[..n], shots);
      }
    }
  }

  // ----- the value of a shot

  /** The sum of the registers' values, each shifted by the widths declared
      before it. */
  ghost function ShotValue(output: Json, registers: seq<Register>, shots: nat, i: nat): nat
    requires ProvidesAll(output, registers, shots) && i < shots
  {
    if registers == [] then 0
    else
      var n := |registers| - 1;
      ShotValue(output, registers[..n], shots, i)
      + RegisterValue(output, registers[n], shots, i) * Pow2(TotalWidth(registers[..n]))
  }

  lemma {:induction false} RowExact(output: Json, registers: seq<Register>, shots: nat, i: nat)
    requires ProvidesAll(output, registers, shots) && i < shots
    requires Columns(output, registers, shots).Ok?
    ensures var row := Row(Columns(output, registers, shots).value, i);
      && IsBits(row) && |row| == TotalWidth(registers)
      && Value(row) == ShotValue(output, registers, shots, i)
  {
    hide Value, Pow2, Binary, Columns, Provides, TotalWidth, RegisterColumn, RegisterValue;
    if registers == [] {
      NoRegisters(output, shots, i);
    } else {
      var n := |registers| - 1;
      var front, last := registers[..n], registers[n];
      var columns := Columns(output, registers, shots).value;
      ColumnsFront(output, registers, shots);
      RowExact(output, front, shots, i);
      ColumnsExact(output, registers, shots);
      ColumnExact(output, last, shots);
      RegisterFits(output, last, shots, i);
      BinaryValue(RegisterValue(output, last, shots, i), last.width);
      ValueConcat(columns[n][i], Row(columns[..n], i));
      assert registers == front + [last];
      TotalWidthAppend(front, last);
    }
  }

  lemma NoRegisters(output: Json, shots: nat, i: nat)
    requires i < shots
    ensures Columns(output, [], shots) == Ok([]) && Row([], i) == "" && TotalWidth([]) == 0 && Value("") == 0
  {
  }

  lemma ColumnsFront(output: Json, registers: seq<Register>, shots: nat)
    requires registers != [] && Columns(output, registers, shots).Ok?
    ensures var n := |registers| - 1;
      Columns(output, registers[..n], shots) == Ok(Columns(output, registers, shots).value[..n])
  {
    hide RegisterColumn;
  }

  lemma RegisterFits(output: Json, register: Register, shots: nat, i: nat)
    requires Provides(output, register, shots) && i < shots
    ensures RegisterValue(output, register, shots, i) < Pow2(register.width)
  {
    assert IsSampleOf(output.fields[register.name].fields["samples"].items[i], register.width);
  }

  // ----- the histogram

  lemma {:induction false} LessTransitive(a: string, b: string, c: string)
    requires Less(a, b) && Less(b, c)
    ensures Less(a, c)
    decreases |a|
  {
    if a != "" && a[0] == b[0] == c[0] {
      LessTransitive(a[1..], b[1..], c[1..]);
    }
  }

  lemma {:induction false} LessTotal(a: string, b: string)
    ensures Less(a, b) || a == b || Less(b, a)
    decreases |a|
  {
    if a != "" && b != "" && a[0] == b[0] {
      LessTotal(a[1..], b[1..]);
      if a[1..] == b[1..] {
        assert a == [a[0]] + a[1..] && b == [b[0]] + b[1..];
      }
    }
  }

  lemma {:induction false} LessIrreflexive(a: string)
    ensures !Less(a, a)
  {
    if a != "" {
      LessIrreflexive(a[1..]);
    }
  }

  /** On bit strings of one length the order of strings is that of the values. */
  lemma {:induction false} LessIsBelow(a: string, b: string)
    requires IsBits(a) && IsBits(b) && |a| == |b|
    ensures Less(a, b) <==> Value(a) < Value(b)
    decreases |a|
  {
    if a != "" {
      hide Value, Pow2;
      LessIsBelow(a[1..], b[1..]);
      ValueHead(a);
      ValueHead(b);
    }
  }

  lemma ValueHead(a: string)
    requires a != "" && IsBits(a)
    ensures Value(a) == (if a[0] == '1' then Pow2(|a| - 1) else 0) + Value(a[1..])
    ensures Value(a[1..]) < Pow2(|a| - 1)
  {
    assert a == [a[0]] + a[1..];
    ValueConcat([a[0]], a[1..]);
    ValueBound(a[1..]);
    assert [a[0]][..0] == "";
    assert Value([a[0]]) == Bit(a[0]);
    hide Value, Pow2;
    BitTimes(Value([a[0]]), Pow2(|a| - 1));
  }

  lemma BitTimes(bit: nat, p: nat)
    requires bit <= 1
    ensures bit * p == if bit == 1 then p else 0
  {
  }

  ghost predicate Ascending(histogram: seq<Bin>) {
    && (forall i, j :: 0 <= i < j < |histogram| ==> Less(histogram[i].key, histogram[j].key))
    && (forall i :: 0 <= i < |histogram| ==> histogram[i].count > 0)
  }

  function CountOf(histogram: seq<Bin>, key: string): nat {
    if histogram == [] then 0
    else (if histogram[0].key == key then histogram[0].count else 0) + CountOf(histogram[1..], key)
  }

  function Total(counts: seq<nat>): nat {
    if counts == [] then 0 else counts[0] + Total(counts[1..])
  }

  /** The only new key is this one. */
  ghost predicate KeysKept(histogram: seq<Bin>, key: string, grown: seq<Bin>) {
    forall i :: 0 <= i < |grown| ==>
      grown[i].key == key || exists j :: 0 <= j < |histogram| && histogram[j].key == grown[i].key
  }

  lemma {:induction false} IncrementExact(histogram: seq<Bin>, key: string)
    requires Ascending(histogram)
    ensures Ascending(Increment(histogram, key))
    ensures KeysKept(histogram, key, Increment(histogram, key))
    decreases |histogram|
  {
    if histogram == [] {
    } else if Less(key, histogram[0].key) {
      IncrementFirst(histogram, key);
    } else if key == histogram[0].key {
      IncrementSame(histogram, key);
    } else {
      LessTotal(histogram[0].key, key);
      IncrementExact(histogram[1..], key);
      hide Less;
      IncrementLater(histogram, key);
    }
  }

  lemma IncrementFirst(histogram: seq<Bin>, key: string)
    requires Ascending(histogram) && histogram != [] && Less(key, histogram[0].key)
    ensures Ascending(Increment(histogram, key)) && Increment(histogram, key)[1..] == histogram
  {
    hide Less;
    forall j | 1 <= j < |histogram|
      ensures Less(key, histogram[j].key)
    {
      LessTransitive(key, histogram[0].key, histogram[j].key);
    }
  }

  lemma IncrementSame(histogram: seq<Bin>, key: string)
    requires Ascending(histogram) && histogram != [] && key == histogram[0].key && !Less(key, key)
    ensures Ascending(Increment(histogram, key)) && Increment(histogram, key)[1..] == histogram[1..]
  {
    hide Less;
  }

  /** The first bin stays where it is while a later one grows. */
  lemma IncrementLater(histogram: seq<Bin>, key: string)
    requires Ascending(histogram) && histogram != [] && Less(histogram[0].key, key)
    requires !Less(key, histogram[0].key) && key != histogram[0].key
    requires Ascending(Increment(histogram[1..], key)) && KeysKept(histogram[1..], key, Increment(histogram[1..], key))
    ensures Ascending(Increment(histogram, key))
    ensures KeysKept(histogram, key, Increment(histogram, key))
  {
    var first, later := histogram[0], Increment(histogram[1..], key);
    assert Increment(histogram, key) == [first] + later;
    hide Less, Increment;
    forall i | 0 <= i < |later|
      ensures Less(first.key, later[i].key)
    {
      if later[i].key != key {
        var j :| 0 <= j < |histogram| - 1 && histogram[1..][j].key == later[i].key;
        assert histogram[j + 1].key == later[i].key;
      }
    }
    AscendingFrom(first, later);
    KeptLater(histogram, key, later);
  }

  lemma AscendingFrom(first: Bin, later: seq<Bin>)
    requires Ascending(later) && first.count > 0 && forall i :: 0 <= i < |later| ==> Less(first.key, later[i].key)
    ensures Ascending([first] + later)
  {
    hide Less;
  }

  lemma KeptLater(histogram: seq<Bin>, key: string, later: seq<Bin>)
    requires histogram != [] && KeysKept(histogram[1..], key, later)
    ensures KeysKept(histogram, key, [histogram[0]] + later)
  {
    var grown := [histogram[0]] + later;
    forall i | 0 <= i < |grown| && grown[i].key != key
      ensures exists j :: 0 <= j < |histogram| && histogram[j].key == grown[i].key
    {
      if i > 0 {
        assert grown[i] == later[i - 1];
        var j :| 0 <= j < |histogram| - 1 && histogram[1..][j].key == later[i - 1].key;
        assert histogram[j + 1].key == grown[i].key;
      }
    }
  }

  lemma {:induction false} IncrementCounts(histogram: seq<Bin>, key: string, other: string)
    ensures CountOf(Increment(histogram, key), other) == CountOf(histogram, other) + (if other == key then 1 else 0)
    ensures Total(Counts(Increment(histogram, key))) == Total(Counts(histogram)) + 1
    decreases |histogram|
  {
    var after := Increment(histogram, key);
    if histogram == [] || Less(key, histogram[0].key) {
      assert after[1..] == histogram;
      TotalStep(after);
    } else if key == histogram[0].key {
      assert after[1..] == histogram[1..];
      TotalStep(after);
      TotalStep(histogram);
    } else {
      IncrementCounts(histogram[1..], key, other);
      assert after[1..] == Increment(histogram[1..], key);
      TotalStep(after);
      TotalStep(histogram);
    }
  }

  lemma TotalStep(histogram: seq<Bin>)
    requires histogram != []
    ensures Total(Counts(histogram)) == histogram[0].count + Total(Counts(histogram[1..]))
  {
    assert Counts(histogram)[1..] == Counts(histogram[1..]);
  }

  lemma {:induction false} HistogramExact(samples: seq<string>)
    ensures Ascending(Histogram(samples))
    ensures forall key :: CountOf(Histogram(samples), key) == multiset(samples)[key]
    ensures Total(Counts(Histogram(samples))) == |samples|
  {
    if samples != [] {
      var n := |samples| - 1;
      HistogramExact(samples[..n]);
      IncrementExact(Histogram(samples[..n]), samples[n]);
      IncrementCounts(Histogram(samples[..n]), samples[n], samples[n]);
      assert samples == samples[..n] + [samples[n]];
      forall key
        ensures CountOf(Histogram(samples), key) == multiset(samples)[key]
      {
        IncrementCounts(Histogram(samples[..n]), samples[n], key);
      }
    }
  }

  /** In an ascending histogram every bin holds the whole count of its key. */
  lemma {:induction false} BinCount(histogram: seq<Bin>, i: nat)
    requires Ascending(histogram) && i < |histogram|
    ensures CountOf(histogram, histogram[i].key) == histogram[i].count
    decreases |histogram|
  {
    if i == 0 {
      CountAbsent(histogram[1..], histogram[0].key);
    } else {
      LessIrreflexive(histogram[0].key);
      BinCount(histogram[1..], i - 1);
    }
  }

  lemma {:induction false} CountAbsent(histogram: seq<Bin>, key: string)
    requires forall i :: 0 <= i < |histogram| ==> Less(key, histogram[i].key)
    ensures CountOf(histogram, key) == 0
  {
    if histogram != [] {
      LessIrreflexive(key);
      CountAbsent(histogram[1..], key);
    }
  }

  lemma {:induction false} CountPresent(histogram: seq<Bin>, key: string)
    requires CountOf(histogram, key) > 0
    ensures key in Keys(histogram)
  {
    if histogram[0].key == key {
      assert Keys(histogram)[0] == key;
    } else {
      CountPresent(histogram[1..], key);
      var i :| 0 <= i < |histogram[1..]| && Keys(histogram[1..])[i] == key;
      assert Keys(histogram)[i + 1] == key;
    }
  }

  // ----- comma-separated lists can be split again

  function LastComma(text: string): (i: Option<nat>)
    ensures i.Some? ==> i.value < |text| && text[i.value] == ','
  {
    if text == "" then None
    else if text[|text| - 1] == ',' then Some(|text| - 1)
    else LastComma(text[..|text| - 1])
  }

  /** The parts of a text between its commas. */
  function Split(text: string): seq<string> {
    match LastComma(text)
    case None => [text]
    case Some(i) => Split(text[..i]) + [text[i + 1..]]
  }

  lemma {:induction false} LastCommaIs(front: string, last: string)
    requires ',' !in last
    ensures LastComma(last) == None
    ensures LastComma(front + "," + last) == Some(|front|)
  {
    var text := front + "," + last;
    if last != "" {
      var n := |last| - 1;
      assert text[..|text| - 1] == front + "," + last[..n];
      LastCommaIs(front, last[..n]);
    }
  }

  ghost predicate Listable(values: seq<string>) {
    forall i :: 0 <= i < |values| ==> values[i] != "" && ',' !in values[i]
  }

  lemma {:induction false} JoinNonempty(values: seq<string>)
    requires Listable(values)
    ensures Join(values) == "" <==> values == []
  {
    if values != [] {
      JoinNonempty(values[..|values| - 1]);
    }
  }

  lemma {:induction false} SplitJoin(values: seq<string>)
    requires values != [] && Listable(values)
    ensures Split(Join(values)) == values
  {
    var n := |values| - 1;
    var front, last := values[..n], values[n];
    assert values == front + [last];
    JoinNonempty(front);
    if n > 0 {
      SplitJoin(front);
      LastCommaIs(Join(front), last);
      assert Join(values)[..|Join(front)|] == Join(front);
      assert Join(values)[|Join(front)| + 1..] == last;
    } else {
      LastCommaIs("", last);
    }
  }

  lemma BitsListable(values: seq<string>, width: nat)
    requires width > 0
    requires forall i :: 0 <= i < |values| ==> IsBits(values[i]) && |values[i]| == width
    ensures Listable(values)
  {
  }

  // ----- the theorem

  /** Decoding accepts exactly the outputs that provide every register. */
  lemma DecodedAccepts(data: Json, registers: seq<Register>, shots: nat)
    ensures Decoded(data, registers, shots).Ok? <==>
      && Has(data, "data")
      && data.fields["data"].Obj? && |data.fields["data"].fields| == |registers|
      && ProvidesAll(data.fields["data"], registers, shots)
  {
    if Has(data, "data") {
      ColumnsExact(data.fields["data"], registers, shots);
    }
  }

  /** For layouts with at least one bit: the shots can be split again, each has
      the layout's width and value, and the keys and counts are those of the
      multiset of shots in increasing order of value. */
  lemma DecodedExact(data: Json, registers: seq<Register>, shots: nat)
    requires shots > 0 && TotalWidth(registers) > 0 && Decoded(data, registers, shots).Ok?
    ensures ProvidesAll(data.fields["data"], registers, shots)
    ensures var results := Decoded(data, registers, shots).value;
      var samples, keys := Split(results.shots), Split(results.keys);
      && |samples| == shots
      && (forall i :: 0 <= i < shots ==>
            && IsBits(samples[i]) && |samples[i]| == TotalWidth(registers)
            && Value(samples[i]) == ShotValue(data.fields["data"], registers, shots, i))
      && |keys| == |results.counts|
      && (forall i :: 0 <= i < |keys| ==> keys[i] in samples && results.counts[i] == multiset(samples)[keys[i]])
      && (forall i :: 0 <= i < shots ==> samples[i] in keys)
      && (forall i, j :: 0 <= i < j < |keys| ==> Value(keys[i]) < Value(keys[j]))
      && Total(results.counts) == shots
  {
    var output := data.fields["data"];
    ColumnsExact(output, registers, shots);
    var samples := Samples(data, registers, shots).value;
    forall i | 0 <= i < shots
      ensures IsBits(samples[i]) && |samples[i]| == TotalWidth(registers)
      ensures Value(samples[i]) == ShotValue(output, registers, shots, i)
    {
      RowExact(output, registers, shots, i);
    }
    SummaryExact(samples, TotalWidth(registers));
  }

  lemma SummaryExact(samples: seq<string>, width: nat)
    requires width > 0 && samples != []
    requires forall i :: 0 <= i < |samples| ==> IsBits(samples[i]) && |samples[i]| == width
    ensures var results := Summary(samples);
      var keys := Split(results.keys);
      && Split(results.shots) == samples
      && |keys| == |results.counts|
      && (forall i :: 0 <= i < |keys| ==> keys[i] in samples && results.counts[i] == multiset(samples)[keys[i]])
      && (forall i :: 0 <= i < |samples| ==> samples[i] in keys)
      && (forall i, j :: 0 <= i < j < |keys| ==> Value(keys[i]) < Value(keys[j]))
      && Total(results.counts) == |samples|
  {
    hide Value, IsBits, Histogram, Join, Split, CountOf, Total;
    BitsListable(samples, width);
    SplitJoin(samples);
    HistogramExact(samples);
    var histogram := Histogram(samples);
    var keys := Keys(histogram);
    forall i | 0 <= i < |keys|
      ensures keys[i] in samples && histogram[i].count == multiset(samples)[keys[i]]
    {
      BinCount(histogram, i);
    }
    forall i | 0 <= i < |samples|
      ensures samples[i] in keys
    {
      assert samples[i] in multiset(samples);
      CountPresent(histogram, samples[i]);
    }
    KeysListed(samples, keys, width);
    forall i, j | 0 <= i < j < |keys|
      ensures Value(keys[i]) < Value(keys[j])
    {
      LessIsBelow(keys[i], keys[j]);
    }
  }

  lemma KeysListed(samples: seq<string>, keys: seq<string>, width: nat)
    requires width > 0 && samples != []
    requires forall i :: 0 <= i < |samples| ==> IsBits(samples[i]) && |samples[i]| == width
    requires forall i :: 0 <= i < |samples| ==> samples[i] in keys
    requires forall i :: 0 <= i < |keys| ==> keys[i] in samples
    ensures forall i :: 0 <= i < |keys| ==> IsBits(keys[i]) && |keys[i]| == width
    ensures Split(Join(keys)) == keys
  {
    assert samples[0] in keys;
    hide Join, Split, IsBits;
    BitsListable(keys, width);
    SplitJoin(keys);
  }
}
