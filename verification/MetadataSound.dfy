/** Every table the normaliser returns is well formed: distinct operation names,
    in-range coupling pairs of distinct sites with no repeats, and per operation
    distinct site tuples of one arity, with calibrations for those tuples only. */
module MetadataSound {
  import opened Common
  import opened JsonModel
  import opened Metadata

  ghost predicate GoodTuple(t: Sites, count: nat) {
    t != [] && Distinct(t) && forall i :: 0 <= i < |t| ==> t[i] < count
  }

  ghost predicate GoodPairs(coupling: seq<Sites>, count: nat) {
    Distinct(coupling) && forall i :: 0 <= i < |coupling| ==> |coupling[i]| == 2 && GoodTuple(coupling[i], count)
  }

  ghost predicate GoodOperation(operation: Operation, count: nat) {
    && Distinct(operation.sites)
    && forall k :: 0 <= k < |operation.sites| ==>
         GoodTuple(operation.sites[k], count) && operation.arity == Some(|operation.sites[k]|)
  }

  ghost predicate DistinctNames(operations: seq<Operation>) {
    forall i, j :: 0 <= i < j < |operations| ==> operations[i].name != operations[j].name
  }

  ghost predicate GoodOperations(operations: seq<Operation>, count: nat) {
    DistinctNames(operations) && forall k :: 0 <= k < |operations| ==> GoodOperation(operations[k], count)
  }

  ghost predicate GoodTable(m: Metadata) {
    var count := |m.sites|;
    && m.name != "" && m.version != "" && count > 0
    && (forall i :: 0 <= i < count ==> m.sites[i].index == i)
    && GoodPairs(m.coupling, count)
    && GoodOperations(m.operations, count)
    && forall k :: 0 <= k < |m.operations| ==> forall t :: t in m.operations[k].calibrations ==> t in m.operations[k].sites
  }

  // ----- tuples

  lemma {:induction false} TupleFromGood(sites: Sites, values: seq<Json>, count: nat)
    requires TupleFrom(sites, values, count).Ok? && Distinct(sites) && forall i :: 0 <= i < |sites| ==> sites[i] < count
    ensures var t := TupleFrom(sites, values, count).value;
      Distinct(t) && |t| == |sites| + |values| && forall i :: 0 <= i < |t| ==> t[i] < count
    decreases |values|
  {
    if values != [] {
      TupleFromGood(sites + [Index(values[0]).value], values[1..], count);
    }
  }

  lemma TupleGood(j: Json, count: nat)
    requires Tuple(j, count).Ok?
    ensures GoodTuple(Tuple(j, count).value, count)
  {
    TupleFromGood([], j.items, count);
  }

  lemma {:induction false} CouplingGood(coupling: seq<Sites>, items: seq<Json>, count: nat)
    requires CouplingFrom(coupling, items, count).Ok? && GoodPairs(coupling, count)
    ensures GoodPairs(CouplingFrom(coupling, items, count).value, count)
    decreases |items|
  {
    hide GoodTuple, Tuple;
    if items != [] {
      TupleGood(items[0], count);
      var pair := Tuple(items[0], count).value;
      CouplingGood(if pair in coupling then coupling else coupling + [pair], items[1..], count);
    }
  }

  lemma AddSitesGood(operation: Operation, t: Sites, count: nat)
    requires GoodOperation(operation, count) && GoodTuple(t, count) && AddSites(operation, t).Ok?
    ensures GoodOperation(AddSites(operation, t).value, count)
  {
    hide GoodTuple;
  }

  lemma {:induction false} AddTuplesGood(operation: Operation, entries: seq<Json>, count: nat)
    requires GoodOperation(operation, count) && AddTuples(operation, entries, count).Ok?
    ensures GoodOperation(AddTuples(operation, entries, count).value, count)
    ensures var r := AddTuples(operation, entries, count).value;
      r.name == operation.name && r.parameters == operation.parameters && r.calibrations == operation.calibrations
    decreases |entries|
  {
    hide GoodOperation, Tuple;
    if entries != [] {
      TupleGood(entries[0], count);
      AddSitesGood(operation, Tuple(entries[0], count).value, count);
      AddTuplesGood(AddSites(operation, Tuple(entries[0], count).value).value, entries[1..], count);
    }
  }

  // ----- operations

  lemma DefineGood(operation: Operation, gate: Json, count: nat)
    requires GoodOperation(operation, count) && Define(operation, gate, count).Ok?
    ensures var r := Define(operation, gate, count).value;
      GoodOperation(r, count) && r.name == operation.name && r.calibrations == operation.calibrations
  {
    hide AddTuples;
    var named := operation.(parameters := Some(|gate.fields["parameters"].items|));
    assert GoodOperation(named, count);
    hide GoodOperation;
    if IsPresent(gate, "coupling_map") {
      AddTuplesGood(named, gate.fields["coupling_map"].items, count);
    }
  }

  lemma {:induction false} DefineFromGood(operation: Operation, defined: bool, gates: seq<Json>, count: nat)
    requires GoodOperation(operation, count) && DefineFrom(operation, defined, gates, count).Ok?
    ensures var r := DefineFrom(operation, defined, gates, count).value;
      GoodOperation(r, count) && r.name == operation.name && r.calibrations == operation.calibrations
    decreases |gates|
  {
    hide GoodOperation, Define;
    if gates != [] {
      if At(gates[0], "name").value == Str(operation.name) {
        DefineGood(operation, gates[0], count);
        DefineFromGood(Define(operation, gates[0], count).value, true, gates[1..], count);
      } else {
        DefineFromGood(operation, defined, gates[1..], count);
      }
    }
  }

  lemma AppendGood(operations: seq<Operation>, operation: Operation, count: nat)
    requires GoodOperations(operations, count) && GoodOperation(operation, count)
    requires operation.name !in OperationNames(operations)
    ensures GoodOperations(operations + [operation], count)
  {
    hide GoodOperation;
    assert forall k :: 0 <= k < |operations| ==> operations[k].name in OperationNames(operations);
  }

  lemma {:induction false} BasisGood(operations: seq<Operation>, basis: seq<Json>, gates: seq<Json>, count: nat)
    requires GoodOperations(operations, count) && BasisFrom(operations, basis, gates, count).Ok?
    ensures GoodOperations(BasisFrom(operations, basis, gates, count).value, count)
    decreases |basis|
  {
    hide GoodOperations, GoodOperation, DefineFrom, OperationNames;
    if basis != [] {
      var name := basis[0].s;
      UnsupportedGood(name, count);
      DefineFromGood(Unsupported(name), false, gates, count);
      var operation := DefineFrom(Unsupported(name), false, gates, count).value;
      AppendGood(operations, operation, count);
      BasisGood(operations + [operation], basis[1..], gates, count);
    }
  }

  lemma UnsupportedGood(name: string, count: nat)
    ensures GoodOperation(Unsupported(name), count)
  {
  }

  lemma InstructionGood(name: string, count: nat)
    ensures GoodOperation(Instruction(name, count), count)
  {
    var sites := Singles(count);
    assert forall i :: 0 <= i < count ==> sites[i] == [i];
    assert forall i, j :: 0 <= i < j < count ==> sites[i][0] != sites[j][0];
  }

  lemma {:induction false} InstructionsGood(operations: seq<Operation>, items: seq<Json>, count: nat)
    requires GoodOperations(operations, count) && InstructionsFrom(operations, items, count).Ok?
    ensures GoodOperations(InstructionsFrom(operations, items, count).value, count)
    decreases |items|
  {
    hide GoodOperations, GoodOperation, OperationNames;
    if items != [] {
      var name := items[0].s;
      if name !in {"measure", "reset", "if_else"} || name in OperationNames(operations) {
        InstructionsGood(operations, items[1..], count);
      } else {
        InstructionGood(name, count);
        AppendGood(operations, Instruction(name, count), count);
        InstructionsGood(operations + [Instruction(name, count)], items[1..], count);
      }
    }
  }

  lemma ConfiguredGood(configuration: Json, count: nat)
    requires ConfiguredOperations(configuration, count).Ok?
    ensures GoodOperations(ConfiguredOperations(configuration, count).value, count)
  {
    hide GoodOperations, BasisFrom, InstructionsFrom;
    var basis, gates := configuration.fields["basis_gates"].items, configuration.fields["gates"].items;
    NoOperationsGood(count);
    BasisGood([], basis, gates, count);
    var operations := BasisFrom([], basis, gates, count).value;
    if Has(configuration, "supported_instructions") {
      InstructionsGood(operations, configuration.fields["supported_instructions"].items, count);
    }
  }

  lemma NoOperationsGood(count: nat)
    ensures GoodOperations([], count)
  {
  }

  // ----- properties

  /** The same operations but for their calibrations. */
  ghost predicate SameButCalibrations(a: seq<Operation>, b: seq<Operation>) {
    |a| == |b| && forall k :: 0 <= k < |a| ==> b[k] == a[k].(calibrations := b[k].calibrations)
  }

  lemma SameButCalibrationsGood(a: seq<Operation>, b: seq<Operation>, count: nat)
    requires SameButCalibrations(a, b) && GoodOperations(a, count)
    ensures GoodOperations(b, count)
  {
    hide GoodTuple;
    assert forall k :: 0 <= k < |a| ==> GoodOperation(a[k], count) ==> GoodOperation(b[k], count);
    hide GoodOperation;
    assert forall k :: 0 <= k < |a| ==> b[k].name == a[k].name;
  }

  ghost predicate SameSites(a: seq<Site>, b: seq<Site>) {
    |a| == |b| && forall i :: 0 <= i < |a| ==> b[i].index == a[i].index
  }

  lemma {:induction false} ReadParametersSite(units: Units, reading: Reading, parameters: seq<Json>)
    requires ReadParameters(units, reading, parameters).Ok?
    ensures ReadParameters(units, reading, parameters).value.site.index == reading.site.index
    decreases |parameters|
  {
    if parameters != [] {
      ReadParametersSite(units, ReadParameter(units, reading, parameters[0]).value, parameters[1..]);
    }
  }

  lemma {:induction false} SurveySame(units: Units, survey: Survey, qubits: seq<Json>, i: nat)
    requires i + |qubits| <= |survey.sites| && SurveyFrom(units, survey, qubits, i).Ok?
    ensures var r := SurveyFrom(units, survey, qubits, i).value;
      SameButCalibrations(survey.operations, r.operations) && SameSites(survey.sites, r.sites)
    decreases |qubits|
  {
    hide ReadParameters;
    if qubits != [] {
      var reading := ReadQubit(units, survey.sites[i], qubits[0]).value;
      ReadParametersSite(units, Reading(survey.sites[i], false, BLANK), qubits[0].items);
      var next := Record(survey, i, reading);
      assert SameButCalibrations(survey.operations, next.operations) && SameSites(survey.sites, next.sites);
      SurveySame(units, next, qubits[1..], i + 1);
    }
  }

  lemma AddEntryGood(operation: Operation, entry: GateEntry, configured: bool, readouts: set<Sites>, count: nat)
    requires GoodOperation(operation, count) && GoodTuple(entry.sites, count)
    requires AddEntry(operation, entry, configured, readouts).Ok?
    ensures var r := AddEntry(operation, entry, configured, readouts).value;
      GoodOperation(r, count) && r.name == operation.name
  {
    hide GoodTuple;
    AddSitesGood(operation, entry.sites, count);
  }

  lemma ReplaceGood(operations: seq<Operation>, k: nat, operation: Operation, count: nat)
    requires GoodOperations(operations, count) && k < |operations| && GoodOperation(operation, count)
    requires operation.name == operations[k].name
    ensures GoodOperations(operations[k := operation], count)
  {
    hide GoodOperation;
  }

  lemma {:induction false} CollectGood(units: Units, c: Collection, configured: set<string>, gates: seq<Json>, count: nat)
    requires GoodOperations(c.operations, count) && CollectFrom(units, c, configured, gates, count).Ok?
    ensures GoodOperations(CollectFrom(units, c, configured, gates, count).value.operations, count)
    decreases |gates|
  {
    hide GoodOperations, GoodOperation, Tuple, CalibrationFrom, AddEntry;
    if gates != [] {
      var next := AddGate(units, c, configured, gates[0], count).value;
      var name := TextAt(gates[0], "gate").value;
      match Find(c.operations, name) {
        case None =>
        case Some(k) =>
          var entry := ReadGate(units, gates[0], count).value;
          TupleGood(At(gates[0], "qubits").value, count);
          MemberGood(c.operations, k, count);
          AddEntryGood(c.operations[k], entry, name in configured, c.readouts, count);
          ReplaceGood(c.operations, k, next.operations[k], count);
      }
      CollectGood(units, next, configured, gates[1..], count);
    }
  }

  lemma MemberGood(operations: seq<Operation>, k: nat, count: nat)
    requires GoodOperations(operations, count) && k < |operations|
    ensures GoodOperation(operations[k], count)
  {
  }

  // ----- faults

  lemma {:induction false} WorkingGood(operation: Operation, faulty: set<nat>, sites: seq<Sites>)
    ensures forall t :: t in Working(operation, faulty, sites) <==> t in sites && !Faulty(operation, faulty, t)
    ensures Distinct(sites) ==> Distinct(Working(operation, faulty, sites))
  {
    hide Faulty;
    if sites != [] {
      WorkingGood(operation, faulty, sites[1..]);
      var rest := Working(operation, faulty, sites[1..]);
      assert sites == [sites[0]] + sites[1..];
      if Distinct(sites) {
        assert Distinct(sites[1..]);
        assert sites[0] !in sites[1..];
        assert Distinct([sites[0]] + rest);
      }
    }
  }

  lemma WithoutFaultsGood(operation: Operation, faulty: set<nat>, count: nat)
    requires GoodOperation(operation, count)
    ensures GoodOperation(WithoutFaults(operation, faulty), count)
  {
    hide GoodTuple, Faulty, Working;
    WorkingGood(operation, faulty, operation.sites);
    var r := WithoutFaults(operation, faulty);
    forall k | 0 <= k < |r.sites|
      ensures GoodTuple(r.sites[k], count) && r.arity == Some(|r.sites[k]|)
    {
      assert r.sites[k] in operation.sites;
    }
  }

  lemma AllWithoutFaultsGood(operations: seq<Operation>, faulty: set<nat>, count: nat)
    requires GoodOperations(operations, count)
    ensures var r := AllWithoutFaults(operations, faulty);
      GoodOperations(r, count)
      && forall k :: 0 <= k < |r| ==> forall t :: t in r[k].calibrations ==> t in r[k].sites
  {
    hide GoodOperation, Working;
    forall k | 0 <= k < |operations|
      ensures GoodOperation(WithoutFaults(operations[k], faulty), count)
    {
      WithoutFaultsGood(operations[k], faulty, count);
    }
  }

  /** Every table the normaliser returns is well formed. */
  lemma ParsedGood(units: Units, configuration: Json, properties: Json)
    requires Parsed(units, configuration, properties).Ok?
    ensures GoodTable(Parsed(units, configuration, properties).value)
  {
    hide GoodOperations, GoodPairs, CouplingFrom, ConfiguredOperations, SurveyFrom, CollectFrom, AllWithoutFaults, SameButCalibrations;
    var count := Index(configuration.fields["n_qubits"]).value;
    assert GoodPairs([], count) by { NoPairsGood(count); }
    CouplingGood([], configuration.fields["coupling_map"].items, count);
    ConfiguredGood(configuration, count);
    var operations := ConfiguredOperations(configuration, count).value;
    SurveyedSame(units, operations, properties, count);
    var survey := Surveyed(units, operations, properties, count).value;
    SameButCalibrationsGood(operations, survey.operations, count);
    if IsPresent(properties, "gates") {
      CollectGood(units, Collection(survey.operations, survey.readouts), ConfiguredNames(survey.operations), properties.fields["gates"].items, count);
    }
    AllWithoutFaultsGood(Collected(units, survey, properties, count).value.operations, survey.faulty, count);
  }

  lemma NoPairsGood(count: nat)
    ensures GoodPairs([], count)
  {
  }

  lemma SurveyedSame(units: Units, operations: seq<Operation>, properties: Json, count: nat)
    requires Surveyed(units, operations, properties, count).Ok?
    ensures var survey := Surveyed(units, operations, properties, count).value;
      && SameButCalibrations(operations, survey.operations)
      && |survey.sites| == count && forall i :: 0 <= i < count ==> survey.sites[i].index == i
  {
    if IsPresent(properties, "qubits") {
      SurveySame(units, Survey(BlankSites(count), operations, {}, {}), properties.fields["qubits"].items, 0);
    }
  }
}
