/** The nested loops of parseMetadata (src/Metadata.cpp), which grow the table in
    place and then erase from it; together they compute Metadata.Parsed. */
module MetadataLoops {
  import opened Common
  import opened JsonModel
  import opened Metadata
  import opened MetadataSound

  method ReadTuple(values: Json, count: nat) returns (r: Result<Sites>)
    ensures r == Tuple(values, count)
  {
    if !values.Arr? || values.items == [] {
      return Err(Fatal);
    }
    var items := values.items;
    var sites: Sites := [];
    for i := 0 to |items|
      invariant TupleFrom([], items, count) == TupleFrom(sites, items[i..], count)
    {
      assert items[i..][1..] == items[i + 1..];
      var site :- Index(items[i]);
      if site >= count || site in sites {
        return Err(Fatal);
      }
      sites := sites + [site];
    }
    return Ok(sites);
  }

  method ReadCoupling(items: seq<Json>, count: nat) returns (r: Result<seq<Sites>>)
    ensures r == CouplingFrom([], items, count)
  {
    hide Tuple;
    var coupling: seq<Sites> := [];
    for i := 0 to |items|
      invariant CouplingFrom([], items, count) == CouplingFrom(coupling, items[i..], count)
    {
      assert items[i..][1..] == items[i + 1..];
      var pair := ReadTuple(items[i], count);
      if pair.Err? || |pair.value| != 2 {
        TupleFatal(items[i], count);
        return Err(Fatal);
      }
      if pair.value !in coupling {
        coupling := coupling + [pair.value];
      }
    }
    return Ok(coupling);
  }

  lemma {:induction false} TupleFromFatal(sites: Sites, values: seq<Json>, count: nat)
    ensures TupleFrom(sites, values, count).Err? ==> TupleFrom(sites, values, count) == Err(Fatal)
    decreases |values|
  {
    if values != [] && Index(values[0]).Ok? {
      TupleFromFatal(sites + [Index(values[0]).value], values[1..], count);
    }
  }

  lemma TupleFatal(j: Json, count: nat)
    ensures Tuple(j, count).Err? ==> Tuple(j, count) == Err(Fatal)
  {
    if j.Arr? {
      TupleFromFatal([], j.items, count);
    }
  }

  method AddTupleList(operation: Operation, entries: seq<Json>, count: nat) returns (r: Result<Operation>)
    ensures r == AddTuples(operation, entries, count)
  {
    hide Tuple;
    var current := operation;
    for i := 0 to |entries|
      invariant AddTuples(operation, entries, count) == AddTuples(current, entries[i..], count)
    {
      assert entries[i..][1..] == entries[i + 1..];
      var sites := ReadTuple(entries[i], count);
      if sites.Err? {
        return Err(sites.error);
      }
      current :- AddSites(current, sites.value);
    }
    return Ok(current);
  }

  method DefineOperation(name: string, gates: seq<Json>, count: nat) returns (r: Result<Operation>)
    ensures r == DefineFrom(Unsupported(name), false, gates, count)
  {
    hide Define, GoodOperation;
    var operation := Unsupported(name);
    UnsupportedGood(name, count);
    var defined := false;
    for i := 0 to |gates|
      invariant operation.name == name && GoodOperation(operation, count)
      invariant DefineFrom(Unsupported(name), false, gates, count) == DefineFrom(operation, defined, gates[i..], count)
    {
      assert gates[i..][1..] == gates[i + 1..];
      var named :- At(gates[i], "name");
      if named != Str(name) {
        continue;
      }
      var defining := DefineGate(operation, defined, gates[i], count);
      if defining.Err? {
        return defining;
      }
      DefineGood(operation, gates[i], count);
      operation := defining.value;
      defined := true;
    }
    return Ok(operation);
  }

  /** One gate that names the operation. */
  method DefineGate(operation: Operation, defined: bool, gate: Json, count: nat) returns (r: Result<Operation>)
    ensures r == if defined then Err(Fatal) else Define(operation, gate, count)
  {
    hide AddTuples;
    if defined {
      return Err(Fatal);
    }
    var list :- At(gate, "parameters");
    var parameters :- Items(list);
    for p := 0 to |parameters|
      invariant forall q :: 0 <= q < p ==> parameters[q].Str?
    {
      if !parameters[p].Str? {
        return Err(Fatal);
      }
    }
    var named := operation.(parameters := Some(|parameters|));
    if !IsPresent(gate, "coupling_map") {
      return Ok(named);
    }
    var entries :- Items(gate.fields["coupling_map"]);
    r := AddTupleList(named, entries, count);
  }

  /** names holds the operations' names throughout. */
  method ReadBasis(basis: seq<Json>, gates: seq<Json>, count: nat) returns (r: Result<seq<Operation>>, names: set<string>)
    ensures r == BasisFrom([], basis, gates, count)
    ensures r.Ok? ==> names == OperationNames(r.value)
  {
    hide DefineFrom, GoodOperation;
    var operations: seq<Operation> := [];
    names := {};
    for i := 0 to |basis|
      invariant names == OperationNames(operations)
      invariant BasisFrom([], basis, gates, count) == BasisFrom(operations, basis[i..], gates, count)
    {
      assert basis[i..][1..] == basis[i + 1..];
      var name := Text(basis[i]);
      if name.Err? || name.value == "" || name.value in names {
        return Err(Fatal), names;
      }
      var operation := DefineOperation(name.value, gates, count);
      if operation.Err? {
        return Err(operation.error), names;
      }
      UnsupportedGood(name.value, count);
      DefineFromGood(Unsupported(name.value), false, gates, count);
      NamesAppend(operations, operation.value);
      names := names + {name.value};
      operations := operations + [operation.value];
    }
    return Ok(operations), names;
  }

  method ReadInstructions(start: seq<Operation>, known: set<string>, items: seq<Json>, count: nat) returns (r: Result<seq<Operation>>)
    requires known == OperationNames(start)
    ensures r == InstructionsFrom(start, items, count)
  {
    var operations, names := start, known;
    for i := 0 to |items|
      invariant names == OperationNames(operations)
      invariant InstructionsFrom(start, items, count) == InstructionsFrom(operations, items[i..], count)
    {
      hide Singles;
      assert items[i..][1..] == items[i + 1..];
      var name :- Text(items[i]);
      if (name != "measure" && name != "reset" && name != "if_else") || name in names {
        continue;
      }
      names := names + {name};
      var operation := Unsupported(name);
      if name != "if_else" {
        var singles := ReadSingles(count);
        operation := Operation(name, Some(1), Some(0), singles, map[]);
      }
      assert operation == Instruction(name, count);
      NamesAppend(operations, operation);
      operations := operations + [operation];
    }
    return Ok(operations);
  }

  method ReadSingles(count: nat) returns (sites: seq<Sites>)
    ensures sites == Singles(count)
  {
    sites := [];
    for i := 0 to count
      invariant |sites| == i && forall j :: 0 <= j < i ==> sites[j] == [j]
    {
      sites := sites + [[i]];
    }
  }

  // ----- properties

  /** The parameters of one qubit. */
  method ReadQubitParameters(units: Units, site: Site, qubit: Json) returns (r: Result<Reading>)
    ensures r == ReadQubit(units, site, qubit)
  {
    hide Operational;
    var parameters :- Items(qubit);
    var start := Reading(site, false, BLANK);
    var current, faulty, readout := site, false, BLANK;
    for i := 0 to |parameters|
      invariant ReadParameters(units, start, parameters) == ReadParameters(units, Reading(current, faulty, readout), parameters[i..])
    {
      assert parameters[i..][1..] == parameters[i + 1..];
      var parameter := parameters[i];
      var name :- TextAt(parameter, "name");
      if name == "T1" {
        current := current.(t1 := units.duration(parameter));
      } else if name == "T2" {
        current := current.(t2 := units.duration(parameter));
      } else if name == "operational" {
        var works :- Operational(parameter);
        if !works {
          faulty := true;
        }
      } else if name == "readout_length" {
        readout := readout.(duration := units.duration(parameter));
      } else if name == "readout_error" {
        var value := units.fidelity(parameter);
        if value.Some? {
          readout := readout.(fidelity := value);
        }
      }
    }
    return Ok(Reading(current, faulty, readout));
  }

  method SurveyQubits(units: Units, start: Survey, qubits: seq<Json>) returns (r: Result<Survey>)
    requires |qubits| <= |start.sites|
    ensures r == SurveyFrom(units, start, qubits, 0)
  {
    hide ReadQubit;
    var sites, operations := start.sites, start.operations;
    var faulty: set<nat>, readouts: set<Sites> := start.faulty, start.readouts;
    for i := 0 to |qubits|
      invariant |sites| == |start.sites|
      invariant SurveyFrom(units, start, qubits, 0) == SurveyFrom(units, Survey(sites, operations, faulty, readouts), qubits[i..], i)
    {
      assert qubits[i..][1..] == qubits[i + 1..];
      var reading := ReadQubitParameters(units, sites[i], qubits[i]);
      if reading.Err? {
        return Err(reading.error);
      }
      ghost var before := Survey(sites, operations, faulty, readouts);
      sites := sites[i := reading.value.site];
      if reading.value.faulty {
        faulty := faulty + {i};
      }
      var readout := reading.value.readout;
      var measurement := Find(operations, "measure");
      if measurement.Some? && (readout.duration.Some? || readout.fidelity.Some?) {
        var measure := operations[measurement.value];
        operations := operations[measurement.value := measure.(calibrations := measure.calibrations[[i] := readout])];
        readouts := readouts + {[i]};
      }
      assert Survey(sites, operations, faulty, readouts) == Record(before, i, reading.value);
    }
    return Ok(Survey(sites, operations, faulty, readouts));
  }

  method ReadGateEntry(units: Units, gate: Json, count: nat) returns (r: Result<GateEntry>)
    ensures r == ReadGate(units, gate, count)
  {
    hide Tuple, Operational;
    var qubits :- At(gate, "qubits");
    var sites := ReadTuple(qubits, count);
    if sites.Err? {
      return Err(sites.error);
    }
    var list :- At(gate, "parameters");
    var parameters :- Items(list);
    var calibration := BLANK;
    for i := 0 to |parameters|
      invariant CalibrationFrom(units, BLANK, parameters) == CalibrationFrom(units, calibration, parameters[i..])
    {
      assert parameters[i..][1..] == parameters[i + 1..];
      var parameter := parameters[i];
      var name :- TextAt(parameter, "name");
      if name == "operational" {
        var works :- Operational(parameter);
        calibration := calibration.(operational := works);
      } else if name == "gate_length" {
        calibration := calibration.(duration := units.duration(parameter));
      } else if name == "gate_error" {
        var value := units.fidelity(parameter);
        if value.Some? {
          calibration := calibration.(fidelity := value);
        }
      }
    }
    return Ok(GateEntry(sites.value, calibration));
  }

  method CollectGates(units: Units, start: Collection, configured: set<string>, gates: seq<Json>, count: nat) returns (r: Result<Collection>)
    ensures r == CollectFrom(units, start, configured, gates, count)
  {
    hide ReadGate, AddEntry;
    var operations, readouts := start.operations, start.readouts;
    for i := 0 to |gates|
      invariant CollectFrom(units, start, configured, gates, count) ==
                CollectFrom(units, Collection(operations, readouts), configured, gates[i..], count)
    {
      assert gates[i..][1..] == gates[i + 1..];
      var name :- TextAt(gates[i], "gate");
      var found := Find(operations, name);
      if found == None {
        continue;
      }
      var k := found.value;
      var entry := ReadGateEntry(units, gates[i], count);
      if entry.Err? {
        return Err(entry.error);
      }
      var operation;
      operation, readouts := Calibrated(operations[k], entry.value, name in configured, readouts);
      if operation.Err? {
        return Err(operation.error);
      }
      operations := operations[k := operation.value];
    }
    return Ok(Collection(operations, readouts));
  }

  /** Adds an entry to its operation; a readout that it repeats is marked. */
  method Calibrated(operation: Operation, entry: GateEntry, configured: bool, readouts: set<Sites>)
    returns (r: Result<Operation>, left: set<Sites>)
    ensures r == AddEntry(operation, entry, configured, readouts)
    ensures left == readouts - if r.Ok? && entry.sites in operation.calibrations then {entry.sites} else {}
  {
    left := readouts;
    if configured && entry.sites !in operation.sites {
      return Err(Fatal), left;
    }
    var added := AddSites(operation, entry.sites);
    if added.Err? {
      return Err(Fatal), left;
    }
    if entry.sites !in operation.calibrations {
      return Ok(added.value.(calibrations := operation.calibrations[entry.sites := entry.calibration])), left;
    }
    if operation.name != "measure" || entry.sites !in readouts {
      return Err(Fatal), left;
    }
    left := readouts - {entry.sites};
    var existing := operation.calibrations[entry.sites];
    existing := existing.(operational := existing.operational && entry.calibration.operational);
    if existing.duration == None {
      existing := existing.(duration := entry.calibration.duration);
    }
    if existing.fidelity == None {
      existing := existing.(fidelity := entry.calibration.fidelity);
    }
    return Ok(added.value.(calibrations := operation.calibrations[entry.sites := existing])), left;
  }

  // ----- faults

  /** Erases the broken tuples, then the calibrations without a tuple. */
  method EraseFaults(operations: seq<Operation>, faulty: set<nat>) returns (r: seq<Operation>)
    ensures r == AllWithoutFaults(operations, faulty)
  {
    r := [];
    for i := 0 to |operations|
      invariant |r| == i && forall k :: 0 <= k < i ==> r[k] == WithoutFaults(operations[k], faulty)
    {
      var operation := operations[i];
      var sites: seq<Sites> := [];
      for j := 0 to |operation.sites|
        invariant Working(operation, faulty, operation.sites) == sites + Working(operation, faulty, operation.sites[j..])
      {
        hide Faulty;
        assert operation.sites[j..][1..] == operation.sites[j + 1..];
        if !Faulty(operation, faulty, operation.sites[j]) {
          sites := sites + [operation.sites[j]];
        }
      }
      r := r + [operation.(sites := sites, calibrations := map t | t in operation.calibrations && t in sites :: operation.calibrations[t])];
    }
  }

  // ----- the whole table

  method ReadSites(count: nat) returns (sites: seq<Site>)
    ensures sites == BlankSites(count)
  {
    sites := [];
    for i := 0 to count
      invariant |sites| == i && forall j :: 0 <= j < i ==> sites[j] == Site(j, None, None)
    {
      sites := sites + [Site(i, None, None)];
    }
  }

  method ParseMetadata(units: Units, configuration: Json, properties: Json) returns (r: Result<Metadata>)
    ensures r == Parsed(units, configuration, properties)
    ensures r.Ok? ==> GoodTable(r.value)
  {
    hide CouplingFrom, ConfiguredOperations, Surveyed, Collected, AllWithoutFaults, GoodTable;
    assert Parsed(units, configuration, properties).Ok? ==> GoodTable(Parsed(units, configuration, properties).value) by {
      if Parsed(units, configuration, properties).Ok? {
        ParsedGood(units, configuration, properties);
      }
    }
    var name :- TextAt(configuration, "backend_name");
    var version :- TextAt(configuration, "backend_version");
    var qubitCount :- At(configuration, "n_qubits");
    var count :- Index(qubitCount);
    if name == "" || version == "" || count == 0 {
      return Err(Fatal);
    }
    var couplingMap :- At(configuration, "coupling_map");
    var pairs :- Items(couplingMap);
    var coupling := ReadCoupling(pairs, count);
    if coupling.Err? {
      return Err(coupling.error);
    }
    if !properties.Obj? {
      return Err(Fatal);
    }
    var operations := ReadOperations(configuration, count);
    if operations.Err? {
      return Err(operations.error);
    }
    var survey := ReadProperties(units, operations.value, properties, count);
    if survey.Err? {
      return Err(survey.error);
    }
    var collection := ReadCalibrations(units, survey.value, properties, count);
    if collection.Err? {
      return Err(collection.error);
    }
    var supported := EraseFaults(collection.value.operations, survey.value.faulty);
    return Ok(Metadata(name, version, survey.value.sites, supported, coupling.value));
  }

  method ReadProperties(units: Units, operations: seq<Operation>, properties: Json, count: nat) returns (r: Result<Survey>)
    ensures r == Surveyed(units, operations, properties, count)
  {
    var sites := ReadSites(count);
    var survey := Survey(sites, operations, {}, {});
    if !IsPresent(properties, "qubits") {
      return Ok(survey);
    }
    var qubits :- Items(properties.fields["qubits"]);
    if |qubits| > count {
      return Err(Fatal);
    }
    r := SurveyQubits(units, survey, qubits);
  }

  method ReadCalibrations(units: Units, survey: Survey, properties: Json, count: nat) returns (r: Result<Collection>)
    ensures r == Collected(units, survey, properties, count)
  {
    var start := Collection(survey.operations, survey.readouts);
    if !IsPresent(properties, "gates") {
      return Ok(start);
    }
    var gates :- Items(properties.fields["gates"]);
    r := CollectGates(units, start, ConfiguredNames(survey.operations), gates, count);
  }

  method ReadOperations(configuration: Json, count: nat) returns (r: Result<seq<Operation>>)
    ensures r == ConfiguredOperations(configuration, count)
  {
    hide BasisFrom, InstructionsFrom;
    var basisList :- At(configuration, "basis_gates");
    var gateList :- At(configuration, "gates");
    var basis :- Items(basisList);
    var gates :- Items(gateList);
    if basis == [] {
      return Err(Fatal);
    }
    var names;
    r, names := ReadBasis(basis, gates, count);
    if r.Err? || !Has(configuration, "supported_instructions") {
      return;
    }
    var instructions :- Items(configuration.fields["supported_instructions"]);
    r := ReadInstructions(r.value, names, instructions, count);
  }
}
