/** The metadata normaliser of src/Metadata.cpp: configuration, qubit properties
    and gate calibrations become one table of supported operations. Every failure
    is fatal. */
module Metadata {
  import opened Common
  import opened JsonModel

  type Sites = seq<nat>

  datatype Calibration = Calibration(duration: Option<nat>, fidelity: Option<real>, operational: bool)

  datatype Site = Site(index: nat, t1: Option<nat>, t2: Option<nat>)

  datatype Operation = Operation(name: string, arity: Option<nat>, parameters: Option<nat>, sites: seq<Sites>,
                                 calibrations: map<Sites, Calibration>)

  datatype Metadata = Metadata(name: string, version: string, sites: seq<Site>, operations: seq<Operation>, coupling: seq<Sites>)

  /** The floating-point conversions of a parameter: a duration in picoseconds and
      a fidelity. Nothing is assumed about them. */
  datatype Units = Units(duration: Json -> Option<nat>, fidelity: Json -> Option<real>)

  // ----- small readers

  function Operational(parameter: Json): Result<bool> {
    var value :- At(parameter, "value");
    if value.Bool? then Ok(value.b)
    else if value == Int(0) || value == Float(0.0) then Ok(false)
    else if value == Int(1) || value == Float(1.0) then Ok(true)
    else Err(Fatal)
  }

  /** The integers whose binary64 value is below 2^64. */
  const INDEX_LIMIT: nat := 0x1_0000_0000_0000_0000 - 1024

  function Index(value: Json): Result<nat> {
    if value.Int? && 0 <= value.n < INDEX_LIMIT then Ok(value.n) else Err(Fatal)
  }

  /** Appends distinct indices below the count. */
  function TupleFrom(sites: Sites, values: seq<Json>, count: nat): Result<Sites>
    decreases |values|
  {
    if values == [] then Ok(sites)
    else
      var site :- Index(values[0]);
      if site >= count || site in sites then Err(Fatal) else TupleFrom(sites + [site], values[1..], count)
  }

  function Tuple(j: Json, count: nat): Result<Sites> {
    if !j.Arr? || j.items == [] then Err(Fatal) else TupleFrom([], j.items, count)
  }

  /** Appends each pair of distinct sites once. */
  function CouplingFrom(coupling: seq<Sites>, items: seq<Json>, count: nat): Result<seq<Sites>>
    decreases |items|
  {
    if items == [] then Ok(coupling)
    else
      var pair :- Tuple(items[0], count);
      if |pair| != 2 then Err(Fatal)
      else CouplingFrom(if pair in coupling then coupling else coupling + [pair], items[1..], count)
  }

  function AddSites(operation: Operation, sites: Sites): Result<Operation> {
    if operation.arity.Some? && operation.arity.value != |sites| then Err(Fatal)
    else
      Ok(operation.(arity := Some(|sites|),
                    sites := if sites in operation.sites then operation.sites else operation.sites + [sites]))
  }

  function AddTuples(operation: Operation, entries: seq<Json>, count: nat): Result<Operation>
    decreases |entries|
  {
    if entries == [] then Ok(operation)
    else
      var sites :- Tuple(entries[0], count);
      var added :- AddSites(operation, sites);
      AddTuples(added, entries[1..], count)
  }

  // ----- operations from the configuration

  predicate Strings(values: seq<Json>) {
    forall i :: 0 <= i < |values| ==> values[i].Str?
  }

  predicate IsPresent(j: Json, key: string) {
    Has(j, key) && j.fields[key] != Null
  }

  /** The gate's own definition of an operation that has none yet. */
  function Define(operation: Operation, gate: Json, count: nat): Result<Operation> {
    var list :- At(gate, "parameters");
    var parameters :- Items(list);
    if !Strings(parameters) then Err(Fatal)
    else
      var named := operation.(parameters := Some(|parameters|));
      if !IsPresent(gate, "coupling_map") then Ok(named)
      else
        var entries :- Items(gate.fields["coupling_map"]);
        AddTuples(named, entries, count)
  }

  /** At most one gate defines the operation. */
  function DefineFrom(operation: Operation, defined: bool, gates: seq<Json>, count: nat): Result<Operation>
    decreases |gates|
  {
    if gates == [] then Ok(operation)
    else
      var name :- At(gates[0], "name");
      if name != Str(operation.name) then DefineFrom(operation, defined, gates[1..], count)
      else if defined then Err(Fatal)
      else
        var next :- Define(operation, gates[0], count);
        DefineFrom(next, true, gates[1..], count)
  }

  function OperationNames(operations: seq<Operation>): set<string> {
    set i | 0 <= i < |operations| :: operations[i].name
  }

  lemma NamesAppend(operations: seq<Operation>, operation: Operation)
    ensures OperationNames(operations + [operation]) == OperationNames(operations) + {operation.name}
  {
    var all := operations + [operation];
    assert forall k :: 0 <= k < |operations| ==> all[k] == operations[k];
    assert all[|operations|] == operation;
    forall name | name in OperationNames(operations) ensures name in OperationNames(all) {
      var k :| 0 <= k < |operations| && operations[k].name == name;
      assert all[k].name == name;
    }
  }

  function Unsupported(name: string): Operation {
    Operation(name, None, None, [], map[])
  }

  function BasisFrom(operations: seq<Operation>, basis: seq<Json>, gates: seq<Json>, count: nat): Result<seq<Operation>>
    decreases |basis|
  {
    if basis == [] then Ok(operations)
    else
      var name :- Text(basis[0]);
      if name == "" || name in OperationNames(operations) then Err(Fatal)
      else
        var operation :- DefineFrom(Unsupported(name), false, gates, count);
        BasisFrom(operations + [operation], basis[1..], gates, count)
  }

  function Singles(count: nat): seq<Sites> {
    seq(count, i requires 0 <= i < count => [i])
  }

  /** Measurement, reset and branching are instructions, not basis gates. */
  function Instruction(name: string, count: nat): Operation {
    if name == "if_else" then Unsupported(name) else Operation(name, Some(1), Some(0), Singles(count), map[])
  }

  function InstructionsFrom(operations: seq<Operation>, items: seq<Json>, count: nat): Result<seq<Operation>>
    decreases |items|
  {
    if items == [] then Ok(operations)
    else
      var name :- Text(items[0]);
      if name !in {"measure", "reset", "if_else"} || name in OperationNames(operations) then
        InstructionsFrom(operations, items[1..], count)
      else InstructionsFrom(operations + [Instruction(name, count)], items[1..], count)
  }

  // ----- qubit properties

  /** What the properties of one qubit say. */
  datatype Reading = Reading(site: Site, faulty: bool, readout: Calibration)

  function ReadParameter(units: Units, reading: Reading, parameter: Json): Result<Reading> {
    var name :- TextAt(parameter, "name");
    if name == "T1" then Ok(reading.(site := reading.site.(t1 := units.duration(parameter))))
    else if name == "T2" then Ok(reading.(site := reading.site.(t2 := units.duration(parameter))))
    else if name == "operational" then
      var works :- Operational(parameter);
      Ok(if works then reading else reading.(faulty := true))
    else if name == "readout_length" then Ok(reading.(readout := reading.readout.(duration := units.duration(parameter))))
    else if name == "readout_error" && units.fidelity(parameter).Some? then
      Ok(reading.(readout := reading.readout.(fidelity := units.fidelity(parameter))))
    else Ok(reading)
  }

  function ReadParameters(units: Units, reading: Reading, parameters: seq<Json>): Result<Reading>
    decreases |parameters|
  {
    if parameters == [] then Ok(reading)
    else
      var next :- ReadParameter(units, reading, parameters[0]);
      ReadParameters(units, next, parameters[1..])
  }

  const BLANK := Calibration(None, None, true)

  function ReadQubit(units: Units, site: Site, qubit: Json): Result<Reading> {
    var parameters :- Items(qubit);
    ReadParameters(units, Reading(site, false, BLANK), parameters)
  }

  /** The table while the properties are read. */
  datatype Survey = Survey(sites: seq<Site>, operations: seq<Operation>, faulty: set<nat>, readouts: set<Sites>)

  function Find(operations: seq<Operation>, name: string): (i: Option<nat>)
    ensures i.Some? ==> i.value < |operations| && operations[i.value].name == name
    ensures i.None? ==> forall k :: 0 <= k < |operations| ==> operations[k].name != name
  {
    if operations == [] then None
    else if operations[0].name == name then Some(0)
    else
      match Find(operations[1..], name)
      case None => None
      case Some(i) => Some(i + 1)
  }

  /** A qubit's readout calibrates the measurement of that qubit. */
  function Record(survey: Survey, i: nat, reading: Reading): Survey
    requires i < |survey.sites|
  {
    var noted := survey.(sites := survey.sites[i := reading.site],
                         faulty := survey.faulty + if reading.faulty then {i} else {});
    match Find(survey.operations, "measure")
    case None => noted
    case Some(k) =>
      if reading.readout.duration.None? && reading.readout.fidelity.None? then noted
      else
        var measure := survey.operations[k];
        noted.(operations := survey.operations[k := measure.(calibrations := measure.calibrations[[i] := reading.readout])],
               readouts := survey.readouts + {[i]})
  }

  function SurveyFrom(units: Units, survey: Survey, qubits: seq<Json>, i: nat): Result<Survey>
    requires i + |qubits| <= |survey.sites|
    decreases |qubits|
  {
    if qubits == [] then Ok(survey)
    else
      var reading :- ReadQubit(units, survey.sites[i], qubits[0]);
      SurveyFrom(units, Record(survey, i, reading), qubits[1..], i + 1)
  }

  // ----- gate calibrations

  function Calibrate(units: Units, calibration: Calibration, parameter: Json): Result<Calibration> {
    var name :- TextAt(parameter, "name");
    if name == "operational" then
      var works :- Operational(parameter);
      Ok(calibration.(operational := works))
    else if name == "gate_length" then Ok(calibration.(duration := units.duration(parameter)))
    else if name == "gate_error" && units.fidelity(parameter).Some? then Ok(calibration.(fidelity := units.fidelity(parameter)))
    else Ok(calibration)
  }

  function CalibrationFrom(units: Units, calibration: Calibration, parameters: seq<Json>): Result<Calibration>
    decreases |parameters|
  {
    if parameters == [] then Ok(calibration)
    else
      var next :- Calibrate(units, calibration, parameters[0]);
      CalibrationFrom(units, next, parameters[1..])
  }

  /** A gate's tuple and calibration. */
  datatype GateEntry = GateEntry(sites: Sites, calibration: Calibration)

  function ReadGate(units: Units, gate: Json, count: nat): Result<GateEntry> {
    var qubits :- At(gate, "qubits");
    var sites :- Tuple(qubits, count);
    var list :- At(gate, "parameters");
    var parameters :- Items(list);
    var calibration :- CalibrationFrom(units, BLANK, parameters);
    Ok(GateEntry(sites, calibration))
  }

  /** Readout values win; a gate's values fill what they leave open. */
  function Merge(readout: Calibration, gate: Calibration): Calibration {
    Calibration(
      if readout.duration.Some? then readout.duration else gate.duration,
      if readout.fidelity.Some? then readout.fidelity else gate.fidelity,
      readout.operational && gate.operational)
  }

  /** An operation's tuple is calibrated once, a measurement's once more by its
      readout. */
  function AddEntry(operation: Operation, entry: GateEntry, configured: bool, readouts: set<Sites>): Result<Operation> {
    if configured && entry.sites !in operation.sites then Err(Fatal)
    else
      var added :- AddSites(operation, entry.sites);
      if entry.sites !in operation.calibrations then
        Ok(added.(calibrations := operation.calibrations[entry.sites := entry.calibration]))
      else if operation.name != "measure" || entry.sites !in readouts then Err(Fatal)
      else
        Ok(added.(calibrations := operation.calibrations[entry.sites := Merge(operation.calibrations[entry.sites], entry.calibration)]))
  }

  /** The operations and the readouts no gate has repeated yet. */
  datatype Collection = Collection(operations: seq<Operation>, readouts: set<Sites>)

  function AddGate(units: Units, c: Collection, configured: set<string>, gate: Json, count: nat): Result<Collection> {
    var name :- TextAt(gate, "gate");
    match Find(c.operations, name)
    case None => Ok(c)
    case Some(k) =>
      var entry :- ReadGate(units, gate, count);
      var operation :- AddEntry(c.operations[k], entry, name in configured, c.readouts);
      var repeated := if entry.sites in c.operations[k].calibrations then {entry.sites} else {};
      Ok(Collection(c.operations[k := operation], c.readouts - repeated))
  }

  function CollectFrom(units: Units, c: Collection, configured: set<string>, gates: seq<Json>, count: nat): Result<Collection>
    decreases |gates|
  {
    if gates == [] then Ok(c)
    else
      var next :- AddGate(units, c, configured, gates[0], count);
      CollectFrom(units, next, configured, gates[1..], count)
  }

  function ConfiguredNames(operations: seq<Operation>): set<string> {
    set i | 0 <= i < |operations| && operations[i].sites != [] :: operations[i].name
  }

  // ----- faults

  predicate Faulty(operation: Operation, faulty: set<nat>, sites: Sites) {
    || (exists i :: 0 <= i < |sites| && sites[i] in faulty)
    || (sites in operation.calibrations && !operation.calibrations[sites].operational)
  }

  function Working(operation: Operation, faulty: set<nat>, sites: seq<Sites>): seq<Sites> {
    if sites == [] then []
    else (if Faulty(operation, faulty, sites[0]) then [] else [sites[0]]) + Working(operation, faulty, sites[1..])
  }

  function WithoutFaults(operation: Operation, faulty: set<nat>): Operation {
    var sites := Working(operation, faulty, operation.sites);
    operation.(sites := sites, calibrations := map t | t in operation.calibrations && t in sites :: operation.calibrations[t])
  }

  function AllWithoutFaults(operations: seq<Operation>, faulty: set<nat>): seq<Operation> {
    seq(|operations|, i requires 0 <= i < |operations| => WithoutFaults(operations[i], faulty))
  }

  // ----- the whole table

  function BlankSites(count: nat): seq<Site> {
    seq(count, i requires 0 <= i < count => Site(i, None, None))
  }

  /** The operations the configuration gives. */
  function ConfiguredOperations(configuration: Json, count: nat): Result<seq<Operation>> {
    var basisList :- At(configuration, "basis_gates");
    var gateList :- At(configuration, "gates");
    var basis :- Items(basisList);
    var gates :- Items(gateList);
    if basis == [] then Err(Fatal)
    else
      var operations :- BasisFrom([], basis, gates, count);
      if !Has(configuration, "supported_instructions") then Ok(operations)
      else
        var instructions :- Items(configuration.fields["supported_instructions"]);
        InstructionsFrom(operations, instructions, count)
  }

  function Surveyed(units: Units, operations: seq<Operation>, properties: Json, count: nat): Result<Survey> {
    var survey := Survey(BlankSites(count), operations, {}, {});
    if !IsPresent(properties, "qubits") then Ok(survey)
    else
      var qubits :- Items(properties.fields["qubits"]);
      if |qubits| > count then Err(Fatal) else SurveyFrom(units, survey, qubits, 0)
  }

  function Collected(units: Units, survey: Survey, properties: Json, count: nat): Result<Collection> {
    var c := Collection(survey.operations, survey.readouts);
    if !IsPresent(properties, "gates") then Ok(c)
    else
      var gates :- Items(properties.fields["gates"]);
      CollectFrom(units, c, ConfiguredNames(survey.operations), gates, count)
  }

  function Parsed(units: Units, configuration: Json, properties: Json): Result<Metadata> {
    var name :- TextAt(configuration, "backend_name");
    var version :- TextAt(configuration, "backend_version");
    var qubits :- At(configuration, "n_qubits");
    var count :- Index(qubits);
    if name == "" || version == "" || count == 0 then Err(Fatal)
    else
      var couplingMap :- At(configuration, "coupling_map");
      var pairs :- Items(couplingMap);
      var coupling :- CouplingFrom([], pairs, count);
      if !properties.Obj? then Err(Fatal)
      else
        var operations :- ConfiguredOperations(configuration, count);
        var survey :- Surveyed(units, operations, properties, count);
        var collection :- Collected(units, survey, properties, count);
        Ok(Metadata(name, version, survey.sites, AllWithoutFaults(collection.operations, survey.faulty), coupling))
  }
}
