/** Which tuples each operation supports, read directly off the documents: the
    configured tuples, or the calibrated ones where the configuration gives none,
    minus exactly those that are broken. */
module MetadataExact {
  import opened Common
  import opened JsonModel
  import opened Metadata
  import opened MetadataSound

  // ----- the reference, stated on the documents

  /** The first occurrence of each element, in order. */
  function Firsts<T(==,!new)>(list: seq<T>): (r: seq<T>)
    ensures forall t :: t in r <==> t in list
    ensures Distinct(r)
  {
    if list == [] then []
    else
      var last := list[|list| - 1];
      var front := Firsts(list[..|list| - 1]);
      assert list == list[..|list| - 1] + [last];
      if last in front then front else front + [last]
  }

  /** The tuples of these entries, the malformed left out. */
  function Tuples(entries: seq<Json>, count: nat): seq<Sites> {
    if entries == [] then []
    else
      (if Tuple(entries[0], count).Ok? then [Tuple(entries[0], count).value] else []) + Tuples(entries[1..], count)
  }

  predicate Names(gate: Json, name: string) {
    Has(gate, "name") && gate.fields["name"] == Str(name)
  }

  /** The tuples that the gate of this name lists. */
  function ListedTuples(gates: seq<Json>, name: string, count: nat): seq<Sites> {
    if gates == [] then []
    else if Names(gates[0], name) then
      if IsPresent(gates[0], "coupling_map") && gates[0].fields["coupling_map"].Arr?
      then Firsts(Tuples(gates[0].fields["coupling_map"].items, count)) else []
    else ListedTuples(gates[1..], name, count)
  }

  predicate InBasis(basis: seq<Json>, name: string) {
    Str(name) in basis
  }

  /** The tuples the configuration gives an operation: those its gate lists, or
      for an added instruction every single site, none for branching. */
  function ConfiguredTuples(configuration: Json, name: string, count: nat): seq<Sites>
    requires ConfiguredOperations(configuration, count).Ok?
  {
    if InBasis(configuration.fields["basis_gates"].items, name) then ListedTuples(configuration.fields["gates"].items, name, count)
    else if name == "if_else" then [] else Singles(count)
  }

  /** A well-formed calibration of this operation. */
  predicate IsEntry(units: Units, gate: Json, name: string, count: nat) {
    TextAt(gate, "gate") == Ok(name) && ReadGate(units, gate, count).Ok?
  }

  /** The tuples calibrated for an operation, in order. */
  function CalibratedTuples(units: Units, gates: seq<Json>, name: string, count: nat): seq<Sites> {
    if gates == [] then []
    else
      var last := gates[|gates| - 1];
      CalibratedTuples(units, gates[..|gates| - 1], name, count)
      + if IsEntry(units, last, name, count) then [ReadGate(units, last, count).value.sites] else []
  }

  /** The calibration of this tuple of the operation. */
  function EntryFor(units: Units, gates: seq<Json>, name: string, t: Sites, count: nat): (r: Option<Calibration>)
    ensures r.Some? <==> t in CalibratedTuples(units, gates, name, count)
  {
    if gates == [] then None
    else
      var last := gates[|gates| - 1];
      if IsEntry(units, last, name, count) && ReadGate(units, last, count).value.sites == t then
        Some(ReadGate(units, last, count).value.calibration)
      else EntryFor(units, gates[..|gates| - 1], name, t, count)
  }

  /** The gates of the properties, none when there are none. */
  function GatesOf(properties: Json): seq<Json> {
    if IsPresent(properties, "gates") && properties.fields["gates"].Arr? then properties.fields["gates"].items else []
  }

  function QubitsOf(properties: Json): seq<Json> {
    if IsPresent(properties, "qubits") && properties.fields["qubits"].Arr? then properties.fields["qubits"].items else []
  }

  predicate SaysBroken(parameter: Json) {
    TextAt(parameter, "name") == Ok("operational") && Operational(parameter) == Ok(false)
  }

  predicate FaultyQubit(qubits: seq<Json>, site: nat) {
    site < |qubits| && qubits[site].Arr?
    && exists p :: 0 <= p < |qubits[site].items| && SaysBroken(qubits[site].items[p])
  }

  /** A tuple is broken when it touches a faulty qubit or its calibration says so. */
  ghost predicate Broken(units: Units, properties: Json, name: string, t: Sites, count: nat) {
    || (exists i :: 0 <= i < |t| && FaultyQubit(QubitsOf(properties), t[i]))
    || (EntryFor(units, GatesOf(properties), name, t, count).Some?
        && !EntryFor(units, GatesOf(properties), name, t, count).value.operational)
  }

  /** The tuples that are not broken, in order. */
  ghost function Unbroken(units: Units, properties: Json, name: string, tuples: seq<Sites>, count: nat): seq<Sites> {
    if tuples == [] then []
    else
      (if Broken(units, properties, name, tuples[0], count) then [] else [tuples[0]])
      + Unbroken(units, properties, name, tuples[1..], count)
  }

  /** What an operation supports before faults: configured tuples take precedence. */
  function SupportedTuples(units: Units, configuration: Json, properties: Json, name: string, count: nat): seq<Sites>
    requires ConfiguredOperations(configuration, count).Ok?
  {
    var configured := ConfiguredTuples(configuration, name, count);
    if configured != [] then configured else CalibratedTuples(units, GatesOf(properties), name, count)
  }

  // ----- the configuration

  lemma FirstsAppend<T(!new)>(list: seq<T>, last: T)
    ensures Firsts(list + [last]) == if last in Firsts(list) then Firsts(list) else Firsts(list) + [last]
  {
    assert (list + [last])[..|list|] == list;
  }

  lemma {:induction false} AddTuplesExact(operation: Operation, done: seq<Sites>, entries: seq<Json>, count: nat)
    requires operation.sites == Firsts(done) && AddTuples(operation, entries, count).Ok?
    ensures AddTuples(operation, entries, count).value.sites == Firsts(done + Tuples(entries, count))
    decreases |entries|
  {
    hide Tuple, Firsts;
    if entries == [] {
      assert done + Tuples(entries, count) == done;
    } else {
      var t := Tuple(entries[0], count).value;
      FirstsAppend(done, t);
      AddTuplesExact(AddSites(operation, t).value, done + [t], entries[1..], count);
      assert (done + [t]) + Tuples(entries[1..], count) == done + Tuples(entries, count);
    }
  }

  lemma DefineExact(operation: Operation, gate: Json, count: nat)
    requires operation.sites == [] && Define(operation, gate, count).Ok?
    ensures Define(operation, gate, count).value.sites ==
      if IsPresent(gate, "coupling_map") then Firsts(Tuples(gate.fields["coupling_map"].items, count)) else []
    ensures IsPresent(gate, "coupling_map") ==> gate.fields["coupling_map"].Arr?
  {
    hide AddTuples, Tuples;
    if IsPresent(gate, "coupling_map") {
      var named := operation.(parameters := Some(|gate.fields["parameters"].items|));
      AddTuplesExact(named, [], gate.fields["coupling_map"].items, count);
      assert [] + Tuples(gate.fields["coupling_map"].items, count) == Tuples(gate.fields["coupling_map"].items, count);
    }
  }

  lemma {:induction false} DefinedOnce(operation: Operation, gates: seq<Json>, count: nat)
    requires DefineFrom(operation, true, gates, count).Ok?
    ensures DefineFrom(operation, true, gates, count).value == operation
    ensures forall i :: 0 <= i < |gates| ==> !Names(gates[i], operation.name)
    decreases |gates|
  {
    if gates != [] {
      DefinedOnce(operation, gates[1..], count);
    }
  }

  lemma {:induction false} DefineFromExact(operation: Operation, gates: seq<Json>, count: nat)
    requires operation.sites == [] && DefineFrom(operation, false, gates, count).Ok?
    ensures DefineFrom(operation, false, gates, count).value.sites == ListedTuples(gates, operation.name, count)
    decreases |gates|
  {
    hide Define, Tuples;
    if gates != [] {
      if At(gates[0], "name").value == Str(operation.name) {
        DefineExact(operation, gates[0], count);
        DefinedOnce(Define(operation, gates[0], count).value, gates[1..], count);
      } else {
        DefineFromExact(operation, gates[1..], count);
      }
    }
  }

  /** Every operation has the tuples its gate lists and no calibrations. */
  ghost predicate Listed(operations: seq<Operation>, gates: seq<Json>, count: nat) {
    forall k :: 0 <= k < |operations| ==>
      operations[k].calibrations == map[] && operations[k].sites == ListedTuples(gates, operations[k].name, count)
  }

  lemma {:induction false} BasisExact(operations: seq<Operation>, basis: seq<Json>, gates: seq<Json>, count: nat)
    requires Listed(operations, gates, count) && BasisFrom(operations, basis, gates, count).Ok?
    ensures Listed(BasisFrom(operations, basis, gates, count).value, gates, count)
    ensures forall name :: name in OperationNames(BasisFrom(operations, basis, gates, count).value) <==>
      name in OperationNames(operations) || InBasis(basis, name)
    decreases |basis|
  {
    hide DefineFrom, ListedTuples, OperationNames, GoodOperation;
    if basis != [] {
      var name := basis[0].s;
      DefineFromExact(Unsupported(name), gates, count);
      UnsupportedGood(name, count);
      DefineFromGood(Unsupported(name), false, gates, count);
      var operation := DefineFrom(Unsupported(name), false, gates, count).value;
      BasisExact(operations + [operation], basis[1..], gates, count);
      NamesAppend(operations, operation);
    }
  }

  /** Operations beyond the basis are the added instructions. */
  ghost predicate Added(operations: seq<Operation>, basis: seq<Json>, gates: seq<Json>, count: nat) {
    && (forall name :: InBasis(basis, name) ==> name in OperationNames(operations))
    && forall k :: 0 <= k < |operations| ==>
         && operations[k].calibrations == map[]
         && operations[k].sites ==
              if InBasis(basis, operations[k].name) then ListedTuples(gates, operations[k].name, count)
              else if operations[k].name == "if_else" then [] else Singles(count)
  }

  lemma {:induction false} InstructionsExact(operations: seq<Operation>, items: seq<Json>, basis: seq<Json>, gates: seq<Json>, count: nat)
    requires Added(operations, basis, gates, count) && InstructionsFrom(operations, items, count).Ok?
    ensures Added(InstructionsFrom(operations, items, count).value, basis, gates, count)
    decreases |items|
  {
    hide ListedTuples, OperationNames, InBasis, Singles;
    if items != [] {
      var name := items[0].s;
      if name !in {"measure", "reset", "if_else"} || name in OperationNames(operations) {
        InstructionsExact(operations, items[1..], basis, gates, count);
      } else {
        NamesAppend(operations, Instruction(name, count));
        InstructionsExact(operations + [Instruction(name, count)], items[1..], basis, gates, count);
      }
    }
  }

  lemma ConfiguredExact(configuration: Json, count: nat)
    requires ConfiguredOperations(configuration, count).Ok?
    ensures var operations := ConfiguredOperations(configuration, count).value;
      forall k :: 0 <= k < |operations| ==>
        operations[k].calibrations == map[] && operations[k].sites == ConfiguredTuples(configuration, operations[k].name, count)
  {
    hide BasisFrom, InstructionsFrom, ListedTuples, OperationNames, InBasis, Singles;
    var basis, gates := configuration.fields["basis_gates"].items, configuration.fields["gates"].items;
    BasisExact([], basis, gates, count);
    var operations := BasisFrom([], basis, gates, count).value;
    BasisAdded(operations, basis, gates, count);
    if Has(configuration, "supported_instructions") {
      InstructionsExact(operations, configuration.fields["supported_instructions"].items, basis, gates, count);
    }
  }

  lemma BasisAdded(operations: seq<Operation>, basis: seq<Json>, gates: seq<Json>, count: nat)
    requires Listed(operations, gates, count)
    requires forall name :: name in OperationNames(operations) <==> name in OperationNames([]) || InBasis(basis, name)
    ensures Added(operations, basis, gates, count)
  {
    hide ListedTuples, InBasis, Singles;
    assert forall k :: 0 <= k < |operations| ==> operations[k].name in OperationNames(operations);
  }

  // ----- the qubits

  lemma {:induction false} ReadParametersFaulty(units: Units, reading: Reading, parameters: seq<Json>)
    requires ReadParameters(units, reading, parameters).Ok?
    ensures var r := ReadParameters(units, reading, parameters).value;
      && (r.faulty <==> reading.faulty || exists p :: 0 <= p < |parameters| && SaysBroken(parameters[p]))
      && r.readout.operational == reading.readout.operational
    decreases |parameters|
  {
    hide Operational;
    if parameters != [] {
      var next := ReadParameter(units, reading, parameters[0]).value;
      assert next.faulty <==> reading.faulty || SaysBroken(parameters[0]);
      ReadParametersFaulty(units, next, parameters[1..]);
      hide SaysBroken, ReadParameter;
      assert forall p :: 0 <= p < |parameters| - 1 ==> parameters[1..][p] == parameters[p + 1];
    }
  }

  lemma ReadQubitFaulty(units: Units, site: Site, qubits: seq<Json>, i: nat)
    requires i < |qubits| && ReadQubit(units, site, qubits[i]).Ok?
    ensures ReadQubit(units, site, qubits[i]).value.faulty <==> FaultyQubit(qubits, i)
    ensures ReadQubit(units, site, qubits[i]).value.readout.operational
  {
    ReadParametersFaulty(units, Reading(site, false, BLANK), qubits[i].items);
  }

  /** What the properties say of one qubit. */
  function ReadingOf(units: Units, qubits: seq<Json>, i: nat): Option<Reading> {
    if i < |qubits| && ReadQubit(units, Site(i, None, None), qubits[i]).Ok?
    then Some(ReadQubit(units, Site(i, None, None), qubits[i]).value) else None
  }

  /** The readout calibration of a measured tuple among the first n qubits. */
  function ReadoutFor(units: Units, qubits: seq<Json>, n: nat, t: Sites): Option<Calibration> {
    if |t| == 1 && t[0] < n && ReadingOf(units, qubits, t[0]).Some?
       && (ReadingOf(units, qubits, t[0]).value.readout.duration.Some? || ReadingOf(units, qubits, t[0]).value.readout.fidelity.Some?)
    then Some(ReadingOf(units, qubits, t[0]).value.readout) else None
  }

  /** The qubit properties of the first n qubits calibrate measurements and
      nothing else. */
  ghost predicate Measured(units: Units, qubits: seq<Json>, n: nat, operation: Operation) {
    if operation.name == "measure" then
      forall t :: (t in operation.calibrations <==> ReadoutFor(units, qubits, n, t).Some?)
        && (t in operation.calibrations ==> operation.calibrations[t] == ReadoutFor(units, qubits, n, t).value)
    else operation.calibrations == map[]
  }

  ghost predicate Noted(units: Units, qubits: seq<Json>, n: nat, survey: Survey) {
    && (forall i :: 0 <= i < |survey.sites| ==>
          if i < n then ReadingOf(units, qubits, i).Some? && survey.sites[i] == ReadingOf(units, qubits, i).value.site
          else survey.sites[i] == Site(i, None, None))
    && (forall i: nat :: i in survey.faulty <==> i < n && FaultyQubit(qubits, i))
    && (forall k :: 0 <= k < |survey.operations| ==> Measured(units, qubits, n, survey.operations[k]))
    && forall k :: 0 <= k < |survey.operations| && survey.operations[k].name == "measure" ==>
         survey.operations[k].calibrations.Keys == survey.readouts
  }

  lemma MeasuredNext(units: Units, qubits: seq<Json>, n: nat, operation: Operation)
    requires Measured(units, qubits, n, operation) && ReadingOf(units, qubits, n).Some?
    ensures var readout := ReadingOf(units, qubits, n).value.readout;
      Measured(units, qubits, n + 1,
        if operation.name == "measure" && (readout.duration.Some? || readout.fidelity.Some?)
        then operation.(calibrations := operation.calibrations[[n] := readout]) else operation)
  {
    hide ReadingOf;
    forall t | ReadoutFor(units, qubits, n + 1, t) != ReadoutFor(units, qubits, n, t) ensures t == [n] {
    }
  }

  lemma RecordNoted(units: Units, qubits: seq<Json>, n: nat, survey: Survey)
    requires Noted(units, qubits, n, survey) && DistinctNames(survey.operations) && n < |survey.sites|
    requires ReadingOf(units, qubits, n).Some?
    ensures Noted(units, qubits, n + 1, Record(survey, n, ReadingOf(units, qubits, n).value))
  {
    ReadQubitFaulty(units, Site(n, None, None), qubits, n);
    hide ReadQubit, FaultyQubit, Measured;
    var reading := ReadingOf(units, qubits, n).value;
    var next := Record(survey, n, reading);
    hide ReadingOf;
    forall k | 0 <= k < |survey.operations| ensures Measured(units, qubits, n + 1, next.operations[k]) {
      MeasuredNext(units, qubits, n, survey.operations[k]);
    }
  }

  lemma {:induction false} SurveyExact(units: Units, survey: Survey, all: seq<Json>, i: nat)
    requires i <= |all| <= |survey.sites| && SurveyFrom(units, survey, all[i..], i).Ok?
    requires Noted(units, all, i, survey) && DistinctNames(survey.operations)
    ensures Noted(units, all, |all|, SurveyFrom(units, survey, all[i..], i).value)
    decreases |all| - i
  {
    hide ReadQubit, FaultyQubit, Measured;
    if i < |all| {
      assert survey.sites[i] == Site(i, None, None);
      RecordNoted(units, all, i, survey);
      assert all[i..][1..] == all[i + 1..];
      SurveyExact(units, Record(survey, i, ReadingOf(units, all, i).value), all, i + 1);
    }
  }

  // ----- the gate calibrations

  /** What a gate says where the readout says nothing; both must be operational. */
  function Overlaid(readout: Calibration, gate: Calibration): Calibration {
    Calibration(match readout.duration { case Some(_) => readout.duration case None => gate.duration },
                match readout.fidelity { case Some(_) => readout.fidelity case None => gate.fidelity },
                readout.operational && gate.operational)
  }

  /** The calibration after the readout and the gate entry are merged. */
  function Combined(readouts: map<Sites, Calibration>, entry: Option<Calibration>, t: Sites): Calibration {
    if t in readouts then (if entry.Some? then Overlaid(readouts[t], entry.value) else readouts[t])
    else if entry.Some? then entry.value else BLANK
  }

  /** An operation after the calibrations done have been added to what the survey
      left. */
  ghost predicate OperationGathered(units: Units, before: Operation, done: seq<Json>, after: Operation, count: nat) {
    var calibrated := CalibratedTuples(units, done, before.name, count);
    && after.name == before.name && after.parameters == before.parameters
    && Distinct(calibrated)
    && after.sites == (if before.sites != [] then before.sites else calibrated)
    && (forall t :: t in after.calibrations <==> t in before.calibrations || t in calibrated)
    && forall t :: t in after.calibrations ==>
         after.calibrations[t] == Combined(before.calibrations, EntryFor(units, done, before.name, t, count), t)
  }

  ghost predicate Gathered(units: Units, start: Collection, done: seq<Json>, c: Collection, count: nat) {
    && |c.operations| == |start.operations|
    && (forall k :: 0 <= k < |c.operations| ==> OperationGathered(units, start.operations[k], done, c.operations[k], count))
    && forall k :: 0 <= k < |c.operations| && start.operations[k].name == "measure" ==>
         forall t :: t in c.readouts <==> t in start.readouts && t !in CalibratedTuples(units, done, "measure", count)
  }

  lemma EntryAppend(units: Units, done: seq<Json>, gate: Json, name: string, t: Sites, count: nat)
    ensures var all := done + [gate];
      && CalibratedTuples(units, all, name, count) ==
           CalibratedTuples(units, done, name, count) + (if IsEntry(units, gate, name, count) then [ReadGate(units, gate, count).value.sites] else [])
      && EntryFor(units, all, name, t, count) ==
           if IsEntry(units, gate, name, count) && ReadGate(units, gate, count).value.sites == t
           then Some(ReadGate(units, gate, count).value.calibration)
           else EntryFor(units, done, name, t, count)
  {
    hide ReadGate;
    assert (done + [gate])[..|done|] == done;
  }

  /** Another operation's calibration changes nothing. */
  lemma OtherGathered(units: Units, before: Operation, done: seq<Json>, after: Operation, gate: Json, count: nat)
    requires OperationGathered(units, before, done, after, count) && !IsEntry(units, gate, before.name, count)
    ensures OperationGathered(units, before, done + [gate], after, count)
  {
    hide ReadGate, IsEntry, CalibratedTuples, EntryFor, Combined;
    EntryAppend(units, done, gate, before.name, [], count);
    forall t | t in after.calibrations
      ensures EntryFor(units, done + [gate], before.name, t, count) == EntryFor(units, done, before.name, t, count)
    {
      EntryAppend(units, done, gate, before.name, t, count);
    }
  }

  /** A tuple is added at most once: a second calibration of it is refused. */
  lemma EntryGathered(units: Units, before: Operation, done: seq<Json>, after: Operation, gate: Json,
                      configured: bool, readouts: set<Sites>, count: nat)
    requires OperationGathered(units, before, done, after, count) && IsEntry(units, gate, before.name, count)
    requires configured <==> before.sites != []
    requires before.name != "measure" ==> before.calibrations == map[]
    requires before.name == "measure" ==>
      forall t :: t in readouts <==> t in before.calibrations && t !in CalibratedTuples(units, done, before.name, count)
    requires AddEntry(after, ReadGate(units, gate, count).value, configured, readouts).Ok?
    ensures ReadGate(units, gate, count).value.sites !in CalibratedTuples(units, done, before.name, count)
    ensures OperationGathered(units, before, done + [gate], AddEntry(after, ReadGate(units, gate, count).value, configured, readouts).value, count)
  {
    hide ReadGate, CalibratedTuples, EntryFor;
    var entry := ReadGate(units, gate, count).value;
    var calibrated := CalibratedTuples(units, done, before.name, count);
    EntryAppend(units, done, gate, before.name, entry.sites, count);
    assert entry.sites !in calibrated;
    var r := AddEntry(after, entry, configured, readouts).value;
    forall t | t in r.calibrations
      ensures r.calibrations[t] == Combined(before.calibrations, EntryFor(units, done + [gate], before.name, t, count), t)
    {
      EntryAppend(units, done, gate, before.name, t, count);
    }
  }

  /** What a collection starts from: the survey's operations, with every readout
      still to be repeated. */
  ghost predicate Starts(start: Collection, configured: set<string>) {
    && DistinctNames(start.operations)
    && (forall k :: 0 <= k < |start.operations| ==> (start.operations[k].name in configured <==> start.operations[k].sites != []))
    && forall k :: 0 <= k < |start.operations| ==>
         if start.operations[k].name == "measure" then start.operations[k].calibrations.Keys == start.readouts
         else start.operations[k].calibrations == map[]
  }

  lemma NothingGathered(units: Units, start: Collection, count: nat)
    ensures Gathered(units, start, [], start, count)
  {
  }

  /** A calibration of the operation at this position is added to it alone. */
  lemma EntryAdded(units: Units, start: Collection, configured: set<string>, done: seq<Json>, c: Collection, gate: Json, at: nat, count: nat)
    requires Starts(start, configured) && Gathered(units, start, done, c, count) && at < |c.operations|
    requires IsEntry(units, gate, c.operations[at].name, count)
    requires AddEntry(c.operations[at], ReadGate(units, gate, count).value, c.operations[at].name in configured, c.readouts).Ok?
    ensures var entry := ReadGate(units, gate, count).value;
      var operation := AddEntry(c.operations[at], entry, c.operations[at].name in configured, c.readouts).value;
      var repeated := if entry.sites in c.operations[at].calibrations then {entry.sites} else {};
      Gathered(units, start, done + [gate], Collection(c.operations[at := operation], c.readouts - repeated), count)
  {
    hide ReadGate, CalibratedTuples, EntryFor, Combined;
    var name := c.operations[at].name;
    assert OperationGathered(units, start.operations[at], done, c.operations[at], count);
    var entry := ReadGate(units, gate, count).value;
    var readouts := c.readouts;
    EntryGathered(units, start.operations[at], done, c.operations[at], gate, name in configured, readouts, count);
    var operation := AddEntry(c.operations[at], entry, name in configured, readouts).value;
    EntryAppend(units, done, gate, "measure", entry.sites, count);
    if name == "measure" {
      RepeatedReadout(units, start.operations[at], done, c.operations[at], entry, readouts, start.readouts, count);
    }
    var operations := c.operations[at := operation];
    forall k | 0 <= k < |operations|
      ensures OperationGathered(units, start.operations[k], done + [gate], operations[k], count)
    {
      if k != at {
        assert OperationGathered(units, start.operations[k], done, c.operations[k], count);
        assert start.operations[k].name != name;
        OtherGathered(units, start.operations[k], done, c.operations[k], gate, count);
      }
    }
  }

  /** A readout is marked as repeated exactly when its tuple is calibrated. */
  lemma RepeatedReadout(units: Units, before: Operation, done: seq<Json>, after: Operation, entry: GateEntry,
                        readouts: set<Sites>, first: set<Sites>, count: nat)
    requires OperationGathered(units, before, done, after, count) && before.calibrations.Keys == first
    requires forall t :: t in readouts <==> t in first && t !in CalibratedTuples(units, done, before.name, count)
    requires entry.sites !in CalibratedTuples(units, done, before.name, count)
    ensures var repeated := if entry.sites in after.calibrations then {entry.sites} else {};
      forall t :: t in readouts - repeated <==> t in first && t !in CalibratedTuples(units, done, before.name, count) + [entry.sites]
  {
    hide CalibratedTuples, EntryFor, Combined;
  }

  lemma GateGathered(units: Units, start: Collection, configured: set<string>, done: seq<Json>, c: Collection, gate: Json, count: nat)
    requires Starts(start, configured) && Gathered(units, start, done, c, count)
    requires AddGate(units, c, configured, gate, count).Ok?
    ensures Gathered(units, start, done + [gate], AddGate(units, c, configured, gate, count).value, count)
  {
    hide ReadGate, AddEntry, CalibratedTuples, Starts, EntryFor, Combined;
    var name := TextAt(gate, "gate").value;
    match Find(c.operations, name) {
      case None =>
        forall k | 0 <= k < |c.operations|
          ensures OperationGathered(units, start.operations[k], done + [gate], c.operations[k], count)
        {
          assert OperationGathered(units, start.operations[k], done, c.operations[k], count);
          OtherGathered(units, start.operations[k], done, c.operations[k], gate, count);
        }
        EntryAppend(units, done, gate, "measure", [], count);
      case Some(at) =>
        EntryAdded(units, start, configured, done, c, gate, at, count);
    }
  }

  lemma {:induction false} CollectExact(units: Units, start: Collection, configured: set<string>, done: seq<Json>,
                                        c: Collection, gates: seq<Json>, count: nat)
    requires Starts(start, configured) && Gathered(units, start, done, c, count)
    requires CollectFrom(units, c, configured, gates, count).Ok?
    ensures Gathered(units, start, done + gates, CollectFrom(units, c, configured, gates, count).value, count)
    decreases |gates|
  {
    hide Starts, Gathered, AddGate;
    if gates == [] {
      assert done + gates == done;
    } else {
      GateGathered(units, start, configured, done, c, gates[0], count);
      CollectExact(units, start, configured, done + [gates[0]], AddGate(units, c, configured, gates[0], count).value, gates[1..], count);
      assert (done + [gates[0]]) + gates[1..] == done + gates;
    }
  }

  // ----- the whole table

  lemma SurveyedExact(units: Units, operations: seq<Operation>, properties: Json, count: nat)
    requires Surveyed(units, operations, properties, count).Ok? && DistinctNames(operations)
    requires forall k :: 0 <= k < |operations| ==> operations[k].calibrations == map[]
    ensures var survey := Surveyed(units, operations, properties, count).value;
      Noted(units, QubitsOf(properties), |QubitsOf(properties)|, survey)
  {
    hide ReadQubit, FaultyQubit;
    var start := Survey(BlankSites(count), operations, {}, {});
    var qubits := QubitsOf(properties);
    assert Noted(units, qubits, 0, start);
    if IsPresent(properties, "qubits") {
      assert qubits[0..] == qubits;
      SurveyExact(units, start, qubits, 0);
    }
  }

  lemma CollectedExact(units: Units, survey: Survey, properties: Json, count: nat)
    requires Collected(units, survey, properties, count).Ok? && DistinctNames(survey.operations)
    requires Noted(units, QubitsOf(properties), |QubitsOf(properties)|, survey)
    ensures Gathered(units, Collection(survey.operations, survey.readouts), GatesOf(properties),
                     Collected(units, survey, properties, count).value, count)
  {
    hide ReadQubit, FaultyQubit, CollectFrom, Gathered, ReadoutFor, ReadingOf;
    var start := Collection(survey.operations, survey.readouts);
    NothingGathered(units, start, count);
    if IsPresent(properties, "gates") {
      var configured := ConfiguredNames(survey.operations);
      assert Starts(start, configured);
      CollectExact(units, start, configured, [], start, GatesOf(properties), count);
      assert [] + GatesOf(properties) == GatesOf(properties);
    }
  }

  /** The calibration of an operation's tuple: its readout, its gate entry, or both
      merged with the readout's values first. */
  function CalibrationOf(units: Units, properties: Json, name: string, t: Sites, count: nat): Option<Calibration> {
    var qubits := QubitsOf(properties);
    var readout := if name == "measure" then ReadoutFor(units, qubits, |qubits|, t) else None;
    var entry := EntryFor(units, GatesOf(properties), name, t, count);
    if readout.Some? then Some(if entry.Some? then Overlaid(readout.value, entry.value) else readout.value) else entry
  }

  lemma ReadoutWorks(units: Units, qubits: seq<Json>, t: Sites)
    ensures var readout := ReadoutFor(units, qubits, |qubits|, t); readout.Some? ==> readout.value.operational
  {
    if ReadoutFor(units, qubits, |qubits|, t).Some? {
      ReadQubitFaulty(units, Site(t[0], None, None), qubits, t[0]);
    }
  }

  /** Before faults are removed, an operation has the supported tuples and the
      merged calibrations. */
  ghost predicate Complete(units: Units, configuration: Json, properties: Json, operation: Operation, count: nat)
    requires ConfiguredOperations(configuration, count).Ok?
  {
    && operation.sites == SupportedTuples(units, configuration, properties, operation.name, count)
    && (forall t :: t in operation.calibrations <==> CalibrationOf(units, properties, operation.name, t, count).Some?)
    && (forall t :: t in operation.calibrations ==>
          operation.calibrations[t] == CalibrationOf(units, properties, operation.name, t, count).value)
    && Distinct(CalibratedTuples(units, GatesOf(properties), operation.name, count))
  }

  lemma GatheredComplete(units: Units, configuration: Json, properties: Json, before: Operation, after: Operation, count: nat)
    requires ConfiguredOperations(configuration, count).Ok?
    requires before.sites == ConfiguredTuples(configuration, before.name, count)
    requires Measured(units, QubitsOf(properties), |QubitsOf(properties)|, before)
    requires OperationGathered(units, before, GatesOf(properties), after, count)
    ensures Complete(units, configuration, properties, after, count)
  {
    hide ReadoutFor, EntryFor, CalibratedTuples, ConfiguredTuples, ConfiguredOperations, GatesOf, QubitsOf, Overlaid;
  }

  lemma FaultyIsBroken(units: Units, configuration: Json, properties: Json, operation: Operation, faulty: set<nat>, t: Sites, count: nat)
    requires ConfiguredOperations(configuration, count).Ok? && Complete(units, configuration, properties, operation, count)
    requires forall i: nat :: i in faulty <==> FaultyQubit(QubitsOf(properties), i)
    ensures Faulty(operation, faulty, t) <==> Broken(units, properties, operation.name, t, count)
  {
    hide ReadoutFor, EntryFor, SupportedTuples, ConfiguredOperations, FaultyQubit, GatesOf, QubitsOf, CalibratedTuples;
    ReadoutWorks(units, QubitsOf(properties), t);
  }

  lemma {:induction false} WorkingIsUnbroken(units: Units, configuration: Json, properties: Json,
                                             operation: Operation, faulty: set<nat>, tuples: seq<Sites>, count: nat)
    requires ConfiguredOperations(configuration, count).Ok? && Complete(units, configuration, properties, operation, count)
    requires forall i: nat :: i in faulty <==> FaultyQubit(QubitsOf(properties), i)
    ensures Working(operation, faulty, tuples) == Unbroken(units, properties, operation.name, tuples, count)
    decreases |tuples|
  {
    hide Complete, Faulty, Broken, FaultyQubit, QubitsOf, ConfiguredOperations;
    if tuples != [] {
      FaultyIsBroken(units, configuration, properties, operation, faulty, tuples[0], count);
      WorkingIsUnbroken(units, configuration, properties, operation, faulty, tuples[1..], count);
    }
  }

  lemma CollectionComplete(units: Units, configuration: Json, properties: Json, count: nat)
    requires ConfiguredOperations(configuration, count).Ok?
    requires Surveyed(units, ConfiguredOperations(configuration, count).value, properties, count).Ok?
    requires var survey := Surveyed(units, ConfiguredOperations(configuration, count).value, properties, count).value;
      Collected(units, survey, properties, count).Ok?
    ensures var survey := Surveyed(units, ConfiguredOperations(configuration, count).value, properties, count).value;
      var operations := Collected(units, survey, properties, count).value.operations;
      && Noted(units, QubitsOf(properties), |QubitsOf(properties)|, survey)
      && forall k :: 0 <= k < |operations| ==> Complete(units, configuration, properties, operations[k], count)
  {
    hide GoodOperation, ConfiguredOperations, Surveyed, Collected, ConfiguredTuples, Complete, OperationGathered, Measured, ReadingOf, FaultyQubit;
    var operations := ConfiguredOperations(configuration, count).value;
    ConfiguredGood(configuration, count);
    ConfiguredExact(configuration, count);
    SurveyedSame(units, operations, properties, count);
    SurveyedExact(units, operations, properties, count);
    var survey := Surveyed(units, operations, properties, count).value;
    SameButCalibrationsGood(operations, survey.operations, count);
    CollectedExact(units, survey, properties, count);
    var collected := Collected(units, survey, properties, count).value.operations;
    forall k | 0 <= k < |collected| ensures Complete(units, configuration, properties, collected[k], count) {
      assert OperationGathered(units, survey.operations[k], GatesOf(properties), collected[k], count);
      GatheredComplete(units, configuration, properties, survey.operations[k], collected[k], count);
    }
  }

  /** The final support list of every operation is, in order, its configured
      tuples, or its calibrated ones where the configuration gives none, minus
      exactly the broken ones; each remaining tuple has its merged calibration,
      and no tuple is calibrated twice. */
  lemma SupportExact(units: Units, configuration: Json, properties: Json, k: nat)
    requires Parsed(units, configuration, properties).Ok? && k < |Parsed(units, configuration, properties).value.operations|
    ensures ConfiguredOperations(configuration, |Parsed(units, configuration, properties).value.sites|).Ok?
    ensures var m := Parsed(units, configuration, properties).value; var count := |m.sites|;
      var operation := m.operations[k]; var name := operation.name;
      && operation.sites == Unbroken(units, properties, name, SupportedTuples(units, configuration, properties, name, count), count)
      && (forall t :: t in operation.calibrations <==> t in operation.sites && CalibrationOf(units, properties, name, t, count).Some?)
      && (forall t :: t in operation.calibrations ==>
            operation.calibrations[t] == CalibrationOf(units, properties, name, t, count).value)
      && Distinct(CalibratedTuples(units, GatesOf(properties), name, count))
  {
    hide CouplingFrom, ConfiguredOperations, Surveyed, Collected, SupportedTuples, CalibrationOf, CalibratedTuples, Working, Unbroken,
         ReadingOf, FaultyQubit, Measured, GatesOf, QubitsOf;
    var count := Index(configuration.fields["n_qubits"]).value;
    var operations := ConfiguredOperations(configuration, count).value;
    var survey := Surveyed(units, operations, properties, count).value;
    SurveyedSame(units, operations, properties, count);
    CollectionComplete(units, configuration, properties, count);
    var operation := Collected(units, survey, properties, count).value.operations[k];
    FaultyInRange(QubitsOf(properties));
    WorkingIsUnbroken(units, configuration, properties, operation, survey.faulty, operation.sites, count);
  }

  lemma FaultyInRange(qubits: seq<Json>)
    ensures forall i: nat :: FaultyQubit(qubits, i) ==> i < |qubits|
  {
  }
}
