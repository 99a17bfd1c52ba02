/** Exactly which documents the normaliser of src/Metadata.cpp accepts. */
module MetadataAccepts {
  import opened Common
  import opened JsonModel
  import opened Metadata
  import opened MetadataSound
  import opened MetadataExact
  import F = MetadataFields

  // ----- tuples

  predicate HoldsTuple(j: Json, count: nat) {
    && j.Arr? && j.items != []
    && (forall k :: 0 <= k < |j.items| ==> j.items[k].Int? && 0 <= j.items[k].n < count && j.items[k].n < 0xFFFF_FFFF_FFFF_FC00)
    && forall i, k :: 0 <= i < k < |j.items| ==> j.items[i].n != j.items[k].n
  }

  lemma TupleAccepted(j: Json, count: nat)
    ensures Tuple(j, count).Ok? <==> HoldsTuple(j, count)
    ensures Tuple(j, count).Ok? ==> F.IsTuple(j, Tuple(j, count).value, count) && |Tuple(j, count).value| == |j.items|
    ensures Tuple(j, count).Err? ==> Tuple(j, count) == Err(Fatal)
  {
    F.TupleExact(j, count, []);
    if Tuple(j, count).Ok? {
      F.TupleExact(j, count, Tuple(j, count).value);
    }
    if HoldsTuple(j, count) {
      var t := seq(|j.items|, k requires 0 <= k < |j.items| => if j.items[k].Int? && j.items[k].n >= 0 then j.items[k].n else 0);
      assert forall k :: 0 <= k < |t| ==> j.items[k] == Int(t[k]);
      F.TupleExact(j, count, t);
    }
  }

  function Size(j: Json): nat {
    if j.Arr? then |j.items| else 0
  }

  // ----- the coupling map

  predicate HoldsPair(j: Json, count: nat) {
    HoldsTuple(j, count) && |j.items| == 2
  }

  lemma {:induction false} CouplingAccepted(done: seq<Sites>, items: seq<Json>, count: nat)
    ensures var r := CouplingFrom(Firsts(done), items, count);
      && (r.Ok? <==> forall i :: 0 <= i < |items| ==> HoldsPair(items[i], count))
      && (r.Ok? ==> r.value == Firsts(done + Tuples(items, count)))
      && (r.Err? ==> r == Err(Fatal))
    decreases |items|
  {
    hide Tuple, Firsts, HoldsTuple;
    if items == [] {
      assert done + Tuples(items, count) == done;
    } else {
      TupleAccepted(items[0], count);
      if HoldsPair(items[0], count) {
        var pair := Tuple(items[0], count).value;
        FirstsAppend(done, pair);
        FirstsHold(done, pair);
        CouplingAccepted(done + [pair], items[1..], count);
        assert done + [pair] + Tuples(items[1..], count) == done + Tuples(items, count);
        assert forall i :: 1 <= i < |items| ==> items[i] == items[1..][i - 1];
      }
    }
  }

  lemma FirstsHold(list: seq<Sites>, t: Sites)
    ensures t in Firsts(list) <==> t in list
  {
  }

  // ----- the configured operations

  /** Absent or null, or a list of tuples of one size. */
  predicate HoldsTuples(gate: Json, count: nat) {
    gate.Obj? && "coupling_map" in gate.fields && gate.fields["coupling_map"] != Null ==>
      var list := gate.fields["coupling_map"];
      list.Arr? && OfOneSize(list.items, count)
  }

  predicate OfOneSize(entries: seq<Json>, count: nat) {
    forall i :: 0 <= i < |entries| ==> HoldsTuple(entries[i], count) && Size(entries[i]) == Size(entries[0])
  }

  predicate Defines(gate: Json, count: nat) {
    && gate.Obj? && "parameters" in gate.fields && gate.fields["parameters"].Arr?
    && (forall i :: 0 <= i < |gate.fields["parameters"].items| ==> gate.fields["parameters"].items[i].Str?)
    && HoldsTuples(gate, count)
  }

  /** The arity agrees with every tuple, and there is one only if there is a tuple. */
  predicate ArityFits(operation: Operation) {
    && (operation.sites == [] ==> operation.arity == None)
    && forall k :: 0 <= k < |operation.sites| ==> operation.arity == Some(|operation.sites[k]|)
  }

  lemma AddSitesFits(operation: Operation, t: Sites)
    requires ArityFits(operation)
    ensures AddSites(operation, t).Ok? <==> operation.sites == [] || |operation.sites[0]| == |t|
    ensures AddSites(operation, t).Err? ==> AddSites(operation, t) == Err(Fatal)
    ensures AddSites(operation, t).Ok? ==>
      var r := AddSites(operation, t).value;
      ArityFits(r) && r.sites != [] && |r.sites[0]| == |t| && r.name == operation.name && r.parameters == operation.parameters
  {
  }

  lemma {:induction false} AddTuplesAccepted(operation: Operation, entries: seq<Json>, count: nat)
    requires ArityFits(operation)
    ensures var r := AddTuples(operation, entries, count);
      && (r.Ok? <==> forall i :: 0 <= i < |entries| ==>
            HoldsTuple(entries[i], count) && Size(entries[i]) == (if operation.sites == [] then Size(entries[0]) else |operation.sites[0]|))
      && (r.Ok? ==> ArityFits(r.value) && r.value.name == operation.name && r.value.parameters == operation.parameters)
      && (r.Err? ==> r == Err(Fatal))
    decreases |entries|
  {
    hide Tuple, HoldsTuple, ArityFits, AddSites;
    if entries != [] {
      TupleAccepted(entries[0], count);
      if Tuple(entries[0], count).Ok? {
        var t := Tuple(entries[0], count).value;
        AddSitesFits(operation, t);
        if AddSites(operation, t).Ok? {
          AddTuplesAccepted(AddSites(operation, t).value, entries[1..], count);
          assert forall i :: 1 <= i < |entries| ==> entries[i] == entries[1..][i - 1];
        }
      }
    }
  }

  lemma DefineAccepted(operation: Operation, gate: Json, count: nat)
    requires operation.sites == [] && operation.arity == None
    ensures var r := Define(operation, gate, count);
      && (r.Ok? <==> Defines(gate, count))
      && (r.Ok? ==> ArityFits(r.value) && r.value.name == operation.name && r.value.parameters == Some(|gate.fields["parameters"].items|))
      && (r.Err? ==> r == Err(Fatal))
  {
    hide AddTuples, HoldsTuple;
    if Has(gate, "parameters") && gate.fields["parameters"].Arr? && IsPresent(gate, "coupling_map") && gate.fields["coupling_map"].Arr? {
      AddTuplesAccepted(operation.(parameters := Some(|gate.fields["parameters"].items|)), gate.fields["coupling_map"].items, count);
    }
  }

  predicate GateNames(gates: seq<Json>) {
    forall i :: 0 <= i < |gates| ==> gates[i].Obj? && "name" in gates[i].fields
  }

  predicate IsFor(gate: Json, name: string) {
    gate.Obj? && "name" in gate.fields && gate.fields["name"] == Str(name)
  }

  /** At most one gate defines the operation, and it does so properly. */
  predicate DefinedWell(gates: seq<Json>, name: string, count: nat) {
    && (forall i :: 0 <= i < |gates| && IsFor(gates[i], name) ==> Defines(gates[i], count))
    && forall i, k :: 0 <= i < k < |gates| ==> !(IsFor(gates[i], name) && IsFor(gates[k], name))
  }

  /** The number of parameters the gate of this name has. */
  function ParametersOf(gates: seq<Json>, name: string): Option<nat> {
    if gates == [] then None
    else if IsFor(gates[0], name) && "parameters" in gates[0].fields && gates[0].fields["parameters"].Arr?
    then Some(|gates[0].fields["parameters"].items|)
    else ParametersOf(gates[1..], name)
  }

  lemma {:induction false} DefinedAccepted(operation: Operation, gates: seq<Json>, count: nat)
    ensures var r := DefineFrom(operation, true, gates, count);
      && (r.Ok? <==> GateNames(gates) && forall i :: 0 <= i < |gates| ==> !IsFor(gates[i], operation.name))
      && (r.Ok? ==> r.value == operation)
      && (r.Err? ==> r == Err(Fatal))
    decreases |gates|
  {
    if gates != [] {
      DefinedAccepted(operation, gates[1..], count);
      assert forall i :: 1 <= i < |gates| ==> gates[i] == gates[1..][i - 1];
    }
  }

  lemma {:induction false} DefineFromAccepted(operation: Operation, gates: seq<Json>, count: nat)
    requires operation == Unsupported(operation.name)
    ensures var r := DefineFrom(operation, false, gates, count);
      && (r.Ok? <==> GateNames(gates) && DefinedWell(gates, operation.name, count))
      && (r.Ok? ==> ArityFits(r.value) && r.value.name == operation.name && r.value.parameters == ParametersOf(gates, operation.name))
      && (r.Err? ==> r == Err(Fatal))
    decreases |gates|
  {
    hide Define, Defines, ArityFits;
    if gates == [] {
      assert ArityFits(operation) by {
        UnsupportedFits(operation.name);
      }
    } else {
      LaterGates(gates, operation.name, count);
      if Has(gates[0], "name") {
        if gates[0].fields["name"] == Str(operation.name) {
          DefineAccepted(operation, gates[0], count);
          if Define(operation, gates[0], count).Ok? {
            DefinesParameters(gates[0], count);
            DefinedAccepted(Define(operation, gates[0], count).value, gates[1..], count);
          }
        } else {
          DefineFromAccepted(operation, gates[1..], count);
        }
      }
    }
  }

  lemma UnsupportedFits(name: string)
    ensures ArityFits(Unsupported(name))
  {
  }

  lemma DefinesParameters(gate: Json, count: nat)
    requires Defines(gate, count)
    ensures gate.Obj? && "parameters" in gate.fields && gate.fields["parameters"].Arr?
  {
  }

  lemma LaterGates(gates: seq<Json>, name: string, count: nat)
    requires gates != []
    ensures GateNames(gates) <==> gates[0].Obj? && "name" in gates[0].fields && GateNames(gates[1..])
    ensures DefinedWell(gates, name, count) <==>
      if IsFor(gates[0], name) then Defines(gates[0], count) && forall i :: 0 <= i < |gates[1..]| ==> !IsFor(gates[1..][i], name)
      else DefinedWell(gates[1..], name, count)
  {
    hide Defines, IsFor;
    assert forall i :: 1 <= i < |gates| ==> gates[i] == gates[1..][i - 1];
  }

  /** The basis gates have different names, and each is defined well. */
  predicate BasisFits(operations: seq<Operation>, basis: seq<Json>, gates: seq<Json>, count: nat) {
    && (forall i :: 0 <= i < |basis| ==> basis[i].Str? && basis[i].s != "" && basis[i].s !in OperationNames(operations))
    && (forall i, k :: 0 <= i < k < |basis| ==> basis[i] != basis[k])
    && (basis != [] ==> GateNames(gates))
    && forall i :: 0 <= i < |basis| && basis[i].Str? ==> DefinedWell(gates, basis[i].s, count)
  }

  predicate AllArityFits(operations: seq<Operation>) {
    forall k :: 0 <= k < |operations| ==> ArityFits(operations[k])
  }

  lemma {:induction false} BasisAccepted(operations: seq<Operation>, basis: seq<Json>, gates: seq<Json>, count: nat)
    requires AllArityFits(operations)
    ensures var r := BasisFrom(operations, basis, gates, count);
      && (r.Ok? <==> BasisFits(operations, basis, gates, count))
      && (r.Ok? ==> AllArityFits(r.value))
      && (r.Err? ==> r == Err(Fatal))
    decreases |basis|
  {
    hide DefineFrom, ArityFits, GateNames, DefinedWell, OperationNames;
    if basis != [] && basis[0].Str? && basis[0].s != "" && basis[0].s !in OperationNames(operations) {
      var name := basis[0].s;
      DefineFromAccepted(Unsupported(name), gates, count);
      if DefineFrom(Unsupported(name), false, gates, count).Ok? {
        var operation := DefineFrom(Unsupported(name), false, gates, count).value;
        NamesAppend(operations, operation);
        BasisAccepted(operations + [operation], basis[1..], gates, count);
        BasisLater(operations, operation, basis, gates, count);
      }
    }
  }

  lemma BasisLater(operations: seq<Operation>, operation: Operation, basis: seq<Json>, gates: seq<Json>, count: nat)
    requires basis != [] && basis[0] == Str(operation.name) && operation.name != "" && operation.name !in OperationNames(operations)
    requires GateNames(gates) && DefinedWell(gates, operation.name, count)
    requires OperationNames(operations + [operation]) == OperationNames(operations) + {operation.name}
    ensures BasisFits(operations, basis, gates, count) <==> BasisFits(operations + [operation], basis[1..], gates, count)
  {
    hide GateNames, DefinedWell, OperationNames;
    assert forall i :: 1 <= i < |basis| ==> basis[i] == basis[1..][i - 1];
  }

  predicate AllTexts(items: seq<Json>) {
    forall i :: 0 <= i < |items| ==> items[i].Str?
  }

  lemma {:induction false} InstructionsAccepted(operations: seq<Operation>, items: seq<Json>, count: nat)
    requires AllArityFits(operations) && count > 0
    ensures var r := InstructionsFrom(operations, items, count);
      && (r.Ok? <==> AllTexts(items))
      && (r.Ok? ==> AllArityFits(r.value))
      && (r.Err? ==> r == Err(Fatal))
    decreases |items|
  {
    hide ArityFits, OperationNames, Instruction;
    if items != [] && items[0].Str? {
      InstructionFits(items[0].s, count);
      var next := if items[0].s !in {"measure", "reset", "if_else"} || items[0].s in OperationNames(operations) then operations
                  else operations + [Instruction(items[0].s, count)];
      InstructionsAccepted(next, items[1..], count);
      assert forall i :: 1 <= i < |items| ==> items[i] == items[1..][i - 1];
    }
  }

  lemma InstructionFits(name: string, count: nat)
    requires count > 0
    ensures ArityFits(Instruction(name, count))
  {
    assert |Singles(count)| == count && forall i :: 0 <= i < count ==> Singles(count)[i] == [i];
  }

  /** The part of the configuration that names the operations. */
  predicate ConfigurationFits(configuration: Json, count: nat) {
    && configuration.Obj?
    && "basis_gates" in configuration.fields && configuration.fields["basis_gates"].Arr?
    && "gates" in configuration.fields && configuration.fields["gates"].Arr?
    && configuration.fields["basis_gates"].items != []
    && BasisFits([], configuration.fields["basis_gates"].items, configuration.fields["gates"].items, count)
    && ("supported_instructions" in configuration.fields ==>
          configuration.fields["supported_instructions"].Arr? && AllTexts(configuration.fields["supported_instructions"].items))
  }

  lemma ConfigurationAccepted(configuration: Json, count: nat)
    requires count > 0
    ensures var r := ConfiguredOperations(configuration, count);
      && (r.Ok? <==> ConfigurationFits(configuration, count))
      && (r.Ok? ==> AllArityFits(r.value))
      && (r.Err? ==> r == Err(Fatal))
  {
    hide BasisFrom, InstructionsFrom, BasisFits, AllTexts;
    if Has(configuration, "basis_gates") && Has(configuration, "gates")
       && configuration.fields["basis_gates"].Arr? && configuration.fields["gates"].Arr? {
      var basis, gates := configuration.fields["basis_gates"].items, configuration.fields["gates"].items;
      BasisAccepted([], basis, gates, count);
      if BasisFrom([], basis, gates, count).Ok? && Has(configuration, "supported_instructions")
         && configuration.fields["supported_instructions"].Arr? {
        InstructionsAccepted(BasisFrom([], basis, gates, count).value, configuration.fields["supported_instructions"].items, count);
      }
    }
  }

  // ----- the qubits

  /** Absent or null, or at most one readable list a qubit. */
  predicate QubitsFit(properties: Json, count: nat) {
    properties.Obj? && "qubits" in properties.fields && properties.fields["qubits"] != Null ==>
      var list := properties.fields["qubits"];
      list.Arr? && |list.items| <= count && forall i :: 0 <= i < |list.items| ==> F.Readable(list.items[i])
  }

  lemma {:induction false} SurveyAccepted(units: Units, survey: Survey, all: seq<Json>, i: nat)
    requires i <= |all| <= |survey.sites|
    requires forall k :: i <= k < |survey.sites| ==> survey.sites[k] == Site(k, None, None)
    ensures var r := SurveyFrom(units, survey, all[i..], i);
      && (r.Ok? <==> forall k :: i <= k < |all| ==> F.Readable(all[k]))
      && (r.Ok? ==> SameArity(survey.operations, r.value.operations))
      && (r.Err? ==> r == Err(Fatal))
    decreases |all| - i
  {
    hide ReadQubit, F.Readable;
    if i < |all| {
      F.QubitExact(units, i, all[i]);
      assert all[i..][0] == all[i] && all[i..][1..] == all[i + 1..];
      if F.Readable(all[i]) {
        var next := Record(survey, i, ReadQubit(units, survey.sites[i], all[i]).value);
        SurveyAccepted(units, next, all, i + 1);
      }
    }
  }

  predicate SameArity(before: seq<Operation>, after: seq<Operation>) {
    |after| == |before| && forall k :: 0 <= k < |after| ==>
      after[k].name == before[k].name && after[k].arity == before[k].arity && after[k].sites == before[k].sites
  }

  lemma QubitsAccepted(units: Units, operations: seq<Operation>, properties: Json, count: nat)
    requires AllArityFits(operations)
    ensures var r := Surveyed(units, operations, properties, count);
      && (r.Ok? <==> QubitsFit(properties, count))
      && (r.Ok? ==> AllArityFits(r.value.operations))
      && (r.Err? ==> r == Err(Fatal))
  {
    hide SurveyFrom, F.Readable;
    if IsPresent(properties, "qubits") && properties.fields["qubits"].Arr? && |properties.fields["qubits"].items| <= count {
      var qubits := properties.fields["qubits"].items;
      SurveyAccepted(units, Survey(BlankSites(count), operations, {}, {}), qubits, 0);
      assert qubits[0..] == qubits;
    }
  }

  // ----- the gate calibrations

  /** This tuple may be calibrated now: it is one of the configured tuples, if there
      are any, or has the size of the tuples before, and it is a new one. */
  ghost predicate MayCalibrate(t: Sites, configured: seq<Sites>, calibrated: seq<Sites>) {
    && t !in calibrated
    && if configured != [] then t in configured else forall u :: u in calibrated ==> |u| == |t|
  }

  lemma EntryAccepted(units: Units, before: Operation, done: seq<Json>, after: Operation, entry: GateEntry, readouts: set<Sites>, count: nat)
    requires OperationGathered(units, before, done, after, count) && ArityFits(after)
    requires before.name != "measure" ==> before.calibrations == map[]
    requires before.name == "measure" ==>
      forall t :: t in readouts <==> t in before.calibrations && t !in CalibratedTuples(units, done, before.name, count)
    ensures var r := AddEntry(after, entry, before.sites != [], readouts);
      && (r.Ok? <==> MayCalibrate(entry.sites, before.sites, CalibratedTuples(units, done, before.name, count)))
      && (r.Ok? ==> ArityFits(r.value))
      && (r.Err? ==> r == Err(Fatal))
  {
    hide CalibratedTuples, EntryFor, Combined, Distinct;
    var calibrated := CalibratedTuples(units, done, before.name, count);
    AddSitesFits(after, entry.sites);
    hide AddSites;
    assert entry.sites in after.calibrations <==> entry.sites in before.calibrations || entry.sites in calibrated;
    SizesAgree(after, entry.sites, if before.sites != [] then before.sites else calibrated);
    hide ArityFits;
    if AddSites(after, entry.sites).Ok? {
      assert ArityFits(AddSites(after, entry.sites).value);
      CalibrationsAside(AddSites(after, entry.sites).value);
    }
  }

  lemma SizesAgree(operation: Operation, t: Sites, tuples: seq<Sites>)
    requires ArityFits(operation) && operation.sites == tuples
    ensures tuples == [] || |tuples[0]| == |t| <==> forall u :: u in tuples ==> |u| == |t|
  {
    if tuples != [] {
      assert tuples[0] in tuples;
    }
  }

  lemma CalibrationsAside(operation: Operation)
    requires ArityFits(operation)
    ensures forall calibrations :: ArityFits(operation.(calibrations := calibrations))
  {
  }

  /** The gate may calibrate the operation it names, if there is one. */
  ghost predicate GateFits(units: Units, operations: seq<Operation>, done: seq<Json>, gate: Json, count: nat) {
    && gate.Obj? && "gate" in gate.fields && gate.fields["gate"].Str?
    && forall k :: 0 <= k < |operations| && operations[k].name == gate.fields["gate"].s ==>
         exists t :: F.IsGate(gate, t, count)
           && MayCalibrate(t, operations[k].sites, CalibratedTuples(units, done, operations[k].name, count))
  }

  lemma GateAccepted(units: Units, start: Collection, configured: set<string>, done: seq<Json>, c: Collection, gate: Json, count: nat)
    requires Starts(start, configured) && Gathered(units, start, done, c, count) && AllArityFits(c.operations)
    ensures var r := AddGate(units, c, configured, gate, count);
      && (r.Ok? <==> GateFits(units, start.operations, done, gate, count))
      && (r.Ok? ==> AllArityFits(r.value.operations))
      && (r.Err? ==> r == Err(Fatal))
  {
    hide ReadGate, AddEntry, CalibratedTuples, EntryFor, Combined, ArityFits, F.IsGate, MayCalibrate;
    if Has(gate, "gate") && gate.fields["gate"].Str? {
      var name := gate.fields["gate"].s;
      forall k | 0 <= k < |c.operations| ensures c.operations[k].name == start.operations[k].name {
        assert OperationGathered(units, start.operations[k], done, c.operations[k], count);
      }
      match Find(c.operations, name) {
        case None =>
        case Some(at) =>
          F.GateExact(units, gate, count);
          assert OperationGathered(units, start.operations[at], done, c.operations[at], count);
          if ReadGate(units, gate, count).Ok? {
            var entry := ReadGate(units, gate, count).value;
            EntryAccepted(units, start.operations[at], done, c.operations[at], entry, c.readouts, count);
            SameTuple(gate, entry.sites, count);
          }
          hide OperationGathered;
      }
    }
  }

  /** A gate has one tuple. */
  lemma SameTuple(gate: Json, t: Sites, count: nat)
    requires F.IsGate(gate, t, count)
    ensures forall u :: F.IsGate(gate, u, count) ==> u == t
  {
    hide F.Readable;
    F.TupleExact(gate.fields["qubits"], count, t);
    forall u | F.IsGate(gate, u, count) ensures u == t {
      F.TupleExact(gate.fields["qubits"], count, u);
    }
  }

  lemma {:induction false} CollectAccepted(units: Units, start: Collection, configured: set<string>, done: seq<Json>,
                                           c: Collection, gates: seq<Json>, count: nat)
    requires Starts(start, configured) && Gathered(units, start, done, c, count) && AllArityFits(c.operations)
    ensures var r := CollectFrom(units, c, configured, gates, count);
      && (r.Ok? <==> forall i :: 0 <= i < |gates| ==> GateFits(units, start.operations, done + gates[..i], gates[i], count))
      && (r.Ok? ==> AllArityFits(r.value.operations))
      && (r.Err? ==> r == Err(Fatal))
    decreases |gates|
  {
    hide Starts, Gathered, AddGate, GateFits, AllArityFits;
    if gates != [] {
      GateAccepted(units, start, configured, done, c, gates[0], count);
      assert done + gates[..0] == done;
      if AddGate(units, c, configured, gates[0], count).Ok? {
        var next := AddGate(units, c, configured, gates[0], count).value;
        GateGathered(units, start, configured, done, c, gates[0], count);
        CollectAccepted(units, start, configured, done + [gates[0]], next, gates[1..], count);
        assert forall i :: 0 <= i < |gates| - 1 ==>
          done + [gates[0]] + gates[1..][..i] == done + gates[..i + 1] && gates[1..][i] == gates[i + 1];
        assert forall i :: 1 <= i < |gates| ==> done + gates[..i] == done + [gates[0]] + gates[1..][..i - 1] && gates[i] == gates[1..][i - 1];
      }
    }
  }

  /** Absent or null, or calibrations that fit one after the other. */
  ghost predicate GatesFit(units: Units, operations: seq<Operation>, properties: Json, count: nat) {
    properties.Obj? && "gates" in properties.fields && properties.fields["gates"] != Null ==>
      var list := properties.fields["gates"];
      list.Arr? && forall i :: 0 <= i < |list.items| ==> GateFits(units, operations, list.items[..i], list.items[i], count)
  }

  lemma GateFitsAside(units: Units, a: seq<Operation>, b: seq<Operation>, done: seq<Json>, gate: Json, count: nat)
    requires SameButCalibrations(a, b)
    ensures GateFits(units, a, done, gate, count) <==> GateFits(units, b, done, gate, count)
  {
    hide F.IsGate, MayCalibrate, CalibratedTuples;
    assert forall k :: 0 <= k < |a| ==> a[k].name == b[k].name && a[k].sites == b[k].sites;
  }

  lemma CollectedAccepted(units: Units, operations: seq<Operation>, survey: Survey, properties: Json, count: nat)
    requires SameButCalibrations(operations, survey.operations) && DistinctNames(survey.operations) && AllArityFits(survey.operations)
    requires Noted(units, QubitsOf(properties), |QubitsOf(properties)|, survey)
    ensures var r := Collected(units, survey, properties, count);
      && (r.Ok? <==> GatesFit(units, operations, properties, count))
      && (r.Ok? ==> AllArityFits(r.value.operations))
      && (r.Err? ==> r == Err(Fatal))
  {
    hide ReadQubit, FaultyQubit, CollectFrom, Gathered, ReadoutFor, ReadingOf, GateFits, AllArityFits, SameButCalibrations;
    if IsPresent(properties, "gates") && properties.fields["gates"].Arr? {
      var gates := properties.fields["gates"].items;
      var start := Collection(survey.operations, survey.readouts);
      var configured := ConfiguredNames(survey.operations);
      NothingGathered(units, start, count);
      assert Starts(start, configured);
      CollectAccepted(units, start, configured, [], start, gates, count);
      forall i | 0 <= i < |gates|
        ensures GateFits(units, start.operations, [] + gates[..i], gates[i], count) <==> GateFits(units, operations, gates[..i], gates[i], count)
      {
        assert [] + gates[..i] == gates[..i];
        GateFitsAside(units, operations, survey.operations, gates[..i], gates[i], count);
      }
    }
  }

  predicate HeadFits(configuration: Json) {
    && configuration.Obj?
    && "backend_name" in configuration.fields && configuration.fields["backend_name"].Str? && configuration.fields["backend_name"].s != ""
    && "backend_version" in configuration.fields && configuration.fields["backend_version"].Str?
    && configuration.fields["backend_version"].s != ""
    && "n_qubits" in configuration.fields && configuration.fields["n_qubits"].Int?
    && 0 < configuration.fields["n_qubits"].n < 0xFFFF_FFFF_FFFF_FC00
  }

  predicate CouplingFits(configuration: Json, count: nat) {
    && configuration.Obj? && "coupling_map" in configuration.fields && configuration.fields["coupling_map"].Arr?
    && forall i :: 0 <= i < |configuration.fields["coupling_map"].items| ==> HoldsPair(configuration.fields["coupling_map"].items[i], count)
  }

  /** The operations that the configuration gives, and each of whose calibrations
      fits: part of what the documents must be. */
  ghost predicate TableFits(units: Units, configuration: Json, properties: Json, count: nat) {
    && ConfigurationFits(configuration, count)
    && ConfiguredOperations(configuration, count).Ok?
    && GatesFit(units, ConfiguredOperations(configuration, count).value, properties, count)
  }

  /** The documents are accepted exactly when their parts fit; every refusal is
      fatal. */
  lemma ParsedAccepted(units: Units, configuration: Json, properties: Json)
    ensures Parsed(units, configuration, properties).Ok? <==>
      && HeadFits(configuration) && properties.Obj?
      && var count := configuration.fields["n_qubits"].n;
      CouplingFits(configuration, count) && QubitsFit(properties, count) && TableFits(units, configuration, properties, count)
    ensures Parsed(units, configuration, properties).Err? ==> Parsed(units, configuration, properties) == Err(Fatal)
  {
    hide Index, CouplingFrom, ConfiguredOperations, Surveyed, Collected, ConfigurationFits, HoldsPair, GatesFit, QubitsFit, AllArityFits,
        AllWithoutFaults;
    if Has(configuration, "n_qubits") {
      IndexFits(configuration.fields["n_qubits"]);
    }
    if HeadFits(configuration) {
      var count: nat := configuration.fields["n_qubits"].n;
      if Has(configuration, "coupling_map") && configuration.fields["coupling_map"].Arr? {
        CouplingAccepted([], configuration.fields["coupling_map"].items, count);
      }
      ConfigurationAccepted(configuration, count);
      if ConfiguredOperations(configuration, count).Ok? {
        OperationsAccepted(units, configuration, properties, count);
      }
    }
  }

  lemma IndexFits(j: Json)
    ensures Index(j).Ok? <==> j.Int? && 0 <= j.n < 0xFFFF_FFFF_FFFF_FC00
    ensures Index(j).Ok? ==> j == Int(Index(j).value)
    ensures Index(j).Err? ==> Index(j) == Err(Fatal)
  {
  }

  lemma OperationsAccepted(units: Units, configuration: Json, properties: Json, count: nat)
    requires count > 0 && ConfiguredOperations(configuration, count).Ok?
    ensures var operations := ConfiguredOperations(configuration, count).value; var r := Surveyed(units, operations, properties, count);
      && (r.Ok? <==> QubitsFit(properties, count)) && (r.Err? ==> r == Err(Fatal))
      && (r.Ok? ==>
            && (Collected(units, r.value, properties, count).Ok? <==> GatesFit(units, operations, properties, count))
            && (Collected(units, r.value, properties, count).Ok? ==> AllArityFits(Collected(units, r.value, properties, count).value.operations))
            && (Collected(units, r.value, properties, count).Err? ==> Collected(units, r.value, properties, count) == Err(Fatal)))
  {
    hide ConfiguredOperations, Surveyed, Collected, QubitsFit, GatesFit, AllArityFits, Noted, GoodOperation, ConfiguredTuples, SameButCalibrations;
    var operations := ConfiguredOperations(configuration, count).value;
    ConfigurationAccepted(configuration, count);
    QubitsAccepted(units, operations, properties, count);
    ConfiguredGood(configuration, count);
    ConfiguredExact(configuration, count);
    if Surveyed(units, operations, properties, count).Ok? {
      var survey := Surveyed(units, operations, properties, count).value;
      SurveyedSame(units, operations, properties, count);
      SurveyedExact(units, operations, properties, count);
      SameButCalibrationsGood(operations, survey.operations, count);
      CollectedAccepted(units, operations, survey, properties, count);
    }
  }
}
