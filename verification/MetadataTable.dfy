/** Which operations the support table of src/Metadata.cpp holds, in which order,
    and what it says of each site, read directly off the documents. */
module MetadataTable {
  import opened Common
  import opened JsonModel
  import opened Metadata
  import opened MetadataSound
  import opened MetadataExact
  import A = MetadataAccepts
  import F = MetadataFields

  function NameList(operations: seq<Operation>): (names: seq<string>)
    ensures |names| == |operations|
    ensures forall k :: 0 <= k < |operations| ==> names[k] == operations[k].name
  {
    seq(|operations|, k requires 0 <= k < |operations| => operations[k].name)
  }

  /** The entries of a list of texts. */
  function Texts(items: seq<Json>): seq<string> {
    if items == [] then [] else [if items[0].Str? then items[0].s else ""] + Texts(items[1..])
  }

  /** The three instructions, each where it is first listed, unless the basis has
      it. */
  function Added(basis: seq<string>, listed: seq<string>): seq<string> {
    if listed == [] then []
    else
      var n := |listed| - 1;
      Added(basis, listed[..n])
      + if listed[n] in {"measure", "reset", "if_else"} && listed[n] !in basis && listed[n] !in listed[..n] then [listed[n]] else []
  }

  /** The operations of the table by name, in order. */
  function TableNames(configuration: Json): seq<string>
    requires Has(configuration, "basis_gates") && configuration.fields["basis_gates"].Arr?
  {
    var basis := Texts(configuration.fields["basis_gates"].items);
    if Has(configuration, "supported_instructions") && configuration.fields["supported_instructions"].Arr?
    then basis + Added(basis, Texts(configuration.fields["supported_instructions"].items))
    else basis
  }

  lemma {:induction false} AddedMembers(basis: seq<string>, listed: seq<string>)
    ensures forall name :: name in Added(basis, listed) <==> name in listed && name in {"measure", "reset", "if_else"} && name !in basis
  {
    if listed != [] {
      AddedMembers(basis, listed[..|listed| - 1]);
    }
  }

  lemma {:induction false} BasisNamed(operations: seq<Operation>, basis: seq<Json>, gates: seq<Json>, count: nat)
    requires BasisFrom(operations, basis, gates, count).Ok?
    ensures NameList(BasisFrom(operations, basis, gates, count).value) == NameList(operations) + Texts(basis)
    decreases |basis|
  {
    hide DefineFrom, OperationNames, GoodOperation, NameList;
    if basis != [] {
      var blank := Unsupported(basis[0].s);
      UnsupportedGood(basis[0].s, count);
      DefineFromGood(blank, false, gates, count);
      var operation := DefineFrom(blank, false, gates, count).value;
      BasisNamed(operations + [operation], basis[1..], gates, count);
      NameListNext(operations, operation);
      assert Texts(basis) == [basis[0].s] + Texts(basis[1..]);
      hide Texts;
      assert NameList(operations) + ([basis[0].s] + Texts(basis[1..])) == NameList(operations) + [basis[0].s] + Texts(basis[1..]);
    }
  }

  /** The operations after one more listed instruction. */
  function WithInstruction(operations: seq<Operation>, name: string, count: nat): seq<Operation> {
    if name !in {"measure", "reset", "if_else"} || name in OperationNames(operations) then operations
    else operations + [Instruction(name, count)]
  }

  lemma {:induction false} InstructionsNamed(operations: seq<Operation>, basis: seq<string>, done: seq<string>, items: seq<Json>, count: nat)
    requires InstructionsFrom(operations, items, count).Ok?
    requires NameList(operations) == basis + Added(basis, done)
    ensures NameList(InstructionsFrom(operations, items, count).value) == basis + Added(basis, done + Texts(items))
    decreases |items|
  {
    hide Added, NameList, OperationNames, Instruction;
    if items == [] {
      assert done + Texts(items) == done;
    } else {
      var name := items[0].s;
      var next := WithInstruction(operations, name, count);
      assert InstructionsFrom(operations, items, count) == InstructionsFrom(next, items[1..], count);
      InstructionNamed(operations, basis, done, name, count);
      hide InstructionsFrom, WithInstruction;
      InstructionsNamed(next, basis, done + [name], items[1..], count);
      assert Texts(items) == [name] + Texts(items[1..]);
      hide Texts;
      assert done + ([name] + Texts(items[1..])) == done + [name] + Texts(items[1..]);
    }
  }

  lemma InstructionNamed(operations: seq<Operation>, basis: seq<string>, done: seq<string>, name: string, count: nat)
    requires NameList(operations) == basis + Added(basis, done)
    ensures NameList(WithInstruction(operations, name, count)) == basis + Added(basis, done + [name])
  {
    AddedMembers(basis, done);
    AddedNext(basis, done, name);
    NameListed(operations, name);
    NameListNext(operations, Instruction(name, count));
    hide Added, NameList, OperationNames;
  }

  lemma AddedNext(basis: seq<string>, done: seq<string>, name: string)
    ensures Added(basis, done + [name]) ==
      Added(basis, done) + if name in {"measure", "reset", "if_else"} && name !in basis && name !in done then [name] else []
  {
    assert (done + [name])[..|done|] == done;
  }

  lemma NameListed(operations: seq<Operation>, name: string)
    ensures name in OperationNames(operations) <==> name in NameList(operations)
  {
    var names := NameList(operations);
    if name in names {
      var k :| 0 <= k < |names| && names[k] == name;
      assert operations[k].name == name;
    }
  }

  lemma NameListNext(operations: seq<Operation>, operation: Operation)
    ensures NameList(operations + [operation]) == NameList(operations) + [operation.name]
  {
  }

  lemma ConfiguredNamed(configuration: Json, count: nat)
    requires ConfiguredOperations(configuration, count).Ok?
    ensures Has(configuration, "basis_gates") && configuration.fields["basis_gates"].Arr?
    ensures NameList(ConfiguredOperations(configuration, count).value) == TableNames(configuration)
  {
    hide BasisFrom, InstructionsFrom, Added;
    var items, gates := configuration.fields["basis_gates"].items, configuration.fields["gates"].items;
    BasisNamed([], items, gates, count);
    var operations := BasisFrom([], items, gates, count).value;
    assert NameList([]) + Texts(items) == Texts(items);
    if Has(configuration, "supported_instructions") {
      NothingAdded(Texts(items));
      InstructionsNamed(operations, Texts(items), [], configuration.fields["supported_instructions"].items, count);
      assert [] + Texts(configuration.fields["supported_instructions"].items) == Texts(configuration.fields["supported_instructions"].items);
    }
  }

  lemma NothingAdded(basis: seq<string>)
    ensures basis + Added(basis, []) == basis
  {
  }

  /** What a table says besides its operations' tuples: its name and version, the
      distinct pairs of its coupling map in order, its operations by name, first the
      basis gates in order and then the instructions added, and for every qubit with
      properties the times, the fault and the readout they give. */
  lemma TableExact(units: Units, configuration: Json, properties: Json)
    requires Parsed(units, configuration, properties).Ok?
    ensures Has(configuration, "basis_gates") && configuration.fields["basis_gates"].Arr?
    ensures var m := Parsed(units, configuration, properties).value; var qubits := QubitsOf(properties);
      && configuration.Obj? && "backend_name" in configuration.fields && configuration.fields["backend_name"] == Str(m.name)
      && "backend_version" in configuration.fields && configuration.fields["backend_version"] == Str(m.version)
      && "n_qubits" in configuration.fields && configuration.fields["n_qubits"] == Int(|m.sites|)
      && "coupling_map" in configuration.fields && configuration.fields["coupling_map"].Arr?
      && (forall i :: 0 <= i < |configuration.fields["coupling_map"].items| ==> A.HoldsPair(configuration.fields["coupling_map"].items[i], |m.sites|))
      && m.coupling == Firsts(Tuples(configuration.fields["coupling_map"].items, |m.sites|))
      && NameList(m.operations) == TableNames(configuration)
      && |qubits| <= |m.sites|
      && (forall i :: |qubits| <= i < |m.sites| ==> m.sites[i] == Site(i, None, None))
      && forall i :: 0 <= i < |qubits| ==>
           && qubits[i].Arr? && ReadingOf(units, qubits, i).Some?
           && F.Reads(units, i, qubits[i].items, ReadingOf(units, qubits, i).value)
           && m.sites[i] == Site(i, F.LastDuration(units, qubits[i].items, "T1"), F.LastDuration(units, qubits[i].items, "T2"))
  {
    HeadExact(units, configuration, properties);
    SitesExact(units, configuration, properties);
    hide CouplingFrom, ConfiguredOperations, Surveyed, Collected, Working, ReadingOf, QubitsOf, TableNames, Complete, Tuples, F.Reads;
    var count := Index(configuration.fields["n_qubits"]).value;
    CollectedNames(units, configuration, properties, count);
    ConfiguredNamed(configuration, count);
  }

  lemma HeadExact(units: Units, configuration: Json, properties: Json)
    requires Parsed(units, configuration, properties).Ok?
    ensures var m := Parsed(units, configuration, properties).value;
      && configuration.Obj? && "backend_name" in configuration.fields && configuration.fields["backend_name"] == Str(m.name)
      && "backend_version" in configuration.fields && configuration.fields["backend_version"] == Str(m.version)
      && "n_qubits" in configuration.fields && configuration.fields["n_qubits"] == Int(|m.sites|)
      && "coupling_map" in configuration.fields && configuration.fields["coupling_map"].Arr?
      && (forall i :: 0 <= i < |configuration.fields["coupling_map"].items| ==> A.HoldsPair(configuration.fields["coupling_map"].items[i], |m.sites|))
      && m.coupling == Firsts(Tuples(configuration.fields["coupling_map"].items, |m.sites|))
  {
    hide CouplingFrom, ConfiguredOperations, Surveyed, Collected, Working, A.HoldsPair, Tuples;
    A.IndexFits(configuration.fields["n_qubits"]);
    var count := Index(configuration.fields["n_qubits"]).value;
    SurveyedSame(units, ConfiguredOperations(configuration, count).value, properties, count);
    var items := configuration.fields["coupling_map"].items;
    A.CouplingAccepted([], items, count);
    assert Firsts<Sites>([]) == [];
    assert [] + Tuples(items, count) == Tuples(items, count);
  }

  lemma SitesExact(units: Units, configuration: Json, properties: Json)
    requires Parsed(units, configuration, properties).Ok?
    ensures var m := Parsed(units, configuration, properties).value; var qubits := QubitsOf(properties);
      && |qubits| <= |m.sites|
      && (forall i :: |qubits| <= i < |m.sites| ==> m.sites[i] == Site(i, None, None))
      && forall i :: 0 <= i < |qubits| ==>
           && qubits[i].Arr? && ReadingOf(units, qubits, i).Some?
           && F.Reads(units, i, qubits[i].items, ReadingOf(units, qubits, i).value)
           && m.sites[i] == Site(i, F.LastDuration(units, qubits[i].items, "T1"), F.LastDuration(units, qubits[i].items, "T2"))
  {
    var count := Index(configuration.fields["n_qubits"]).value;
    var operations := ConfiguredOperations(configuration, count).value;
    hide CouplingFrom, ConfiguredOperations, Surveyed, Collected, Working, FaultyQubit, Measured, QubitsOf, Complete, ReadQubit;
    SurveyedSame(units, operations, properties, count);
    CollectionComplete(units, configuration, properties, count);
    QubitsFit(units, operations, properties, count);
    var qubits := QubitsOf(properties);
    forall i | 0 <= i < |qubits| && ReadingOf(units, qubits, i).Some?
      ensures qubits[i].Arr? && F.Reads(units, i, qubits[i].items, ReadingOf(units, qubits, i).value)
    {
      F.QubitExact(units, i, qubits[i]);
    }
  }

  // ----- arities and parameters

  /** How many parameters an operation has: as many as its gate lists, none for the
      instructions added, and unknown for branching. */
  function ParametersFor(basis: seq<Json>, gates: seq<Json>, name: string): Option<nat> {
    if Str(name) in basis then A.ParametersOf(gates, name) else if name == "if_else" then None else Some(0)
  }

  ghost predicate Signed(operations: seq<Operation>, basis: seq<Json>, gates: seq<Json>) {
    forall k :: 0 <= k < |operations| ==> operations[k].parameters == ParametersFor(basis, gates, operations[k].name)
  }

  lemma {:induction false} BasisSigned(operations: seq<Operation>, all: seq<Json>, basis: seq<Json>, gates: seq<Json>, count: nat)
    requires Signed(operations, all, gates) && BasisFrom(operations, basis, gates, count).Ok?
    requires forall i :: 0 <= i < |basis| ==> basis[i] in all
    ensures Signed(BasisFrom(operations, basis, gates, count).value, all, gates)
    decreases |basis|
  {
    hide DefineFrom, OperationNames, A.ParametersOf, A.ArityFits, A.GateNames, A.DefinedWell;
    if basis != [] {
      A.DefineFromAccepted(Unsupported(basis[0].s), gates, count);
      BasisSigned(operations + [DefineFrom(Unsupported(basis[0].s), false, gates, count).value], all, basis[1..], gates, count);
    }
  }

  lemma {:induction false} InstructionsSigned(operations: seq<Operation>, items: seq<Json>, basis: seq<Json>, gates: seq<Json>, count: nat)
    requires Signed(operations, basis, gates) && InstructionsFrom(operations, items, count).Ok?
    requires forall name :: Str(name) in basis ==> name in OperationNames(operations)
    ensures Signed(InstructionsFrom(operations, items, count).value, basis, gates)
    decreases |items|
  {
    hide OperationNames, A.ParametersOf;
    if items != [] {
      var name := items[0].s;
      var next := WithInstruction(operations, name, count);
      NamesAppend(operations, Instruction(name, count));
      InstructionsSigned(next, items[1..], basis, gates, count);
    }
  }

  lemma ConfiguredSigned(configuration: Json, count: nat)
    requires ConfiguredOperations(configuration, count).Ok?
    ensures configuration.Obj? && "basis_gates" in configuration.fields && configuration.fields["basis_gates"].Arr?
    ensures "gates" in configuration.fields && configuration.fields["gates"].Arr?
    ensures Signed(ConfiguredOperations(configuration, count).value, configuration.fields["basis_gates"].items, configuration.fields["gates"].items)
  {
    hide BasisFrom, InstructionsFrom, Signed, OperationNames, Listed;
    var basis, gates := configuration.fields["basis_gates"].items, configuration.fields["gates"].items;
    NothingSigned(basis, gates, count);
    BasisSigned([], basis, basis, gates, count);
    BasisExact([], basis, gates, count);
    if Has(configuration, "supported_instructions") {
      InstructionsSigned(BasisFrom([], basis, gates, count).value, configuration.fields["supported_instructions"].items, basis, gates, count);
    }
  }

  lemma NothingSigned(basis: seq<Json>, gates: seq<Json>, count: nat)
    ensures Signed([], basis, gates) && Listed([], gates, count)
  {
  }

  /** An operation's parameters are those of its gate, and its arity is the size of
      the tuples it has before faults are removed. */
  lemma SignaturesExact(units: Units, configuration: Json, properties: Json, k: nat)
    requires Parsed(units, configuration, properties).Ok? && k < |Parsed(units, configuration, properties).value.operations|
    ensures ConfiguredOperations(configuration, |Parsed(units, configuration, properties).value.sites|).Ok?
    ensures Has(configuration, "basis_gates") && configuration.fields["basis_gates"].Arr?
    ensures Has(configuration, "gates") && configuration.fields["gates"].Arr?
    ensures var m := Parsed(units, configuration, properties).value; var operation := m.operations[k];
      var tuples := SupportedTuples(units, configuration, properties, operation.name, |m.sites|);
      && operation.parameters == ParametersFor(configuration.fields["basis_gates"].items, configuration.fields["gates"].items, operation.name)
      && operation.arity == (if tuples == [] then None else Some(|tuples[0]|))
  {
    hide CouplingFrom, ConfiguredOperations, Surveyed, Collected, SupportedTuples, CalibrationOf, CalibratedTuples, Working, A.GatesFit,
        A.QubitsFit, A.ParametersOf;
    var count := Index(configuration.fields["n_qubits"]).value;
    SurveyedSame(units, ConfiguredOperations(configuration, count).value, properties, count);
    CollectionComplete(units, configuration, properties, count);
    A.OperationsAccepted(units, configuration, properties, count);
    CollectedNames(units, configuration, properties, count);
    ConfiguredSigned(configuration, count);
    var survey := Surveyed(units, ConfiguredOperations(configuration, count).value, properties, count).value;
    var operation := Collected(units, survey, properties, count).value.operations[k];
    assert A.ArityFits(operation);
    assert Complete(units, configuration, properties, operation, count);
    hide Complete;
  }

  lemma QubitsFit(units: Units, operations: seq<Operation>, properties: Json, count: nat)
    requires Surveyed(units, operations, properties, count).Ok?
    ensures |QubitsOf(properties)| <= count
  {
    hide SurveyFrom;
  }

  lemma CollectedNames(units: Units, configuration: Json, properties: Json, count: nat)
    requires ConfiguredOperations(configuration, count).Ok?
    requires Surveyed(units, ConfiguredOperations(configuration, count).value, properties, count).Ok?
    requires var survey := Surveyed(units, ConfiguredOperations(configuration, count).value, properties, count).value;
      Collected(units, survey, properties, count).Ok?
    ensures var operations := ConfiguredOperations(configuration, count).value;
      var survey := Surveyed(units, operations, properties, count).value;
      var collected := Collected(units, survey, properties, count).value.operations;
      && NameList(collected) == NameList(operations)
      && forall k :: 0 <= k < |collected| ==> collected[k].name == operations[k].name && collected[k].parameters == operations[k].parameters
  {
    hide GoodOperation, ConfiguredOperations, Surveyed, Collected, ConfiguredTuples, OperationGathered, Measured, ReadingOf, FaultyQubit;
    var operations := ConfiguredOperations(configuration, count).value;
    ConfiguredGood(configuration, count);
    ConfiguredExact(configuration, count);
    SurveyedSame(units, operations, properties, count);
    SurveyedExact(units, operations, properties, count);
    var survey := Surveyed(units, operations, properties, count).value;
    SameButCalibrationsGood(operations, survey.operations, count);
    CollectedExact(units, survey, properties, count);
    var collected := Collected(units, survey, properties, count).value.operations;
    forall k | 0 <= k < |collected| ensures collected[k].name == survey.operations[k].name
        && collected[k].parameters == survey.operations[k].parameters {
      GatheredName(units, survey.operations[k], GatesOf(properties), collected[k], count);
    }
  }

  lemma GatheredName(units: Units, before: Operation, done: seq<Json>, after: Operation, count: nat)
    requires OperationGathered(units, before, done, after, count)
    ensures after.name == before.name && after.parameters == before.parameters
  {
  }
}
