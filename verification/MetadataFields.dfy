/** What the small readers of src/Metadata.cpp accept and return, said of the JSON
    values themselves. */
module MetadataFields {
  import opened Common
  import opened JsonModel
  import opened Metadata

  // ----- indices, tuples and flags

  lemma IndexExact(j: Json, n: nat)
    ensures Index(j) == Ok(n) <==> j == Int(n) && n < 0xFFFF_FFFF_FFFF_FC00
    ensures Index(j).Err? ==> Index(j) == Err(Fatal)
  {
  }

  /** The array holds these indices: at least one, all different, all in range. */
  ghost predicate IsTuple(j: Json, t: Sites, count: nat) {
    && j.Arr? && |t| == |j.items| > 0
    && (forall k :: 0 <= k < |t| ==> j.items[k] == Int(t[k]) && t[k] < count && t[k] < 0xFFFF_FFFF_FFFF_FC00)
    && forall i, k :: 0 <= i < k < |t| ==> t[i] != t[k]
  }

  lemma {:induction false} TupleFromRead(sites: Sites, values: seq<Json>, count: nat) returns (t: Sites)
    requires TupleFrom(sites, values, count).Ok? && Distinct(sites)
    ensures TupleFrom(sites, values, count) == Ok(sites + t) && Distinct(sites + t) && |t| == |values|
    ensures forall k :: 0 <= k < |values| ==> values[k] == Int(t[k]) && t[k] < count && t[k] < 0xFFFF_FFFF_FFFF_FC00
    decreases |values|
  {
    if values == [] {
      t := [];
      assert sites + t == sites;
    } else {
      var site := Index(values[0]).value;
      IndexExact(values[0], site);
      DistinctAppend(sites, site);
      hide Distinct, Index;
      var tail := TupleFromRead(sites + [site], values[1..], count);
      t := [site] + tail;
      assert sites + t == (sites + [site]) + tail;
      assert forall k :: 1 <= k < |values| ==> values[k] == values[1..][k - 1] && t[k] == tail[k - 1];
    }
  }

  lemma DistinctAppend(sites: Sites, site: nat)
    requires Distinct(sites) && site !in sites
    ensures Distinct(sites + [site])
  {
  }

  lemma {:induction false} TupleFromWritten(sites: Sites, values: seq<Json>, count: nat, t: Sites)
    requires |t| == |values| && Distinct(sites + t)
    requires forall k :: 0 <= k < |t| ==> values[k] == Int(t[k]) && t[k] < count && t[k] < 0xFFFF_FFFF_FFFF_FC00
    ensures TupleFrom(sites, values, count) == Ok(sites + t)
    decreases |values|
  {
    if values == [] {
      assert sites + [] == sites;
    } else {
      assert (sites + [t[0]]) + t[1..] == sites + t;
      assert (sites + t)[|sites|] == t[0];
      assert forall i :: 0 <= i < |sites| ==> (sites + t)[i] == sites[i];
      TupleFromWritten(sites + [t[0]], values[1..], count, t[1..]);
    }
  }

  lemma TupleExact(j: Json, count: nat, t: Sites)
    ensures Tuple(j, count) == Ok(t) <==> IsTuple(j, t, count)
    ensures Tuple(j, count).Err? ==> Tuple(j, count) == Err(Fatal)
  {
    TupleFromFatal([], if j.Arr? then j.items else [], count);
    if Tuple(j, count).Ok? {
      var read := TupleFromRead([], j.items, count);
      assert [] + read == read;
    }
    if IsTuple(j, t, count) {
      assert [] + t == t;
      TupleFromWritten([], j.items, count, t);
    }
  }

  lemma {:induction false} TupleFromFatal(sites: Sites, values: seq<Json>, count: nat)
    ensures TupleFrom(sites, values, count).Err? ==> TupleFrom(sites, values, count) == Err(Fatal)
    decreases |values|
  {
    if values != [] && Index(values[0]).Ok? {
      TupleFromFatal(sites + [Index(values[0]).value], values[1..], count);
    }
  }

  predicate IsFlag(parameter: Json, works: bool) {
    && parameter.Obj? && "value" in parameter.fields
    && var value := parameter.fields["value"];
    value == Bool(works) || (if works then value == Int(1) || value == Float(1.0) else value == Int(0) || value == Float(0.0))
  }

  lemma FlagExact(parameter: Json, works: bool)
    ensures Operational(parameter) == Ok(works) <==> IsFlag(parameter, works)
    ensures Operational(parameter).Err? ==> Operational(parameter) == Err(Fatal)
  {
  }

  // ----- named parameters

  predicate Named(parameter: Json, name: string) {
    parameter.Obj? && "name" in parameter.fields && parameter.fields["name"] == Str(name)
  }

  /** Every parameter has a name, and what is called operational is a flag. */
  predicate Readable(list: Json) {
    && list.Arr?
    && forall i :: 0 <= i < |list.items| ==> ReadableOne(list.items[i])
  }

  predicate ReadableOne(parameter: Json) {
    && parameter.Obj? && "name" in parameter.fields && parameter.fields["name"].Str?
    && (Named(parameter, "operational") ==> IsFlag(parameter, true) || IsFlag(parameter, false))
  }

  /** The last parameter of this name. */
  function LastNamed(parameters: seq<Json>, name: string): Option<Json> {
    if parameters == [] then None
    else
      var n := |parameters| - 1;
      if Named(parameters[n], name) then Some(parameters[n]) else LastNamed(parameters[..n], name)
  }

  /** What the last parameter of this name says; None when there is none, or when
      it says nothing. */
  function LastDuration(units: Units, parameters: seq<Json>, name: string): Option<nat> {
    match LastNamed(parameters, name)
    case None => None
    case Some(parameter) => units.duration(parameter)
  }

  /** What the last parameter of this name says that says anything. */
  function LastFidelity(units: Units, parameters: seq<Json>, name: string): Option<real> {
    if parameters == [] then None
    else
      var n := |parameters| - 1;
      if Named(parameters[n], name) && units.fidelity(parameters[n]).Some? then units.fidelity(parameters[n])
      else LastFidelity(units, parameters[..n], name)
  }

  ghost predicate SomeBroken(parameters: seq<Json>) {
    exists i :: 0 <= i < |parameters| && Named(parameters[i], "operational") && IsFlag(parameters[i], false)
  }

  // ----- qubits

  lemma {:induction false} ParametersAppend(units: Units, reading: Reading, parameters: seq<Json>, last: Json)
    ensures ReadParameters(units, reading, parameters + [last]) ==
      match ReadParameters(units, reading, parameters)
      case Err(error) => Err(error)
      case Ok(before) => ReadParameter(units, before, last)
    decreases |parameters|
  {
    hide ReadParameter;
    if parameters == [] {
      assert parameters + [last] == [last] && [last][1..] == [];
      if ReadParameter(units, reading, last).Ok? {
        assert ReadParameters(units, ReadParameter(units, reading, last).value, []) == ReadParameter(units, reading, last);
      }
    } else {
      assert (parameters + [last])[1..] == parameters[1..] + [last];
      if ReadParameter(units, reading, parameters[0]).Ok? {
        ParametersAppend(units, ReadParameter(units, reading, parameters[0]).value, parameters[1..], last);
      }
    }
  }

  /** The site's times, the fault and the readout of a qubit. */
  ghost predicate Reads(units: Units, index: nat, parameters: seq<Json>, reading: Reading) {
    && reading.site == Site(index, LastDuration(units, parameters, "T1"), LastDuration(units, parameters, "T2"))
    && (reading.faulty <==> SomeBroken(parameters))
    && reading.readout ==
         Calibration(LastDuration(units, parameters, "readout_length"), LastFidelity(units, parameters, "readout_error"), true)
  }

  lemma ReadOne(units: Units, index: nat, parameters: seq<Json>, before: Reading, last: Json)
    requires Reads(units, index, parameters, before)
    ensures ReadParameter(units, before, last).Ok? <==> ReadableOne(last)
    ensures ReadParameter(units, before, last).Err? ==> ReadParameter(units, before, last) == Err(Fatal)
    ensures ReadParameter(units, before, last).Ok? ==> Reads(units, index, parameters + [last], ReadParameter(units, before, last).value)
  {
    var all := parameters + [last];
    assert all[..|parameters|] == parameters && all[|parameters|] == last;
    FlagExact(last, true);
    FlagExact(last, false);
    BrokenAppend(parameters, last);
    hide IsFlag, Operational, SomeBroken;
  }

  lemma BrokenAppend(parameters: seq<Json>, last: Json)
    ensures SomeBroken(parameters + [last]) <==> SomeBroken(parameters) || (Named(last, "operational") && IsFlag(last, false))
  {
    hide Named, IsFlag;
    var all := parameters + [last];
    assert forall i :: 0 <= i < |parameters| ==> all[i] == parameters[i];
    assert all[|parameters|] == last;
  }

  lemma {:induction false} ParametersExact(units: Units, index: nat, parameters: seq<Json>)
    ensures var r := ReadParameters(units, Reading(Site(index, None, None), false, BLANK), parameters);
      && (r.Ok? <==> forall i :: 0 <= i < |parameters| ==> ReadableOne(parameters[i]))
      && (r.Ok? ==> Reads(units, index, parameters, r.value))
      && (r.Err? ==> r == Err(Fatal))
  {
    var start := Reading(Site(index, None, None), false, BLANK);
    if parameters != [] {
      var n := |parameters| - 1;
      assert parameters == parameters[..n] + [parameters[n]];
      ParametersExact(units, index, parameters[..n]);
      ParametersAppend(units, start, parameters[..n], parameters[n]);
      var r := ReadParameters(units, start, parameters[..n]);
      if r.Ok? {
        ReadOne(units, index, parameters[..n], r.value, parameters[n]);
      }
      hide ReadParameter, ReadParameters, ReadableOne, Reads;
      assert forall i :: 0 <= i < n ==> parameters[..n][i] == parameters[i];
    }
  }

  /** A qubit can be read exactly when its parameters can, and then says this. */
  lemma QubitExact(units: Units, index: nat, qubit: Json)
    ensures var r := ReadQubit(units, Site(index, None, None), qubit);
      && (r.Ok? <==> Readable(qubit))
      && (r.Ok? ==> Reads(units, index, qubit.items, r.value))
      && (r.Err? ==> r == Err(Fatal))
  {
    if qubit.Arr? {
      ParametersExact(units, index, qubit.items);
    }
  }

  // ----- gates

  lemma {:induction false} CalibrationAppend(units: Units, calibration: Calibration, parameters: seq<Json>, last: Json)
    ensures CalibrationFrom(units, calibration, parameters + [last]) ==
      match CalibrationFrom(units, calibration, parameters)
      case Err(error) => Err(error)
      case Ok(before) => Calibrate(units, before, last)
    decreases |parameters|
  {
    hide Calibrate;
    if parameters == [] {
      assert parameters + [last] == [last] && [last][1..] == [];
      if Calibrate(units, calibration, last).Ok? {
        assert CalibrationFrom(units, Calibrate(units, calibration, last).value, []) == Calibrate(units, calibration, last);
      }
    } else {
      assert (parameters + [last])[1..] == parameters[1..] + [last];
      if Calibrate(units, calibration, parameters[0]).Ok? {
        CalibrationAppend(units, Calibrate(units, calibration, parameters[0]).value, parameters[1..], last);
      }
    }
  }

  /** Duration, fidelity and flag of a gate, each as it was last given. */
  ghost predicate Calibrates(units: Units, parameters: seq<Json>, calibration: Calibration) {
    && calibration.duration == LastDuration(units, parameters, "gate_length")
    && calibration.fidelity == LastFidelity(units, parameters, "gate_error")
    && (calibration.operational <==>
          LastNamed(parameters, "operational").None? || IsFlag(LastNamed(parameters, "operational").value, true))
  }

  lemma CalibrateOne(units: Units, parameters: seq<Json>, before: Calibration, last: Json)
    requires Calibrates(units, parameters, before)
    ensures Calibrate(units, before, last).Ok? <==> ReadableOne(last)
    ensures Calibrate(units, before, last).Err? ==> Calibrate(units, before, last) == Err(Fatal)
    ensures Calibrate(units, before, last).Ok? ==> Calibrates(units, parameters + [last], Calibrate(units, before, last).value)
  {
    var all := parameters + [last];
    assert all[..|parameters|] == parameters && all[|parameters|] == last;
    FlagExact(last, true);
    FlagExact(last, false);
    assert !(IsFlag(last, true) && IsFlag(last, false));
    hide IsFlag, Operational;
  }

  lemma {:induction false} CalibrationExact(units: Units, parameters: seq<Json>)
    ensures var r := CalibrationFrom(units, BLANK, parameters);
      && (r.Ok? <==> forall i :: 0 <= i < |parameters| ==> ReadableOne(parameters[i]))
      && (r.Ok? ==> Calibrates(units, parameters, r.value))
      && (r.Err? ==> r == Err(Fatal))
  {
    if parameters != [] {
      var n := |parameters| - 1;
      assert parameters == parameters[..n] + [parameters[n]];
      CalibrationExact(units, parameters[..n]);
      CalibrationAppend(units, BLANK, parameters[..n], parameters[n]);
      var r := CalibrationFrom(units, BLANK, parameters[..n]);
      if r.Ok? {
        CalibrateOne(units, parameters[..n], r.value, parameters[n]);
      }
      hide Calibrate, CalibrationFrom, ReadableOne, Calibrates;
      assert forall i :: 0 <= i < n ==> parameters[..n][i] == parameters[i];
    }
  }

  /** The gate has a tuple and parameters that can be read. */
  ghost predicate IsGate(gate: Json, t: Sites, count: nat) {
    && gate.Obj? && "qubits" in gate.fields && IsTuple(gate.fields["qubits"], t, count)
    && "parameters" in gate.fields && Readable(gate.fields["parameters"])
  }

  /** A gate's calibration is read exactly when it is well formed, and says this. */
  lemma GateExact(units: Units, gate: Json, count: nat)
    ensures ReadGate(units, gate, count).Ok? <==> exists t :: IsGate(gate, t, count)
    ensures ReadGate(units, gate, count).Ok? ==>
      var entry := ReadGate(units, gate, count).value;
      IsGate(gate, entry.sites, count) && Calibrates(units, gate.fields["parameters"].items, entry.calibration)
    ensures ReadGate(units, gate, count).Err? ==> ReadGate(units, gate, count) == Err(Fatal)
  {
    hide Tuple, CalibrationFrom, IsTuple, Calibrates, ReadableOne;
    if Has(gate, "qubits") {
      var tuple := Tuple(gate.fields["qubits"], count);
      TupleExact(gate.fields["qubits"], count, if tuple.Ok? then tuple.value else []);
      if t :| IsGate(gate, t, count) {
        TupleExact(gate.fields["qubits"], count, t);
      }
      if Has(gate, "parameters") && gate.fields["parameters"].Arr? {
        CalibrationExact(units, gate.fields["parameters"].items);
      }
      if ReadGate(units, gate, count).Ok? {
        assert IsGate(gate, ReadGate(units, gate, count).value.sites, count);
      }
    }
  }
}
