/** When a job handle accepts programs and options (src/Job.cpp), and what it holds
    then. */
module SettersExact {
  import opened Common
  import opened JsonModel
  import opened JobSpec
  import opened Retrieval
  import opened JobRuns
  import opened Replies

  predicate MayConfigure(s: JobState) {
    !s.attempted && s.status == Created
  }

  // ----- programs

  /** The envelope of an Executor program that asks for this many shots. */
  predicate IsEnvelope(params: Json, shots: nat) {
    && Says(params, "schema_version", "v2.0")
    && "quantum_program" in params.fields && params.fields["quantum_program"].Obj?
    && var program := params.fields["quantum_program"].fields;
    && "shots" in program && program["shots"] == Int(shots) && 0 < shots < 0x1_0000_0000_0000_0000
    && "circuits" in program && program["circuits"].Obj?
    && "items" in program && program["items"].Arr? && program["items"].items != []
    && ("options" in params.fields ==> params.fields["options"].Obj?)
  }

  lemma EnvelopeExact(lib: Library, source: string, shots: nat)
    ensures ExecutorShots(lib, source) == Ok(shots) <==> lib.parse(source).Some? && IsEnvelope(lib.parse(source).value, shots)
    ensures ExecutorShots(lib, source).Err? ==>
      ExecutorShots(lib, source) ==
      Err(if lib.parse(source).Some? && Has(lib.parse(source).value, "schema_version")
             && !Says(lib.parse(source).value, "schema_version", "v2.0") then NotSupported else InvalidArgument)
  {
  }

  /** The count and format of the programs, and the limit of ten million executions. */
  predicate Supported(s: JobState, format: Format, count: nat) {
    && count > 0
    && (format == Qasm3 || format == QpyFile || format == Executor)
    && if format == Executor then count == 1 && !s.samplerOptionsSet else s.shots > 0 && count * s.shots <= 10_000_000
  }

  lemma SupportExact(s: JobState, format: Format, count: nat)
    ensures CheckSupport(s, format, count) ==
      if Supported(s, format, count) then Ok(()) else Err(if count == 0 then InvalidArgument else NotSupported)
  {
    if s.shots > 0 {
      Product(count, s.shots);
    }
  }

  /** The programs and what replaces the old ones' layouts and shots. */
  ghost predicate Holds(lib: Library, s: JobState, format: Format, sources: seq<string>, r: JobState) {
    && r == s.(programs := sources, format := Some(format), registers := r.registers, shots := r.shots, cached := None, cachedExecutor := None)
    && if format == Executor then
         && r.registers == [] && |sources| == 1
         && lib.parse(sources[0]).Some? && IsEnvelope(lib.parse(sources[0]).value, r.shots)
       else
         && r.shots == s.shots && |r.registers| == |sources|
         && forall k :: 0 <= k < |sources| ==> LayoutOf(format, sources[k], s.qubits) == Ok(r.registers[k])
  }

  /** Programs are accepted exactly by a handle that may be configured, for a
      supported format and count, when every one can be read. */
  lemma ProgramsExact(lib: Library, s: JobState, format: Format, sources: seq<string>, r: JobState)
    ensures WithPrograms(lib, s, format, sources) == Ok(r) <==>
      MayConfigure(s) && Supported(s, format, |sources|) && Holds(lib, s, format, sources, r)
    ensures !MayConfigure(s) ==> WithPrograms(lib, s, format, sources) == Err(BadState)
    ensures MayConfigure(s) && !Supported(s, format, |sources|) ==>
      WithPrograms(lib, s, format, sources) == Err(if sources == [] then InvalidArgument else NotSupported)
  {
    SupportExact(s, format, |sources|);
    if format == Executor && |sources| == 1 {
      EnvelopeExact(lib, sources[0], r.shots);
    }
    LayoutsExact(format, sources, s.qubits, r.registers);
    hide ExecutorShots, CheckSupport, LayoutsOf, LayoutOf, IsEnvelope;
  }

  /** The first program that cannot be read says why none is accepted. */
  lemma {:induction false} FirstUnreadable(format: Format, sources: seq<string>, qubits: nat)
    ensures LayoutsOf(format, sources, qubits).Err? ==>
      exists k :: 0 <= k < |sources| && LayoutOf(format, sources[k], qubits) == Err(LayoutsOf(format, sources, qubits).error)
        && forall i :: 0 <= i < k ==> LayoutOf(format, sources[i], qubits).Ok?
  {
    hide LayoutOf;
    if sources != [] {
      var n := |sources| - 1;
      FirstUnreadable(format, sources[..n], qubits);
      if LayoutsOf(format, sources[..n], qubits).Ok? {
        LayoutsExact(format, sources[..n], qubits, LayoutsOf(format, sources[..n], qubits).value);
        assert forall i :: 0 <= i < n ==> sources[..n][i] == sources[i];
      } else {
        var k :| 0 <= k < n && LayoutOf(format, sources[..n][k], qubits) == Err(LayoutsOf(format, sources[..n], qubits).error)
          && forall i :: 0 <= i < k ==> LayoutOf(format, sources[..n][i], qubits).Ok?;
        assert sources[k] == sources[..n][k] && forall i :: 0 <= i < k ==> sources[i] == sources[..n][i];
      }
    }
  }

  /** The entry point refuses an empty list and an empty QPY file, and a probe
      changes nothing. */
  lemma ProgramsEntryExact(lib: Library, s: JobState, format: Format, sources: seq<string>, probe: bool)
    ensures ProgramsEntry(lib, s, format, sources, probe) ==
      if sources == [] then Err(InvalidArgument)
      else if !MayConfigure(s) then Err(BadState)
      else if !Supported(s, format, |sources|) then Err(NotSupported)
      else if probe then Ok(s)
      else if format == QpyFile && exists k :: 0 <= k < |sources| && sources[k] == "" then Err(InvalidArgument)
      else WithPrograms(lib, s, format, sources)
  {
    SupportExact(s, format, |sources|);
    hide CheckSupport, WithPrograms, Supported;
  }

  // ----- options

  /** Shots are set within the limit, for the programs set or for one. */
  lemma ShotsExact(s: JobState, shots: nat)
    ensures ShotsEntry(s, Some(shots)) ==
      if !MayConfigure(s) then Err(BadState)
      else if s.format == Some(Executor) then Err(NotSupported)
      else if shots == 0 then Err(InvalidArgument)
      else if shots * (if s.programs == [] then 1 else |s.programs|) > 10_000_000 then Err(NotSupported)
      else Ok(s.(shots := shots, samplerOptionsSet := true))
    ensures ShotsEntry(s, None) ==
      if !MayConfigure(s) then Err(BadState) else if s.format == Some(Executor) then Err(NotSupported) else Ok(s)
  {
    if shots > 0 {
      Product(Max(|s.programs|, 1), shots);
    }
  }

  lemma MaxExecutionTimeExact(s: JobState, seconds: nat)
    ensures MaxExecutionTimeEntry(s, Some(seconds)) ==
      if !MayConfigure(s) then Err(BadState)
      else if seconds == 0 || seconds > 3 * 60 * 60 then Err(InvalidArgument)
      else Ok(s.(maxExecutionTime := seconds))
    ensures MaxExecutionTimeEntry(s, None) == if MayConfigure(s) then Ok(s) else Err(BadState)
  {
  }

  /** The options of dynamical decoupling and the value each has when not given. */
  function Default(key: string): Option<Json> {
    if key == "enable" then Some(Bool(false))
    else if key == "sequence_type" then Some(Str("XX"))
    else if key == "extra_slack_distribution" then Some(Str("middle"))
    else if key == "scheduling_method" then Some(Str("alap"))
    else if key == "skip_reset_qubits" then Some(Bool(false))
    else None
  }

  predicate Allowed(key: string, value: Json) {
    if key == "enable" || key == "skip_reset_qubits" then value.Bool?
    else if key == "sequence_type" then value == Str("XX") || value == Str("XpXm") || value == Str("XY4")
    else if key == "extra_slack_distribution" then value == Str("middle") || value == Str("edges")
    else if key == "scheduling_method" then value == Str("alap") || value == Str("asap")
    else false
  }

  /** Options are accepted exactly when all are known and valid; the handle then holds
      each as given, or with its default. */
  lemma DynamicalDecouplingExact(lib: Library, s: JobState, options: string)
    ensures var r := DynamicalDecouplingEntry(lib, s, Some(options));
      if !MayConfigure(s) then r == Err(BadState)
      else if s.format == Some(Executor) then r == Err(NotSupported)
      else if lib.parse(options).Some? && lib.parse(options).value.Obj?
              && (forall key :: key in lib.parse(options).value.fields ==> Allowed(key, lib.parse(options).value.fields[key])) then
        && r.Ok? && r.value == s.(samplerOptionsSet := true, dynamicalDecoupling := r.value.dynamicalDecoupling)
        && forall key ::
             && (key in r.value.dynamicalDecoupling <==> Default(key).Some?)
             && (key in r.value.dynamicalDecoupling ==>
                   r.value.dynamicalDecoupling[key] ==
                   (if key in lib.parse(options).value.fields then lib.parse(options).value.fields[key] else Default(key).value))
      else r == Err(InvalidArgument)
  {
    OptionsExact();
    DefaultsExact();
    hide IsOption, Allowed, DefaultDynamicalDecoupling, Default;
    if lib.parse(options).Some? && lib.parse(options).value.Obj? {
      var fields := lib.parse(options).value.fields;
      if forall key :: key in fields ==> Allowed(key, fields[key]) {
        AllowedKnown(fields);
      }
    }
  }

  lemma OptionsExact()
    ensures forall key, value :: IsOption(key, value) <==> Allowed(key, value)
  {
  }

  lemma DefaultsExact()
    ensures forall key :: key in DefaultDynamicalDecoupling() <==> Default(key).Some?
    ensures forall key :: key in DefaultDynamicalDecoupling() ==> DefaultDynamicalDecoupling()[key] == Default(key).value
  {
  }

  lemma AllowedKnown(fields: map<string, Json>)
    requires forall key :: key in fields ==> Allowed(key, fields[key])
    ensures forall key :: key in fields ==> Default(key).Some?
  {
  }

  /** A new handle. */
  lemma NewHandle(backend: string, qubits: nat)
    ensures var s := NewJob(backend, qubits);
      && s.backend == backend && s.qubits == qubits && s.shots == 1024 && s.maxExecutionTime == 60
      && s.programs == [] && s.registers == [] && s.format == None && s.id == "" && s.cached == None && s.cachedExecutor == None
      && MayConfigure(s) && !s.samplerOptionsSet
      && forall key ::
           && (key in s.dynamicalDecoupling <==> Default(key).Some?)
           && (key in s.dynamicalDecoupling ==> s.dynamicalDecoupling[key] == Default(key).value)
  {
    DefaultsExact();
    hide DefaultDynamicalDecoupling, Default;
  }
}
