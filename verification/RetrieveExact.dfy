/** Which documents a handle can be retrieved from (src/Job.cpp), and the handle that
    each gives. */
module RetrieveExact {
  import opened Common
  import opened Http
  import opened JsonModel
  import opened Qpy
  import opened JobSpec
  import opened Retrieval
  import opened Replies
  import opened SettersExact

  // ----- one entry of a Sampler job

  predicate Unbound(j: Json) {
    j == Null || j == Arr([]) || j == Obj(map[])
  }

  /** An entry that holds this program in this format, with these shots. */
  ghost predicate HoldsProgram(lib: Library, pub: Json, format: Format, shots: nat, source: string) {
    && pub.Arr? && |pub.items| == 3 && Unbound(pub.items[1]) && pub.items[2] == Int(shots) && 0 < shots < 0x1_0000_0000_0000_0000
    && var circuit := pub.items[0];
    if format == Qasm3 then circuit == Str(source)
    else
      && format == QpyFile && Says(circuit, "__type__", "QuantumCircuit")
      && "__value__" in circuit.fields && circuit.fields["__value__"].Str?
      && Restored(lib.zlib, circuit.fields["__value__"].s) == Ok(source)
  }

  lemma EntryExact(lib: Library, pub: Json, format: Format, shots: nat, source: string)
    ensures SourceOf(lib, pub, format, shots) == Ok(source) <==> HoldsProgram(lib, pub, format, shots, source)
  {
    hide Restored;
  }

  lemma {:induction false} EntriesExact(lib: Library, pubs: seq<Json>, format: Format, shots: nat, sources: seq<string>)
    ensures SourcesOf(lib, pubs, format, shots) == Ok(sources) <==>
      |sources| == |pubs| && forall k :: 0 <= k < |pubs| ==> HoldsProgram(lib, pubs[k], format, shots, sources[k])
  {
    hide SourceOf, HoldsProgram;
    if pubs != [] {
      var n := |pubs| - 1;
      if |sources| == |pubs| {
        EntriesExact(lib, pubs[..n], format, shots, sources[..n]);
        EntryExact(lib, pubs[n], format, shots, sources[n]);
        assert sources == sources[..n] + [sources[n]];
        assert forall k :: 0 <= k < n ==> sources[..n][k] == sources[k] && pubs[..n][k] == pubs[k];
      }
    }
  }

  // ----- the parameters

  /** Parameters of the known version, not for the Qiskit client, with entries that
      all hold programs of one format and as many shots, within ten million
      executions; every program can be read. */
  ghost predicate DescribesSampler(lib: Library, blank: JobState, params: Json, r: JobState) {
    && params.Obj?
    && "version" in params.fields && (params.fields["version"] == Int(2) || params.fields["version"] == Float(2.0))
    && "support_qiskit" in params.fields && params.fields["support_qiskit"] == Bool(false)
    && "pubs" in params.fields && params.fields["pubs"].Arr?
    && var pubs := params.fields["pubs"].items;
    && pubs != [] && |r.programs| == |pubs| && |pubs| * r.shots <= 10_000_000
    && (r.format == Some(Qasm3) || r.format == Some(QpyFile))
    && (forall k :: 0 <= k < |pubs| ==> HoldsProgram(lib, pubs[k], r.format.value, r.shots, r.programs[k]))
    && |r.registers| == |r.programs|
    && (forall k :: 0 <= k < |pubs| ==> LayoutOf(r.format.value, r.programs[k], blank.qubits) == Ok(r.registers[k]))
    && r == blank.(programs := r.programs, registers := r.registers, format := r.format, shots := r.shots, samplerOptionsSet := true)
  }

  /** Parameters that the library dumps and that are the envelope of a program. */
  ghost predicate DescribesExecutor(lib: Library, blank: JobState, params: Json, r: JobState) {
    && lib.dump(params).Some? && lib.parse(lib.dump(params).value).Some?
    && IsEnvelope(lib.parse(lib.dump(params).value).value, r.shots)
    && r == blank.(programs := [lib.dump(params).value], format := Some(Executor), shots := r.shots)
  }

  /** The first entry gives the format and the shots. */
  ghost predicate Leads(params: Json, format: Format, shots: nat) {
    && params.Obj? && "pubs" in params.fields && params.fields["pubs"].Arr? && params.fields["pubs"].items != []
    && var first := params.fields["pubs"].items[0];
    && first.Arr? && |first.items| == 3 && first.items[2] == Int(shots) && 0 < shots < 0x1_0000_0000_0000_0000
    && format == if first.items[0].Str? then Qasm3 else QpyFile
  }

  predicate IsHeaded(params: Json) {
    && params.Obj?
    && "version" in params.fields && (params.fields["version"] == Int(2) || params.fields["version"] == Float(2.0))
    && "support_qiskit" in params.fields && params.fields["support_qiskit"] == Bool(false)
  }

  function WithSources(lib: Library, blank: JobState, format: Format, shots: nat, sources: Result<seq<string>>): Result<JobState> {
    if sources.Err? then Err(sources.error)
    else WithPrograms(lib, blank.(shots := shots, samplerOptionsSet := true), format, sources.value)
  }

  lemma SamplerUnfold(lib: Library, blank: JobState, params: Json)
    requires blank == NewJob(blank.backend, blank.qubits)
    ensures SamplerJob(lib, blank, params).Ok? ==> IsHeaded(params) && exists format, shots :: Leads(params, format, shots)
    ensures forall format, shots :: Leads(params, format, shots) && IsHeaded(params) ==>
      var pubs := params.fields["pubs"].items;
      SamplerJob(lib, blank, params) ==
      if |pubs| * shots > 10_000_000 then Err(NotSupported)
      else WithSources(lib, blank, format, shots, SourcesOf(lib, pubs, format, shots))
  {
    hide SourcesOf, WithPrograms, DefaultDynamicalDecoupling;
    if SamplerJob(lib, blank, params).Ok? {
      var first := params.fields["pubs"].items[0];
      assert Leads(params, FormatOf(first.items[0]), PositiveInteger(first.items[2]).value);
    }
    forall format, shots | Leads(params, format, shots) && IsHeaded(params)
      ensures CheckExecutions(|params.fields["pubs"].items|, shots) ==
              if |params.fields["pubs"].items| * shots > 10_000_000 then Err(NotSupported) else Ok(())
      ensures |params.fields["pubs"].items| * shots <= 10_000_000 ==>
        WithShots(blank, shots) == Ok(blank.(shots := shots, samplerOptionsSet := true))
    {
      var count := |params.fields["pubs"].items|;
      Product(count, shots);
      Product(1, shots);
      MulLe(1, count, shots);
    }
  }

  lemma SamplerExact(lib: Library, blank: JobState, params: Json, r: JobState)
    requires blank == NewJob(blank.backend, blank.qubits)
    ensures SamplerJob(lib, blank, params) == Ok(r) <==> DescribesSampler(lib, blank, params, r)
  {
    SamplerUnfold(lib, blank, params);
    if SamplerJob(lib, blank, params) == Ok(r) {
      var format, shots :| Leads(params, format, shots);
      SamplerRead(lib, blank, params, format, shots, r);
    }
    if DescribesSampler(lib, blank, params, r) {
      EntryLeads(lib, params, r);
      SamplerRead(lib, blank, params, r.format.value, r.shots, r);
    }
    hide SamplerJob, DescribesSampler;
  }

  lemma EntryLeads(lib: Library, params: Json, r: JobState)
    requires exists blank :: DescribesSampler(lib, blank, params, r)
    ensures r.format.Some? && Leads(params, r.format.value, r.shots)
  {
    hide Restored, LayoutOf;
    assert HoldsProgram(lib, params.fields["pubs"].items[0], r.format.value, r.shots, r.programs[0]);
  }

  lemma SamplerRead(lib: Library, blank: JobState, params: Json, format: Format, shots: nat, r: JobState)
    requires blank == NewJob(blank.backend, blank.qubits) && Leads(params, format, shots) && IsHeaded(params)
    ensures SamplerJob(lib, blank, params) == Ok(r) <==> DescribesSampler(lib, blank, params, r) && r.format == Some(format) && r.shots == shots
  {
    SamplerUnfold(lib, blank, params);
    var pubs := params.fields["pubs"].items;
    var sources := SourcesOf(lib, pubs, format, shots);
    EntriesExact(lib, pubs, format, shots, if sources.Ok? then sources.value else []);
    EntriesExact(lib, pubs, format, shots, r.programs);
    ProgramsExact(lib, blank.(shots := shots, samplerOptionsSet := true), format, if sources.Ok? then sources.value else [], r);
    hide SourcesOf, WithPrograms, SamplerJob, LayoutOf, HoldsProgram, IsEnvelope, DefaultDynamicalDecoupling;
  }

  lemma ExecutorExact(lib: Library, blank: JobState, params: Json, r: JobState)
    requires blank == NewJob(blank.backend, blank.qubits)
    ensures ExecutorJob(lib, blank, params) == Ok(r) <==> DescribesExecutor(lib, blank, params, r)
  {
    if lib.dump(params).Some? {
      ProgramsExact(lib, blank, Executor, [lib.dump(params).value], r);
    }
    hide WithPrograms, IsEnvelope, DefaultDynamicalDecoupling;
  }

  // ----- the document

  /** The parameters, once more parsed when they are a text. */
  ghost predicate Parameters(lib: Library, data: Json, params: Json) {
    && data.Obj? && "params" in data.fields
    && if data.fields["params"].Str? then lib.parse(data.fields["params"].s) == Some(params) else data.fields["params"] == params
  }

  predicate IsPublic(data: Json) {
    data.Obj? && ("private" in data.fields ==> data.fields["private"] == Bool(false))
  }

  /** A document about this job and backend, not private, of a Sampler or Executor
      program whose parameters describe the handle. */
  ghost predicate Describes(lib: Library, blank: JobState, id: string, data: Json, r: JobState) {
    && Says(data, "id", id) && Says(data, "backend", blank.backend) && IsPublic(data) && "program" in data.fields
    && ((Says(data.fields["program"], "id", "sampler") && exists params :: Parameters(lib, data, params) && DescribesSampler(lib, blank, params, r))
        || (Says(data.fields["program"], "id", "executor") && exists params :: Parameters(lib, data, params) && DescribesExecutor(lib, blank,
            params, r)))
  }

  lemma DescribedExact(lib: Library, blank: JobState, id: string, data: Json, r: JobState)
    requires blank == NewJob(blank.backend, blank.qubits)
    ensures Described(lib, blank, id, data) == Ok(r) <==> Describes(lib, blank, id, data, r)
  {
    if data.Obj? && "params" in data.fields && Unwrapped(lib, data.fields["params"]).Ok? {
      var params := Unwrapped(lib, data.fields["params"]).value;
      SamplerExact(lib, blank, params, r);
      ExecutorExact(lib, blank, params, r);
      assert Parameters(lib, data, params);
      assert forall other :: Parameters(lib, data, other) ==> other == params;
    }
    hide SamplerJob, ExecutorJob, DescribesSampler, DescribesExecutor, DefaultDynamicalDecoupling;
  }

  /** Another job or backend is an invalid argument; another kind of program, or a
      private job, is not supported. */
  lemma DescribedRefused(lib: Library, blank: JobState, id: string, data: Json)
    ensures Has(data, "id") && Has(data, "backend") && !(Says(data, "id", id) && Says(data, "backend", blank.backend)) ==>
      Described(lib, blank, id, data) == Err(InvalidArgument)
    ensures Says(data, "id", id) && Says(data, "backend", blank.backend) && "program" in data.fields && Has(data.fields["program"], "id") ==>
      var program := data.fields["program"];
      if !Says(program, "id", "sampler") && !Says(program, "id", "executor") then Described(lib, blank, id, data) == Err(NotSupported)
      else if "private" in data.fields && data.fields["private"] == Bool(true) then Described(lib, blank, id, data) == Err(NotSupported)
      else if !IsPublic(data) then Described(lib, blank, id, data) == Err(Fatal)
      else true
  {
    hide SamplerJob, ExecutorJob;
  }

  /** A handle is retrieved exactly from a document about the job with this identifier
      that describes it and reports a known status; it then has that status and can
      never be submitted. Private jobs and jobs of other backends are refused. */
  lemma RetrieveExact(lib: Library, backend: string, qubits: nat, id: string, answer: Answers, job: JobState)
    ensures var (result, asks) := Retrieve(lib, NewJob(backend, qubits), id, answer); var ask := Ask("/v1/jobs/" + id, false, "");
      if !IsName(id) then result == Err(InvalidArgument) && asks == []
      else
        && asks == [ask]
        && (result == Ok(job) <==>
              exists data, r :: Brings(lib, answer(ask), data) && Describes(lib, NewJob(backend, qubits), id, data, r)
                && Reports(data, job.status) && job == r.(id := id, attempted := true, status := job.status))
        && ((forall data :: !Brings(lib, answer(ask), data)) ==> result == Err(Trouble(answer(ask))))
  {
    IdentifierExact(id);
    var blank, reply := NewJob(backend, qubits), answer(Ask("/v1/jobs/" + id, false, ""));
    assert Path(id) == "/v1/jobs/" + id;
    hide IsIdentifier, IsName, DefaultDynamicalDecoupling;
    RetrievedExact(lib, blank, id, reply, job);
  }

  lemma RetrievedExact(lib: Library, blank: JobState, id: string, reply: Result<Response>, job: JobState)
    requires blank == NewJob(blank.backend, blank.qubits)
    ensures RetrievedJob(lib, blank, id, reply) == Ok(job) <==>
      exists data, r :: Brings(lib, reply, data) && Describes(lib, blank, id, data, r)
        && Reports(data, job.status) && job == r.(id := id, attempted := true, status := job.status)
    ensures (forall data :: !Brings(lib, reply, data)) ==> RetrievedJob(lib, blank, id, reply) == Err(Trouble(reply))
  {
    hide Fetched, Described, ParseStatus, Describes, Reports, DefaultDynamicalDecoupling;
    var fetched := Fetched(lib, reply);
    FetchedExact(lib, reply, if fetched.Ok? then fetched.value else Null);
    if RetrievedJob(lib, blank, id, reply) == Ok(job) {
      var data := fetched.value;
      DescribedExact(lib, blank, id, data, Described(lib, blank, id, data).value);
      StatusExact(data, job.status);
    }
    if data, r :| Brings(lib, reply, data) && Describes(lib, blank, id, data, r)
                  && Reports(data, job.status) && job == r.(id := id, attempted := true, status := job.status) {
      FetchedExact(lib, reply, data);
      DescribedExact(lib, blank, id, data, r);
      StatusExact(data, job.status);
    }
  }
}
