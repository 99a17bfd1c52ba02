/** What a submission sends, and what it makes of the reply (src/Job.cpp). */
module SubmitExact {
  import opened Common
  import opened Http
  import opened JsonModel
  import opened Rewrite
  import opened Qpy
  import opened JobSpec
  import opened Retrieval
  import opened JobRuns
  import opened Replies
  import opened SettersExact

  // ----- what is sent

  /** A program as it is sent: OpenQASM text after the rewrite, or a QPY file inside
      an object. */
  ghost predicate SentAs(lib: Library, format: Format, source: string, circuit: Json) {
    if format == QpyFile then
      && circuit.Obj? && circuit.fields.Keys == {"__type__", "__value__"}
      && Says(circuit, "__type__", "QuantumCircuit") && circuit.fields["__value__"].Str?
      && Transported(lib.zlib, source) == Ok(circuit.fields["__value__"].s)
    else circuit.Str? && Prepared(source) == Ok(circuit.s)
  }

  ghost predicate IsPub(lib: Library, format: Format, source: string, shots: nat, pub: Json) {
    pub.Arr? && |pub.items| == 3 && SentAs(lib, format, source, pub.items[0]) && pub.items[1] == Null && pub.items[2] == Int(shots)
  }

  lemma CircuitSent(lib: Library, format: Format, source: string, circuit: Json)
    ensures Circuit(lib, format, source) == Ok(circuit) <==> SentAs(lib, format, source, circuit)
  {
    hide Prepared, Transported;
    if format == QpyFile && SentAs(lib, format, source, circuit) {
      assert circuit.fields == map["__type__" := Str("QuantumCircuit"), "__value__" := circuit.fields["__value__"]];
    }
  }

  lemma PubSent(lib: Library, format: Format, source: string, shots: nat, pub: Json)
    ensures IsPub(lib, format, source, shots, pub) <==>
      Circuit(lib, format, source).Ok? && pub == Arr([Circuit(lib, format, source).value, Null, Int(shots)])
  {
    hide Circuit, SentAs;
    CircuitSent(lib, format, source, if pub.Arr? && |pub.items| == 3 then pub.items[0] else Null);
    if Circuit(lib, format, source).Ok? {
      CircuitSent(lib, format, source, Circuit(lib, format, source).value);
    }
    if pub.Arr? && |pub.items| == 3 {
      assert pub.items == [pub.items[0], pub.items[1], pub.items[2]];
    }
  }

  lemma {:induction false} PubsSent(lib: Library, format: Format, sources: seq<string>, shots: nat, pubs: seq<Json>)
    ensures Pubs(lib, format, sources, shots) == Ok(pubs) <==>
      |pubs| == |sources| && forall k :: 0 <= k < |sources| ==> IsPub(lib, format, sources[k], shots, pubs[k])
  {
    hide Circuit, IsPub;
    if sources != [] {
      var n := |sources| - 1;
      if |pubs| == |sources| {
        PubsSent(lib, format, sources[..n], shots, pubs[..n]);
        PubSent(lib, format, sources[n], shots, pubs[n]);
        assert pubs == pubs[..n] + [pubs[n]];
        assert forall k :: 0 <= k < n ==> sources[..n][k] == sources[k] && pubs[..n][k] == pubs[k];
      }
    }
  }

  /** The parameters of a Sampler job: every program with the shots, and the options. */
  ghost predicate IsSampler(lib: Library, s: JobState, params: Json)
    requires s.format.Some?
  {
    && params.Obj? && params.fields.Keys == {"version", "support_qiskit", "pubs", "options"}
    && params.fields["version"] == Int(2) && params.fields["support_qiskit"] == Bool(false)
    && params.fields["pubs"].Arr? && |params.fields["pubs"].items| == |s.programs|
    && (forall k :: 0 <= k < |s.programs| ==> IsPub(lib, s.format.value, s.programs[k], s.shots, params.fields["pubs"].items[k]))
    && IsOptions(s, params.fields["options"])
  }

  /** The handle's dynamical decoupling, classified measurement and no twirling. */
  predicate IsOptions(s: JobState, options: Json) {
    && options.Obj? && options.fields.Keys == {"execution", "dynamical_decoupling", "twirling"}
    && options.fields["dynamical_decoupling"] == Obj(s.dynamicalDecoupling)
    && options.fields["execution"] == Obj(map["meas_type" := Str("classified")])
    && options.fields["twirling"] == Obj(map["enable_gates" := Bool(false), "enable_measure" := Bool(false)])
  }

  /** What a submission sends: the handle's backend, its execution time as the cost,
      and the parameters of its program. */
  ghost predicate IsPayload(lib: Library, s: JobState, payload: Json)
    requires s.format.Some? && s.programs != []
  {
    && payload.Obj? && payload.fields.Keys == {"program_id", "backend", "cost", "params"}
    && payload.fields["backend"] == Str(s.backend) && payload.fields["cost"] == Int(s.maxExecutionTime)
    && if s.format == Some(Executor) then
         payload.fields["program_id"] == Str("executor") && lib.parse(s.programs[0]) == Some(payload.fields["params"])
       else payload.fields["program_id"] == Str("sampler") && IsSampler(lib, s, payload.fields["params"])
  }

  lemma OptionsSent(s: JobState, options: Json)
    ensures IsOptions(s, options) <==>
      options == Obj(map[
        "execution" := Obj(map["meas_type" := Str("classified")]),
        "dynamical_decoupling" := Obj(s.dynamicalDecoupling),
        "twirling" := Obj(map["enable_gates" := Bool(false), "enable_measure" := Bool(false)])])
  {
    if IsOptions(s, options) {
      assert options.fields == map[
        "execution" := options.fields["execution"],
        "dynamical_decoupling" := options.fields["dynamical_decoupling"],
        "twirling" := options.fields["twirling"]];
    }
  }

  lemma SamplerSent(lib: Library, s: JobState, params: Json)
    requires s.format.Some?
    ensures IsSampler(lib, s, params) <==>
      Pubs(lib, s.format.value, s.programs, s.shots).Ok?
      && params == SamplerParams(s, Pubs(lib, s.format.value, s.programs, s.shots).value)
  {
    hide Pubs, IsPub, IsOptions;
    if params.Obj? && params.fields.Keys == {"version", "support_qiskit", "pubs", "options"} && params.fields["pubs"].Arr? {
      PubsSent(lib, s.format.value, s.programs, s.shots, params.fields["pubs"].items);
      OptionsSent(s, params.fields["options"]);
      assert params.fields == map["version" := params.fields["version"], "support_qiskit" := params.fields["support_qiskit"],
                                  "pubs" := params.fields["pubs"], "options" := params.fields["options"]];
    }
    if Pubs(lib, s.format.value, s.programs, s.shots).Ok? {
      var pubs := Pubs(lib, s.format.value, s.programs, s.shots).value;
      PubsSent(lib, s.format.value, s.programs, s.shots, pubs);
      OptionsSent(s, SamplerParams(s, pubs).fields["options"]);
    }
  }

  lemma PayloadSent(lib: Library, s: JobState, payload: Json)
    requires s.format.Some? && s.programs != []
    ensures Payload(lib, s) == Ok(payload) <==> IsPayload(lib, s, payload)
  {
    hide Pubs, IsSampler, SamplerParams;
    if payload.Obj? && payload.fields.Keys == {"program_id", "backend", "cost", "params"} {
      SamplerSent(lib, s, payload.fields["params"]);
      assert payload.fields == map["program_id" := payload.fields["program_id"], "backend" := payload.fields["backend"],
                                   "cost" := payload.fields["cost"], "params" := payload.fields["params"]];
    }
    if Payload(lib, s).Ok? {
      SamplerSent(lib, s, Payload(lib, s).value.fields["params"]);
    }
  }

  // ----- the submission

  /** The reply names the job and its backend. */
  predicate Names(data: Json, backend: string, id: string) {
    Says(data, "id", id) && IsName(id) && Says(data, "backend", backend)
  }

  /** A handle that may be configured and has programs sends its payload once. The
      reply decides: the job is submitted under the identifier of a document that
      names it and the backend; a good identifier is kept even with another backend;
      in every other case the job has failed. */
  lemma SubmitExact(lib: Library, s: JobState, answer: Answers)
    ensures !(MayConfigure(s) && s.format.Some? && s.programs != []) ==> Submit(lib, s, answer) == Step(s, Err(BadState), [])
    ensures MayConfigure(s) && s.format.Some? && s.programs != [] && Submit(lib, s, answer).asks == [] ==>
      && Submit(lib, s, answer).state == s && Submit(lib, s, answer).result.Err?
      && forall payload :: IsPayload(lib, s, payload) ==> lib.dump(payload) == None
    ensures Submit(lib, s, answer).asks != [] ==>
      var step := Submit(lib, s, answer);
      && MayConfigure(s) && s.format.Some? && s.programs != []
      && |step.asks| == 1 && step.asks[0].post && step.asks[0].resource == "/v1/jobs"
      && (exists payload :: IsPayload(lib, s, payload) && lib.dump(payload) == Some(step.asks[0].body))
      && After(lib, s, answer(step.asks[0]), step.state, step.result)
  {
    if MayConfigure(s) && s.format.Some? && s.programs != [] {
      var payload := Payload(lib, s);
      PayloadSent(lib, s, if payload.Ok? then payload.value else Null);
      forall other | IsPayload(lib, s, other) ensures payload == Ok(other) {
        PayloadSent(lib, s, other);
      }
      hide Payload, IsPayload, Accepted;
      if SubmissionBody(lib, s).Ok? {
        AcceptedExact(lib, s, answer(Ask(SUBMISSION, true, SubmissionBody(lib, s).value)));
      }
    }
  }

  /** What the reply makes of the handle. */
  ghost predicate After(lib: Library, s: JobState, reply: Result<Response>, state: JobState, result: Result<()>) {
    var failed := s.(attempted := true, status := Failed);
    && (result.Ok? ==> state == failed.(id := state.id, status := Submitted))
    && (result.Ok? ==> exists data :: Brings(lib, reply, data) && Names(data, s.backend, state.id))
    && (result.Err? ==> state == failed.(id := state.id) && (state.id != s.id ==> result == Err(Fatal)))
    && (result.Err? && !(exists data :: Brings(lib, reply, data)) ==> result == Err(Trouble(reply)) && state == failed)
    && (forall data :: Brings(lib, reply, data) && !(data.Obj? && "id" in data.fields && data.fields["id"].Str?) ==>
          result == Err(Fatal) && state == failed)
    && forall data, id :: Brings(lib, reply, data) && Says(data, "id", id) ==>
         if !IsName(id) then result == Err(Fatal) && state == failed
         else if Says(data, "backend", s.backend) then result.Ok?
         else result == Err(Fatal) && state == failed.(id := id)
  }

  lemma AcceptedExact(lib: Library, s: JobState, reply: Result<Response>)
    ensures var (state, result) := Accepted(lib, s.(attempted := true, status := Failed), reply); After(lib, s, reply, state, result)
  {
    hide Fetched, IsIdentifier;
    var fetched := Fetched(lib, reply);
    FetchedExact(lib, reply, if fetched.Ok? then fetched.value else Null);
    forall data | Brings(lib, reply, data) ensures fetched == Ok(data) {
      FetchedExact(lib, reply, data);
    }
    if fetched.Ok? && TextAt(fetched.value, "id").Ok? {
      IdentifierExact(TextAt(fetched.value, "id").value);
    }
  }
}
