/** Retrieving a submitted job gives it back: if the server echoes what it was
    sent, a fresh handle gets the format, the shots, every layout and the programs
    as they were sent, and reads the same results from the same response. */
module Retrieval {
  import opened Common
  import opened Http
  import opened JsonModel
  import opened Program
  import opened Qpy
  import opened Rewrite
  import opened JobSpec

  // ----- what the configuration of a job guarantees

  ghost predicate LayoutsMatch(format: Format, sources: seq<string>, qubits: nat, layouts: seq<seq<Register>>) {
    && |layouts| == |sources|
    && forall k :: 0 <= k < |sources| ==> LayoutOf(format, sources[k], qubits) == Ok(layouts[k])
  }

  /** A Sampler job stays within the execution limit and has one layout a program,
      equal to its parse; an Executor job has exactly one program, no layouts, no
      Sampler options and the shots its program asks for. */
  ghost predicate Configured(lib: Library, s: JobState) {
    && s.shots >= 1
    && match s.format
       case None => s.programs == [] && s.registers == []
       case Some(Executor) =>
         |s.programs| == 1 && s.registers == [] && !s.samplerOptionsSet && ExecutorShots(lib, s.programs[0]) == Ok(s.shots)
       case Some(Unsupported(_)) => false
       case Some(format) =>
         && s.programs != [] && |s.programs| * s.shots <= MAX_EXECUTIONS
         && LayoutsMatch(format, s.programs, s.qubits, s.registers)
  }

  lemma {:induction false} LayoutsExact(format: Format, sources: seq<string>, qubits: nat, layouts: seq<seq<Register>>)
    ensures LayoutsOf(format, sources, qubits) == Ok(layouts) <==> LayoutsMatch(format, sources, qubits, layouts)
  {
    hide LayoutOf;
    if sources != [] {
      var n := |sources| - 1;
      if |layouts| == |sources| {
        LayoutsExact(format, sources[..n], qubits, layouts[..n]);
        assert layouts == layouts[..n] + [layouts[n]];
      }
      if LayoutsOf(format, sources, qubits) == Ok(layouts) {
        assert layouts[..n] == LayoutsOf(format, sources[..n], qubits).value;
      }
    }
  }

  lemma Product(count: nat, shots: nat)
    requires shots > 0
    ensures count <= MAX_EXECUTIONS / shots <==> count * shots <= MAX_EXECUTIONS
  {
    var q := MAX_EXECUTIONS / shots;
    assert q * shots <= MAX_EXECUTIONS < (q + 1) * shots;
    if count <= q {
      MulLe(count, q, shots);
    } else {
      MulLe(q + 1, count, shots);
    }
  }

  lemma MulLe(a: nat, b: nat, c: nat)
    requires a <= b
    ensures a * c <= b * c
  {
  }

  // ----- the parameters survive the round trip

  /** The library restores this value from its text. */
  ghost predicate FaithfulTo(lib: Library, j: Json) {
    lib.dump(j).Some? ==> lib.parse(lib.dump(j).value) == Some(j)
  }

  ghost predicate Transportable(lib: Library, program: string) {
    program != "" && Inverse(lib.zlib, program)
  }

  /** A doubling buffer reaches the size of the program. */
  ghost predicate Reachable(lib: Library, program: string)
    requires Transportable(lib, program)
  {
    |program| <= Reach(lib.zlib.maxSize, |lib.zlib.compress(program).bytes|)
  }

  lemma OnePub(lib: Library, format: Format, source: string, shots: nat)
    requires 0 < shots <= SIZE_MAX && (format == Qasm3 || (format == QpyFile && Transportable(lib, source)))
    requires Circuit(lib, format, source).Ok?
    ensures var pub := Arr([Circuit(lib, format, source).value, Null, Int(shots)]);
      && pub.items[0] == Circuit(lib, format, source).value
      && FormatOf(pub.items[0]) == format
      && SourceOf(lib, pub, format, shots) ==
           if format == Qasm3 then Prepared(source)
           else if Reachable(lib, source) then Ok(source) else Err(OutOfMemory)
  {
    hide Prepared, Transported, Restored, Reach;
    if format == QpyFile {
      TransportRoundTrip(lib.zlib, source);
    }
  }

  /** The program a retrieved handle shows for a submitted one. */
  function Shown(format: Format, source: string): Result<string> {
    if format == Qasm3 then Prepared(source) else Ok(source)
  }

  function ShownAll(format: Format, sources: seq<string>): (r: Result<seq<string>>)
    ensures r.Ok? ==> |r.value| == |sources|
  {
    if sources == [] then Ok([])
    else
      var front :- ShownAll(format, sources[..|sources| - 1]);
      var last :- Shown(format, sources[|sources| - 1]);
      Ok(front + [last])
  }

  /** A retrieved handle shows QPY programs as they were. */
  lemma {:induction false} ShownUnchanged(sources: seq<string>)
    ensures ShownAll(QpyFile, sources) == Ok(sources)
  {
    hide Shown;
    if sources != [] {
      var n := |sources| - 1;
      var front, last := sources[..n], sources[n];
      ShownUnchanged(front);
      QpyUnchanged(last);
      assert front + [last] == sources;
    }
  }

  lemma QpyUnchanged(source: string)
    ensures Shown(QpyFile, source) == Ok(source)
  {
  }

  /** It shows each OpenQASM program as the rewrite of the original. */
  lemma {:induction false} ShownAt(format: Format, sources: seq<string>, k: nat)
    requires ShownAll(format, sources).Ok? && k < |sources|
    ensures Shown(format, sources[k]) == Ok(ShownAll(format, sources).value[k])
  {
    hide Shown;
    var n := |sources| - 1;
    if k < n {
      ShownAt(format, sources[..n], k);
    }
  }

  ghost predicate AllTransportable(lib: Library, format: Format, sources: seq<string>) {
    format == QpyFile ==> forall k :: 0 <= k < |sources| ==> Transportable(lib, sources[k])
  }

  ghost predicate AllReachable(lib: Library, format: Format, sources: seq<string>)
    requires AllTransportable(lib, format, sources)
  {
    format == QpyFile ==> forall k :: 0 <= k < |sources| ==> Reachable(lib, sources[k])
  }

  lemma {:induction false} AllPubs(lib: Library, format: Format, sources: seq<string>, shots: nat)
    requires 0 < shots <= SIZE_MAX && (format == Qasm3 || format == QpyFile)
    requires AllTransportable(lib, format, sources) && Pubs(lib, format, sources, shots).Ok?
    ensures ShownAll(format, sources).Ok?
    ensures SourcesOf(lib, Pubs(lib, format, sources, shots).value, format, shots) ==
      if AllReachable(lib, format, sources) then ShownAll(format, sources) else Err(OutOfMemory)
    ensures sources != [] ==>
      var first := Pubs(lib, format, sources, shots).value[0];
      first.Arr? && |first.items| == 3 && FormatOf(first.items[0]) == format && first.items[2] == Int(shots)
  {
    hide Prepared, Circuit, SourceOf, Reachable, Transportable;
    if sources != [] {
      var n := |sources| - 1;
      AllPubs(lib, format, sources[..n], shots);
      var pubs := Pubs(lib, format, sources, shots).value;
      assert pubs[..n] == Pubs(lib, format, sources[..n], shots).value;
      LastPub(lib, format, sources, shots);
      if n > 0 {
        assert pubs[0] == pubs[..n][0];
      }
      assert AllReachable(lib, format, sources) <==>
        AllReachable(lib, format, sources[..n]) && (format == QpyFile ==> Reachable(lib, sources[n]));
      hide AllReachable, AllTransportable;
    }
  }

  lemma LastPub(lib: Library, format: Format, sources: seq<string>, shots: nat)
    requires 0 < shots <= SIZE_MAX && (format == Qasm3 || format == QpyFile)
    requires sources != [] && AllTransportable(lib, format, sources) && Pubs(lib, format, sources, shots).Ok?
    ensures var n := |sources| - 1; var last := Pubs(lib, format, sources, shots).value[n];
      && last.Arr? && |last.items| == 3 && FormatOf(last.items[0]) == format && last.items[2] == Int(shots)
      && (format == Qasm3 ==> Prepared(sources[n]).Ok?)
      && SourceOf(lib, last, format, shots) ==
           if format == Qasm3 then Prepared(sources[n])
           else if Reachable(lib, sources[n]) then Ok(sources[n]) else Err(OutOfMemory)
  {
    hide Prepared, SourceOf, Reachable, Transportable;
    var n := |sources| - 1;
    OnePub(lib, format, sources[n], shots);
  }

  lemma EmptyHasNoLayout(qubits: nat)
    ensures LayoutOf(QpyFile, "", qubits).Err?
  {
  }

  lemma {:induction false} ShownLayouts(format: Format, sources: seq<string>, qubits: nat)
    requires ShownAll(format, sources).Ok? && (format == Qasm3 || format == QpyFile)
    ensures LayoutsOf(format, ShownAll(format, sources).value, qubits) == LayoutsOf(format, sources, qubits)
  {
    hide Prepared, Layout, QpyLayout.QpyRegisters;
    if sources != [] {
      var n := |sources| - 1;
      ShownLayouts(format, sources[..n], qubits);
      if format == Qasm3 {
        RewritePreservesLayout(sources[n]);
      }
      var shown := ShownAll(format, sources).value;
      assert shown[..n] == ShownAll(format, sources[..n]).value;
    }
  }

  /** A Sampler's parameters describe the job they were made from. */
  lemma SamplerRoundTrip(lib: Library, s: JobState, pubs: seq<Json>)
    requires Configured(lib, s) && (s.format == Some(Qasm3) || s.format == Some(QpyFile))
    requires Pubs(lib, s.format.value, s.programs, s.shots) == Ok(pubs)
    requires AllTransportable(lib, s.format.value, s.programs)
    ensures ShownAll(s.format.value, s.programs).Ok?
    ensures var blank := NewJob(s.backend, s.qubits);
      SamplerJob(lib, blank, SamplerParams(s, pubs)) ==
      if AllReachable(lib, s.format.value, s.programs) then
        Ok(blank.(programs := ShownAll(s.format.value, s.programs).value, registers := s.registers, format := s.format,
                 shots := s.shots, samplerOptionsSet := true))
      else Err(OutOfMemory)
  {
    hide Pubs, SourcesOf, ShownAll, LayoutsOf, LayoutsMatch, AllTransportable, AllReachable, DefaultDynamicalDecoupling;
    var format := s.format.value;
    var count := |s.programs|;
    Product(count, s.shots);
    Product(1, s.shots);
    MulLe(1, count, s.shots);
    AllPubs(lib, format, s.programs, s.shots);
    ShownLayouts(format, s.programs, s.qubits);
    LayoutsExact(format, s.programs, s.qubits, s.registers);
  }

  /** An Executor's parameters describe the job they were made from. */
  lemma ExecutorRoundTrip(lib: Library, s: JobState, params: Json)
    requires Configured(lib, s) && s.format == Some(Executor) && lib.parse(s.programs[0]) == Some(params)
    requires lib.dump(params).Some? && FaithfulTo(lib, params)
    ensures var blank := NewJob(s.backend, s.qubits);
      ExecutorJob(lib, blank, params) ==
      Ok(blank.(programs := [lib.dump(params).value], registers := [], format := Some(Executor), shots := s.shots))
  {
    hide DefaultDynamicalDecoupling;
    assert ExecutorShots(lib, lib.dump(params).value) == ExecutorShots(lib, s.programs[0]);
  }

  // ----- the whole document

  /** The server's document for a job it was sent: the same backend, program and
      parameters, the parameters possibly as text inside a JSON string. */
  ghost predicate Echoes(lib: Library, s: JobState, sent: Json, id: string, data: Json) {
    && Has(sent, "program_id") && Has(sent, "params")
    && Has(data, "id") && data.fields["id"] == Str(id)
    && Has(data, "backend") && data.fields["backend"] == Str(s.backend)
    && Has(data, "program") && Has(data.fields["program"], "id")
    && data.fields["program"].fields["id"] == sent.fields["program_id"]
    && (Has(data, "private") ==> data.fields["private"] == Bool(false))
    && Has(data, "params")
    && (data.fields["params"] == sent.fields["params"]
        || (data.fields["params"].Str? && lib.parse(data.fields["params"].s) == Some(sent.fields["params"])))
    && ParseStatus(data).Ok?
  }

  /** The programs a retrieved handle shows. */
  ghost function ShownPrograms(lib: Library, s: JobState): (r: Result<seq<string>>)
    requires Configured(lib, s) && s.format.Some?
  {
    if s.format == Some(Executor) then
      match lib.dump(lib.parse(s.programs[0]).value)
      case None => Err(Fatal)
      case Some(text) => Ok([text])
    else ShownAll(s.format.value, s.programs)
  }

  ghost predicate Restorable(lib: Library, s: JobState)
    requires Configured(lib, s) && s.format.Some? && AllTransportable(lib, s.format.value, s.programs)
  {
    AllReachable(lib, s.format.value, s.programs)
  }

  /** The handle that retrieval should build for the submitted state. */
  ghost function Twin(lib: Library, s: JobState, id: string, data: Json): JobState
    requires Configured(lib, s) && s.format.Some? && ShownPrograms(lib, s).Ok? && ParseStatus(data).Ok?
  {
    NewJob(s.backend, s.qubits).(
      id := id, programs := ShownPrograms(lib, s).value, registers := s.registers, format := s.format, shots := s.shots,
      samplerOptionsSet := s.format != Some(Executor), attempted := true, status := ParseStatus(data).value)
  }

  lemma DescribedSampler(lib: Library, s: JobState, pubs: seq<Json>, id: string, data: Json)
    requires Echoes(lib, s, Envelope(s, "sampler", SamplerParams(s, pubs)), id, data)
    ensures Described(lib, NewJob(s.backend, s.qubits), id, data) == SamplerJob(lib, NewJob(s.backend, s.qubits), SamplerParams(s, pubs))
  {
    hide SamplerJob, ExecutorJob, ParseStatus, DefaultDynamicalDecoupling;
  }

  lemma DescribedExecutor(lib: Library, s: JobState, params: Json, id: string, data: Json)
    requires Echoes(lib, s, Envelope(s, "executor", params), id, data) && params.Obj?
    ensures Described(lib, NewJob(s.backend, s.qubits), id, data) == ExecutorJob(lib, NewJob(s.backend, s.qubits), params)
  {
    hide SamplerJob, ExecutorJob, ParseStatus, DefaultDynamicalDecoupling;
  }

  /** Retrieving undoes submitting. The server parsed the submitted body to sent
      and answers with a document that echoes it; then a fresh handle of the same
      backend is the twin of the submitted one, unless a QPY program is too large
      for the doubling buffer, which is refused. */
  lemma RetrieveInvertsSubmit(lib: Library, s: JobState, sent: Json, id: string, answer: Answers)
    requires Configured(lib, s) && SubmissionBody(lib, s).Ok?
    requires lib.parse(SubmissionBody(lib, s).value) == Some(sent) && FaithfulTo(lib, Payload(lib, s).value)
    requires s.format == Some(QpyFile) ==> forall k :: 0 <= k < |s.programs| ==> Inverse(lib.zlib, s.programs[k])
    requires s.format == Some(Executor) ==>
      var params := lib.parse(s.programs[0]).value; lib.dump(params).Some? && FaithfulTo(lib, params)
    requires IsIdentifier(id)
    requires Fetched(lib, answer(Ask(Path(id), false, ""))).Ok?
    requires Echoes(lib, s, sent, id, Fetched(lib, answer(Ask(Path(id), false, ""))).value)
    ensures ShownPrograms(lib, s).Ok? && AllTransportable(lib, s.format.value, s.programs)
    ensures var data := Fetched(lib, answer(Ask(Path(id), false, ""))).value;
      Retrieve(lib, NewJob(s.backend, s.qubits), id, answer).0 ==
      if Restorable(lib, s) then Ok(Twin(lib, s, id, data)) else Err(OutOfMemory)
    ensures s.format == Some(QpyFile) ==> ShownPrograms(lib, s) == Ok(s.programs)
    ensures s.format == Some(Qasm3) ==>
      forall k :: 0 <= k < |s.programs| ==> Prepared(s.programs[k]) == Ok(ShownPrograms(lib, s).value[k])
  {
    hide Echoes, Described, Pubs, ShownAll, LayoutsMatch, Reachable, SamplerJob, ExecutorJob, Fetched, ParseStatus,
         DefaultDynamicalDecoupling, Path, SamplerParams;
    var data := Fetched(lib, answer(Ask(Path(id), false, ""))).value;
    assert ParseStatus(data).Ok? by { assert Echoes(lib, s, sent, id, data); EchoStatus(lib, s, sent, id, data); }
    NonemptyPrograms(lib, s);
    if s.format == Some(Executor) {
      var params := lib.parse(s.programs[0]).value;
      ExecutorRoundTrip(lib, s, params);
      DescribedExecutor(lib, s, params, id, data);
    } else {
      var pubs := Pubs(lib, s.format.value, s.programs, s.shots).value;
      SamplerRoundTrip(lib, s, pubs);
      ShownUnchanged(s.programs);
      forall k | 0 <= k < |s.programs|
        ensures Shown(s.format.value, s.programs[k]) == Ok(ShownPrograms(lib, s).value[k])
      {
        ShownAt(s.format.value, s.programs, k);
      }
      DescribedSampler(lib, s, pubs, id, data);
    }
  }

  lemma EchoStatus(lib: Library, s: JobState, sent: Json, id: string, data: Json)
    requires Echoes(lib, s, sent, id, data)
    ensures ParseStatus(data).Ok?
  {
  }

  lemma NonemptyPrograms(lib: Library, s: JobState)
    requires Configured(lib, s) && s.format.Some?
    requires s.format == Some(QpyFile) ==> forall k :: 0 <= k < |s.programs| ==> Inverse(lib.zlib, s.programs[k])
    ensures AllTransportable(lib, s.format.value, s.programs)
  {
    hide LayoutOf, Inverse;
    EmptyHasNoLayout(s.qubits);
  }

  // ----- the same results

  /** Handles that agree on everything results depend on. */
  ghost predicate SameView(a: JobState, b: JobState) {
    && a.format == b.format && a.shots == b.shots && a.registers == b.registers && |a.programs| == |b.programs|
    && a.cached == b.cached && a.cachedExecutor == b.cachedExecutor
    && a.id == b.id && a.backend == b.backend
  }

  /** The twin of a submitted job sees what the submitted handle sees. */
  lemma TwinSeesTheSame(lib: Library, s: JobState, id: string, data: Json, submission: Result<Response>)
    requires Configured(lib, s) && s.format.Some? && ShownPrograms(lib, s).Ok? && ParseStatus(data).Ok?
    requires s.cached == None && s.cachedExecutor == None
    requires var (submitted, result) := Accepted(lib, s.(attempted := true, status := Failed), submission);
      result.Ok? && submitted.id == id
    ensures SameView(Accepted(lib, s.(attempted := true, status := Failed), submission).0, Twin(lib, s, id, data))
  {
    hide SubmittedId, ParseStatus, ShownAll, DefaultDynamicalDecoupling, LayoutsMatch, ExecutorShots;
  }

  lemma SameBatch(lib: Library, a: JobState, b: JobState, index: nat, answer: Answers, asks: seq<Ask>)
    requires SameView(a, b)
    ensures FetchFinished(lib, a, index, answer, asks).result == FetchFinished(lib, b, index, answer, asks).result
    ensures SameView(FetchFinished(lib, a, index, answer, asks).state, FetchFinished(lib, b, index, answer, asks).state)
  {
    hide ResultsDocument, DecodeAll, CacheEntry;
  }

  lemma SameDocument(lib: Library, a: JobState, b: JobState, answer: Answers, asks: seq<Ask>)
    requires SameView(a, b)
    ensures FetchExecutorFinished(lib, a, answer, asks).result == FetchExecutorFinished(lib, b, answer, asks).result
    ensures SameView(FetchExecutorFinished(lib, a, answer, asks).state, FetchExecutorFinished(lib, b, answer, asks).state)
  {
    hide ExecutorDocument;
  }

  /** Fetching does not depend on the polls that led to it. */
  lemma AsksAside(lib: Library, s: JobState, index: nat, answer: Answers, asks: seq<Ask>)
    ensures FetchFinished(lib, s, index, answer, asks).result == FetchFinished(lib, s, index, answer, []).result
    ensures FetchFinished(lib, s, index, answer, asks).state == FetchFinished(lib, s, index, answer, []).state
    ensures FetchExecutorFinished(lib, s, answer, asks).result == FetchExecutorFinished(lib, s, answer, []).result
    ensures FetchExecutorFinished(lib, s, answer, asks).state == FetchExecutorFinished(lib, s, answer, []).state
  {
    hide Batch, ExecutorDocument, CacheEntry;
  }

  /** When both handles see the same status, the same responses give the same
      results, for every program and for Executor jobs, and the same caches. */
  lemma SameResults(lib: Library, a: JobState, b: JobState, index: nat, answer: Answers)
    requires SameView(a, b) && Check(lib, a, answer).result == Check(lib, b, answer).result
    ensures Fetch(lib, a, index, answer).result == Fetch(lib, b, index, answer).result
    ensures FetchExecutor(lib, a, answer).result == FetchExecutor(lib, b, answer).result
    ensures SameView(Fetch(lib, a, index, answer).state, Fetch(lib, b, index, answer).state)
    ensures SameView(FetchExecutor(lib, a, answer).state, FetchExecutor(lib, b, answer).state)
  {
    hide Polled, FetchFinished, FetchExecutorFinished;
    var x, y := Check(lib, a, answer), Check(lib, b, answer);
    assert SameView(x.state, y.state);
    hide Check, SameView;
    AsksAside(lib, x.state, index, answer, x.asks);
    AsksAside(lib, y.state, index, answer, y.asks);
    SameBatch(lib, x.state, y.state, index, answer, []);
    SameDocument(lib, x.state, y.state, answer, []);
  }
}
