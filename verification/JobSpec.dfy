/** What each operation on a job does (src/Job.cpp): the new state, the result,
    and the requests it makes. A request's answer is whatever the retry loop
    returns for it, so every operation is a function of the state and of the
    answers it gets. */
module JobSpec {
  import opened Common
  import opened Http
  import opened JsonModel
  import opened Program
  import opened Qpy
  import opened QpyLayout
  import opened Rewrite
  import R = Results

  /** The JSON library and zlib. Parsing fails on malformed text, dumping on
      strings that are not UTF-8. */
  datatype Library = Library(parse: string -> Option<Json>, dump: Json -> Option<string>, zlib: Zlib)

  datatype Format = Qasm3 | QpyFile | Executor | Unsupported(code: int)

  datatype Status = Created | Submitted | Queued | Running | Completed | Canceled | Failed

  datatype JobState = JobState(
    id: string, programs: seq<string>, format: Option<Format>, shots: nat, maxExecutionTime: nat, status: Status,
    backend: string, qubits: nat, dynamicalDecoupling: map<string, Json>, attempted: bool, samplerOptionsSet: bool,
    registers: seq<seq<Register>>, cached: Option<seq<R.Results>>, cachedExecutor: Option<string>)

  const MAX_EXECUTIONS: nat := 10_000_000

  function DefaultDynamicalDecoupling(): map<string, Json> {
    map["enable" := Bool(false),
        "sequence_type" := Str("XX"),
        "extra_slack_distribution" := Str("middle"),
        "scheduling_method" := Str("alap"),
        "skip_reset_qubits" := Bool(false)]
  }

  /** A handle just created. */
  function NewJob(backend: string, qubits: nat): JobState {
    JobState("", [], None, 1024, 60, Created, backend, qubits, DefaultDynamicalDecoupling(), false, false, [], None, None)
  }

  predicate Terminal(status: Status) {
    status == Completed || status == Canceled || status == Failed
  }

  predicate Configurable(s: JobState) {
    !s.attempted && s.status == Created
  }

  /** An identifier that can be part of a path. */
  predicate IsIdentifier(text: string) {
    0 < |text| <= 255 && forall i :: 0 <= i < |text| ==>
      'a' <= text[i] <= 'z' || 'A' <= text[i] <= 'Z' || '0' <= text[i] <= '9' || text[i] == '_' || text[i] == '-'
  }

  predicate IsNumber(j: Json, n: int) {
    j == Int(n) || j == Float(n as real)
  }

  function ParseStatus(data: Json): Result<Status> {
    var state :- At(data, "state");
    var value :- TextAt(state, "status");
    if value == "Completed" then Ok(Completed)
    else if value == "Cancelled" || value == "Canceled" then Ok(Canceled)
    else if value == "Failed" then Ok(Failed)
    else if value == "Running" then Ok(Running)
    else if value == "Queued" then Ok(Queued)
    else if value == "Creating" || value == "Created" || value == "Validating" then Ok(Submitted)
    else Err(Fatal)
  }

  // ----- configuring

  function CheckExecutions(count: nat, shots: nat): Result<()>
  {
    Require(shots != 0 && count <= MAX_EXECUTIONS / shots, NotSupported)
  }

  function CheckSupport(s: JobState, format: Format, count: nat): Result<()> {
    var _ :- Require(count != 0, InvalidArgument);
    var _ :- Require(!format.Unsupported?, NotSupported);
    if format == Executor then Require(count == 1 && !s.samplerOptionsSet, NotSupported)
    else CheckExecutions(count, s.shots)
  }

  /** The envelope of an Executor program is checked and gives the shots. */
  function ExecutorShots(lib: Library, source: string): Result<nat> {
    match lib.parse(source)
    case None => Err(InvalidArgument)
    case Some(params) =>
      var _ :- Require(Has(params, "schema_version"), InvalidArgument);
      var _ :- Require(params.fields["schema_version"] == Str("v2.0"), NotSupported);
      var _ :- Require(Has(params, "quantum_program"), InvalidArgument);
      var program := params.fields["quantum_program"];
      var _ :- Require(
        && Has(program, "shots") && program.fields["shots"].Int? && 0 < program.fields["shots"].n <= SIZE_MAX
        && Has(program, "circuits") && program.fields["circuits"].Obj?
        && Has(program, "items") && program.fields["items"].Arr? && program.fields["items"].items != []
        && (Has(params, "options") ==> params.fields["options"].Obj?), InvalidArgument);
      Ok(program.fields["shots"].n)
  }

  function LayoutOf(format: Format, source: string, qubits: nat): Result<seq<Register>> {
    if format == QpyFile then QpyRegisters(source, qubits) else Layout(source)
  }

  function LayoutsOf(format: Format, sources: seq<string>, qubits: nat): (r: Result<seq<seq<Register>>>)
    ensures r.Ok? ==> |r.value| == |sources|
  {
    if sources == [] then Ok([])
    else
      var front :- LayoutsOf(format, sources[..|sources| - 1], qubits);
      var last :- LayoutOf(format, sources[|sources| - 1], qubits);
      Ok(front + [last])
  }

  function WithPrograms(lib: Library, s: JobState, format: Format, sources: seq<string>): Result<JobState> {
    var _ :- Require(Configurable(s), BadState);
    var _ :- CheckSupport(s, format, |sources|);
    if format == Executor then
      if |sources| != 1 then Err(NotSupported)
      else
        var shots :- ExecutorShots(lib, sources[0]);
        Ok(s.(programs := sources, registers := [], format := Some(format), shots := shots, cached := None, cachedExecutor := None))
    else
      var layouts :- LayoutsOf(format, sources, s.qubits);
      Ok(s.(programs := sources, registers := layouts, format := Some(format), cached := None, cachedExecutor := None))
  }

  function WithShots(s: JobState, value: nat): Result<JobState> {
    var _ :- Require(s.format != Some(Executor), NotSupported);
    var _ :- Require(value != 0, InvalidArgument);
    var _ :- CheckExecutions(Max(|s.programs|, 1), value);
    Ok(s.(shots := value, samplerOptionsSet := true))
  }

  predicate IsOption(key: string, value: Json) {
    || ((key == "enable" || key == "skip_reset_qubits") && value.Bool?)
    || (key == "sequence_type" && value in {Str("XX"), Str("XpXm"), Str("XY4")})
    || (key == "extra_slack_distribution" && value in {Str("middle"), Str("edges")})
    || (key == "scheduling_method" && value in {Str("alap"), Str("asap")})
  }

  function WithDynamicalDecoupling(lib: Library, s: JobState, options: string): Result<JobState> {
    var _ :- Require(Configurable(s), BadState);
    var _ :- Require(s.format != Some(Executor), NotSupported);
    match lib.parse(options)
    case None => Err(InvalidArgument)
    case Some(parsed) =>
      if parsed.Obj? && forall key :: key in parsed.fields ==> IsOption(key, parsed.fields[key]) then
        Ok(s.(dynamicalDecoupling := DefaultDynamicalDecoupling() + parsed.fields, samplerOptionsSet := true))
      else Err(InvalidArgument)
  }

  // ----- requests

  datatype Ask = Ask(resource: string, post: bool, body: string)

  type Answers = Ask -> Result<Response>

  /** The outcome of an operation that makes requests. */
  datatype Step<+T> = Step(state: JobState, result: Result<T>, asks: seq<Ask>)

  function Checked(answer: Result<Response>): Result<string> {
    var response :- answer;
    var _ :- CheckResponse(response);
    Ok(response.body)
  }

  function Parsed(lib: Library, text: string): Result<Json> {
    match lib.parse(text)
    case None => Err(Fatal)
    case Some(data) => Ok(data)
  }

  /** The parsed body of a response that passes the check. */
  function Fetched(lib: Library, answer: Result<Response>): Result<Json> {
    var body :- Checked(answer);
    Parsed(lib, body)
  }

  // ----- submitting

  ghost function Circuit(lib: Library, format: Format, source: string): Result<Json> {
    if format == QpyFile then
      var encoded :- Transported(lib.zlib, source);
      Ok(Obj(map["__type__" := Str("QuantumCircuit"), "__value__" := Str(encoded)]))
    else
      var prepared :- Prepared(source);
      Ok(Str(prepared))
  }

  ghost function Pubs(lib: Library, format: Format, sources: seq<string>, shots: nat): (r: Result<seq<Json>>)
    ensures r.Ok? ==> |r.value| == |sources|
  {
    if sources == [] then Ok([])
    else
      var front :- Pubs(lib, format, sources[..|sources| - 1], shots);
      var circuit :- Circuit(lib, format, sources[|sources| - 1]);
      Ok(front + [Arr([circuit, Null, Int(shots)])])
  }

  function SamplerParams(s: JobState, pubs: seq<Json>): Json {
    Obj(map["version" := Int(2),
            "support_qiskit" := Bool(false),
            "pubs" := Arr(pubs),
            "options" := Obj(map[
              "execution" := Obj(map["meas_type" := Str("classified")]),
              "dynamical_decoupling" := Obj(s.dynamicalDecoupling),
              "twirling" := Obj(map["enable_gates" := Bool(false), "enable_measure" := Bool(false)])])])
  }

  function Envelope(s: JobState, program: string, params: Json): Json {
    Obj(map["program_id" := Str(program), "backend" := Str(s.backend), "cost" := Int(s.maxExecutionTime), "params" := params])
  }

  ghost function Payload(lib: Library, s: JobState): Result<Json>
    requires s.format.Some? && s.programs != []
  {
    if s.format == Some(Executor) then
      var params :- Parsed(lib, s.programs[0]);
      Ok(Envelope(s, "executor", params))
    else
      var pubs :- Pubs(lib, s.format.value, s.programs, s.shots);
      Ok(Envelope(s, "sampler", SamplerParams(s, pubs)))
  }

  ghost function SubmissionBody(lib: Library, s: JobState): Result<string> {
    var _ :- Require(Configurable(s) && s.format.Some? && s.programs != [], BadState);
    var payload :- Payload(lib, s);
    match lib.dump(payload)
    case None => Err(Fatal)
    case Some(body) => Ok(body)
  }

  const SUBMISSION := "/v1/jobs"

  /** Once the request is attempted the job has failed unless the answer proves
      otherwise; the identifier is kept even if the rest of the answer is wrong. */
  function Accepted(lib: Library, attempted: JobState, answer: Result<Response>): (JobState, Result<()>) {
    match SubmittedId(lib, answer)
    case Err(error) => (attempted, Err(error))
    case Ok((id, data)) =>
      var named := attempted.(id := id);
      if !Has(data, "backend") || data.fields["backend"] != Str(attempted.backend) then (named, Err(Fatal))
      else (named.(status := Submitted), Ok(()))
  }

  function SubmittedId(lib: Library, answer: Result<Response>): Result<(string, Json)> {
    var data :- Fetched(lib, answer);
    var id :- TextAt(data, "id");
    var _ :- Require(IsIdentifier(id), Fatal);
    Ok((id, data))
  }

  ghost function Submit(lib: Library, s: JobState, answer: Answers): Step<()> {
    match SubmissionBody(lib, s)
    case Err(error) => Step(s, Err(error), [])
    case Ok(body) =>
      var ask := Ask(SUBMISSION, true, body);
      var (state, result) := Accepted(lib, s.(attempted := true, status := Failed), answer(ask));
      Step(state, result, [ask])
  }

  // ----- polling and cancelling

  function Path(id: string): string {
    "/v1/jobs/" + id
  }

  function Polled(lib: Library, s: JobState, answer: Result<Response>): Result<Status> {
    var data :- Fetched(lib, answer);
    var _ :- Require(Has(data, "id") && data.fields["id"] == Str(s.id) && Has(data, "backend") && data.fields["backend"] == Str(s.backend), Fatal);
    ParseStatus(data)
  }

  function Check(lib: Library, s: JobState, answer: Answers): Step<Status> {
    if s.id == "" || Terminal(s.status) then Step(s, Ok(s.status), [])
    else
      var ask := Ask(Path(s.id), false, "");
      match Polled(lib, s, answer(ask))
      case Err(error) => Step(s, Err(error), [ask])
      case Ok(status) => Step(s.(status := status), Ok(status), [ask])
  }

  function Cancel(lib: Library, s: JobState, answer: Answers): Step<()> {
    if s.id == "" then Step(s, Err(BadState), [])
    else if s.status == Completed then Step(s, Err(InvalidArgument), [])
    else if s.status == Canceled then Step(s, Ok(()), [])
    else if s.status == Failed then Step(s, Err(BadState), [])
    else
      var ask := Ask(Path(s.id) + "/cancel", true, "");
      match answer(ask)
      case Err(error) => Step(s, Err(error), [ask])
      case Ok(response) =>
        if Answered(response, 204) then Step(s.(status := Canceled), Ok(()), [ask])
        else if Answered(response, 409) then AfterConflict(Check(lib, s, answer), ask)
        else Step(s, Err(Refusal(response)), [ask])
  }

  /** A cancellation that lost the race reports what the job has become. */
  function AfterConflict(check: Step<Status>, ask: Ask): Step<()> {
    Step(check.state,
      match check.result
      case Err(error) => Err(error)
      case Ok(status) => if status == Completed then Err(InvalidArgument) else if status == Canceled then Ok(()) else Err(BadState),
      [ask] + check.asks)
  }

  function Refusal(response: Response): Error {
    if CheckResponse(response).Err? then CheckResponse(response).error else Fatal
  }

  // ----- results

  /** The results document: text inside a JSON string is unwrapped once. */
  function ResultsDocument(lib: Library, answer: Result<Response>): Result<Json> {
    var response :- answer;
    var _ :- Require(!Answered(response, 204), BadState);
    var data :- Fetched(lib, Ok(response));
    if data.Str? then Parsed(lib, data.s) else Ok(data)
  }

  function DecodeAll(pubs: seq<Json>, registers: seq<seq<Register>>, shots: nat): (r: Result<seq<R.Results>>)
    ensures r.Ok? ==> |r.value| == |pubs|
  {
    if pubs == [] then Ok([])
    else
      var n := |pubs| - 1;
      var front :- DecodeAll(pubs[..n], registers, shots);
      if n >= |registers| then Err(Fatal)
      else
        var last :- R.Decoded(pubs[n], registers[n], shots);
        Ok(front + [last])
  }

  function Batch(lib: Library, s: JobState, answer: Result<Response>): Result<seq<R.Results>> {
    var data :- ResultsDocument(lib, answer);
    var results :- At(data, "results");
    var pubs :- Items(results);
    var _ :- Require(|pubs| == |s.programs|, Fatal);
    DecodeAll(pubs, s.registers, s.shots)
  }

  /** Results are read from a finished job only. */
  function Finished(check: Step<Status>): Result<()> {
    match check.result
    case Err(error) => Err(error)
    case Ok(status) => Require(status == Completed, BadState)
  }

  function Fetch(lib: Library, s: JobState, index: nat, answer: Answers): Step<R.Results> {
    if index >= |s.programs| then Step(s, Err(OutOfRange), [])
    else if s.format == Some(Executor) then Step(s, Err(NotSupported), [])
    else
      var check := Check(lib, s, answer);
      if Finished(check).Err? then Step(check.state, Err(Finished(check).error), check.asks)
      else FetchFinished(lib, check.state, index, answer, check.asks)
  }

  function FetchFinished(lib: Library, s: JobState, index: nat, answer: Answers, asks: seq<Ask>): Step<R.Results> {
    match s.cached
    case Some(cached) => Step(s, CacheEntry(cached, index), asks)
    case None =>
      var ask := Ask(Path(s.id) + "/results", false, "");
      match Batch(lib, s, answer(ask))
      case Err(error) => Step(s, Err(error), asks + [ask])
      case Ok(decoded) => Step(s.(cached := Some(decoded)), CacheEntry(decoded, index), asks + [ask])
  }

  function CacheEntry(cached: seq<R.Results>, index: nat): Result<R.Results> {
    if index < |cached| then Ok(cached[index]) else Err(Fatal)
  }

  function ExecutorDocument(lib: Library, answer: Result<Response>): Result<string> {
    var data :- ResultsDocument(lib, answer);
    var _ :- Require(data.Obj? && Has(data, "schema_version") && data.fields["schema_version"] == Str("v2.0"), Fatal);
    match lib.dump(data)
    case None => Err(Fatal)
    case Some(text) => Ok(text)
  }

  function FetchExecutor(lib: Library, s: JobState, answer: Answers): Step<string> {
    if s.format != Some(Executor) then Step(s, Err(NotSupported), [])
    else
      var check := Check(lib, s, answer);
      if Finished(check).Err? then Step(check.state, Err(Finished(check).error), check.asks)
      else FetchExecutorFinished(lib, check.state, answer, check.asks)
  }

  function FetchExecutorFinished(lib: Library, s: JobState, answer: Answers, asks: seq<Ask>): Step<string> {
    match s.cachedExecutor
    case Some(text) => Step(s, Ok(text), asks)
    case None =>
      var ask := Ask(Path(s.id) + "/results", false, "");
      match ExecutorDocument(lib, answer(ask))
      case Err(error) => Step(s, Err(error), asks + [ask])
      case Ok(text) => Step(s.(cachedExecutor := Some(text)), Ok(text), asks + [ask])
  }

  // ----- retrieving

  /** A field with a default; any other kind of value is an error. */
  function BoolOr(j: Json, key: string, default: bool): Result<bool> {
    if !j.Obj? then Err(Fatal)
    else if !Has(j, key) then Ok(default)
    else if j.fields[key].Bool? then Ok(j.fields[key].b) else Err(Fatal)
  }

  function TextOr(j: Json, key: string, default: string): Result<string> {
    if !j.Obj? then Err(Fatal)
    else if !Has(j, key) then Ok(default)
    else Text(j.fields[key])
  }

  function Unwrapped(lib: Library, params: Json): Result<Json> {
    if params.Str? then Parsed(lib, params.s) else Ok(params)
  }

  predicate NoBindings(j: Json) {
    j == Null || (j.Arr? && j.items == []) || (j.Obj? && j.fields == map[])
  }

  /** The program of one entry of a Sampler job. */
  ghost function SourceOf(lib: Library, pub: Json, format: Format, shots: nat): Result<string> {
    var _ :- Require(pub.Arr? && |pub.items| == 3 && (pub.items[0].Str? || pub.items[0].Obj?) && NoBindings(pub.items[1]), NotSupported);
    var own :- PositiveInteger(pub.items[2]);
    var _ :- Require(own == shots && format == FormatOf(pub.items[0]), NotSupported);
    var circuit := pub.items[0];
    if circuit.Str? then Ok(circuit.s)
    else
      var kind :- TextOr(circuit, "__type__", "");
      var _ :- Require(kind == "QuantumCircuit" && Has(circuit, "__value__") && circuit.fields["__value__"].Str?, NotSupported);
      Restored(lib.zlib, circuit.fields["__value__"].s)
  }

  function FormatOf(circuit: Json): Format {
    if circuit.Str? then Qasm3 else QpyFile
  }

  ghost function SourcesOf(lib: Library, pubs: seq<Json>, format: Format, shots: nat): (r: Result<seq<string>>)
    ensures r.Ok? ==> |r.value| == |pubs|
  {
    if pubs == [] then Ok([])
    else
      var front :- SourcesOf(lib, pubs[..|pubs| - 1], format, shots);
      var last :- SourceOf(lib, pubs[|pubs| - 1], format, shots);
      Ok(front + [last])
  }

  /** The job a Sampler's parameters describe. */
  ghost function SamplerJob(lib: Library, s: JobState, params: Json): Result<JobState> {
    var version :- At(params, "version");
    var _ :- Require(IsNumber(version, 2), NotSupported);
    var qiskit :- BoolOr(params, "support_qiskit", true);
    var _ :- Require(!qiskit, NotSupported);
    var list :- At(params, "pubs");
    var _ :- Require(list.Arr? && list.items != [], NotSupported);
    var pubs := list.items;
    var _ :- Require(pubs[0].Arr? && |pubs[0].items| == 3, NotSupported);
    var format := FormatOf(pubs[0].items[0]);
    var shots :- PositiveInteger(pubs[0].items[2]);
    var _ :- CheckExecutions(|pubs|, shots);
    var sources :- SourcesOf(lib, pubs, format, shots);
    var shot :- WithShots(s, shots);
    WithPrograms(lib, shot, format, sources)
  }

  ghost function ExecutorJob(lib: Library, s: JobState, params: Json): Result<JobState> {
    match lib.dump(params)
    case None => Err(Fatal)
    case Some(text) => WithPrograms(lib, s, Executor, [text])
  }

  /** The job a job document describes, bar its status. */
  ghost function Described(lib: Library, s: JobState, id: string, data: Json): Result<JobState> {
    var named :- At(data, "id");
    var _ :- Require(named == Str(id), InvalidArgument);
    var backend :- At(data, "backend");
    var _ :- Require(backend == Str(s.backend), InvalidArgument);
    var program :- At(data, "program");
    var programId :- At(program, "id");
    var _ :- Require(programId == Str("sampler") || programId == Str("executor"), NotSupported);
    var hidden :- BoolOr(data, "private", false);
    var _ :- Require(!hidden, NotSupported);
    var field :- At(data, "params");
    var params :- Unwrapped(lib, field);
    if programId == Str("executor") then ExecutorJob(lib, s, params) else SamplerJob(lib, s, params)
  }

  ghost function RetrievedJob(lib: Library, s: JobState, id: string, answer: Result<Response>): Result<JobState> {
    var data :- Fetched(lib, answer);
    var job :- Described(lib, s, id, data);
    var status :- ParseStatus(data);
    Ok(job.(id := id, attempted := true, status := status))
  }

  /** A handle is registered only if retrieval succeeds. */
  ghost function Retrieve(lib: Library, s: JobState, id: string, answer: Answers): (Result<JobState>, seq<Ask>) {
    if !IsIdentifier(id) then (Err(InvalidArgument), [])
    else
      var ask := Ask(Path(id), false, "");
      (RetrievedJob(lib, s, id, answer(ask)), [ask])
  }
}
