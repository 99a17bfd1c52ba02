/** Any sequence of calls on a job handle, with any answers from the server
    (src/Job.cpp behind the entry points of src/Device.cpp). */
module JobRuns {
  import opened Common
  import opened Http
  import opened JsonModel
  import opened JobSpec
  import opened Retrieval
  import R = Results

  // ----- the entry points

  /** A null value only asks whether the setting is supported. */
  datatype Call =
    | SetPrograms(format: Format, sources: seq<string>, probe: bool)
    | SetShots(shots: Option<nat>)
    | SetMaxExecutionTime(seconds: Option<nat>)
    | SetDynamicalDecoupling(options: Option<string>)
    | SubmitJob
    | CheckJob
    | CancelJob
    | GetResults(index: nat)
    | GetExecutorResults(index: nat)

  /** What a call does: the state it leaves, its error, and its requests. */
  datatype Effect = Effect(state: JobState, error: Option<Error>, asks: seq<Ask>)

  function ProgramsEntry(lib: Library, s: JobState, format: Format, sources: seq<string>, probe: bool): Result<JobState> {
    var _ :- Require(|sources| != 0, InvalidArgument);
    var _ :- Require(Configurable(s), BadState);
    var _ :- CheckSupport(s, format, |sources|);
    if probe then Ok(s)
    else if format == QpyFile && "" in sources then Err(InvalidArgument)
    else WithPrograms(lib, s, format, sources)
  }

  function ShotsEntry(s: JobState, shots: Option<nat>): Result<JobState> {
    var _ :- Require(Configurable(s), BadState);
    var _ :- Require(s.format != Some(Executor), NotSupported);
    if shots == None then Ok(s) else WithShots(s, shots.value)
  }

  function MaxExecutionTimeEntry(s: JobState, seconds: Option<nat>): Result<JobState> {
    var _ :- Require(Configurable(s), BadState);
    if seconds == None then Ok(s)
    else if 1 <= seconds.value <= 10800 then Ok(s.(maxExecutionTime := seconds.value)) else Err(InvalidArgument)
  }

  function DynamicalDecouplingEntry(lib: Library, s: JobState, options: Option<string>): Result<JobState> {
    var _ :- Require(Configurable(s), BadState);
    var _ :- Require(s.format != Some(Executor), NotSupported);
    if options == None then Ok(s) else WithDynamicalDecoupling(lib, s, options.value)
  }

  function ExecutorEntry(lib: Library, s: JobState, index: nat, answer: Answers): Step<string> {
    if index >= |s.programs| then Step(s, Err(OutOfRange), []) else FetchExecutor(lib, s, answer)
  }

  function Setting(s: JobState, r: Result<JobState>): Effect {
    match r
    case Err(error) => Effect(s, Some(error), [])
    case Ok(state) => Effect(state, None, [])
  }

  function Stepping<T>(step: Step<T>): Effect {
    Effect(step.state, if step.result.Err? then Some(step.result.error) else None, step.asks)
  }

  ghost function Perform(lib: Library, s: JobState, call: Call, answer: Answers): Effect {
    match call
    case SetPrograms(format, sources, probe) => Setting(s, ProgramsEntry(lib, s, format, sources, probe))
    case SetShots(shots) => Setting(s, ShotsEntry(s, shots))
    case SetMaxExecutionTime(seconds) => Setting(s, MaxExecutionTimeEntry(s, seconds))
    case SetDynamicalDecoupling(options) => Setting(s, DynamicalDecouplingEntry(lib, s, options))
    case SubmitJob => Stepping(Submit(lib, s, answer))
    case CheckJob => Stepping(Check(lib, s, answer))
    case CancelJob => Stepping(Cancel(lib, s, answer))
    case GetResults(index) => Stepping(Fetch(lib, s, index, answer))
    case GetExecutorResults(index) => Stepping(ExecutorEntry(lib, s, index, answer))
  }

  // ----- runs

  /** A call and the answers the server gives during it. */
  datatype Turn = Turn(call: Call, answer: Answers)

  /** The state and all requests after a run of calls. */
  ghost function Run(lib: Library, s: JobState, turns: seq<Turn>): (JobState, seq<Ask>) {
    if turns == [] then (s, [])
    else
      var (state, asks) := Run(lib, s, turns[..|turns| - 1]);
      var last := turns[|turns| - 1];
      var effect := Perform(lib, state, last.call, last.answer);
      (effect.state, asks + effect.asks)
  }

  /** The states a handle can start in: created, or retrieved. */
  ghost predicate Starts(lib: Library, s: JobState) {
    || (exists backend, qubits :: s == NewJob(backend, qubits))
    || (exists backend, qubits, id, answer :: RetrievedFrom(lib, s, backend, qubits, id, answer))
  }

  ghost predicate RetrievedFrom(lib: Library, s: JobState, backend: string, qubits: nat, id: string, answer: Answers) {
    Retrieve(lib, NewJob(backend, qubits), id, answer).0 == Ok(s)
  }

  // ----- the invariant of a handle

  /** Dynamical decoupling only ever holds options the setter accepts. */
  ghost predicate OptionsValid(s: JobState) {
    forall key :: key in s.dynamicalDecoupling ==> IsOption(key, s.dynamicalDecoupling[key])
  }

  /** A handle is in one of two lives. Before submission it has no identifier and
      no results; after it, it can never be configured again. */
  ghost predicate Sound(lib: Library, s: JobState) {
    && Configured(lib, s) && OptionsValid(s)
    && (s.attempted <==> s.status != Created)
    && (s.id != "" ==> s.attempted && IsIdentifier(s.id))
    && (s.attempted ==> s.format.Some?)
    && (s.cached.Some? ==> s.status == Completed && s.format != Some(Executor) && |s.cached.value| == |s.programs|)
    && (s.cachedExecutor.Some? ==> s.status == Completed && s.format == Some(Executor))
  }

  lemma ProgramsKeep(lib: Library, s: JobState, format: Format, sources: seq<string>)
    requires Configured(lib, s) && WithPrograms(lib, s, format, sources).Ok?
    ensures Configured(lib, WithPrograms(lib, s, format, sources).value)
  {
    hide LayoutsMatch, LayoutsOf, ExecutorShots;
    if format == Executor {
      ExecutorShotsPositive(lib, sources[0]);
    } else {
      LayoutsExact(format, sources, s.qubits, LayoutsOf(format, sources, s.qubits).value);
      Product(|sources|, s.shots);
    }
  }

  lemma ExecutorShotsPositive(lib: Library, source: string)
    ensures ExecutorShots(lib, source).Ok? ==> 1 <= ExecutorShots(lib, source).value <= SIZE_MAX
  {
  }

  lemma ShotsKeep(lib: Library, s: JobState, value: nat)
    requires Configured(lib, s) && WithShots(s, value).Ok?
    ensures Configured(lib, WithShots(s, value).value)
  {
    hide LayoutsMatch;
    Product(Max(|s.programs|, 1), value);
  }

  lemma SettingKeeps(lib: Library, s: JobState, call: Call, answer: Answers)
    requires Sound(lib, s) && !call.SubmitJob? && !call.CheckJob? && !call.CancelJob? && !call.GetResults? && !call.GetExecutorResults?
    ensures Sound(lib, Perform(lib, s, call, answer).state)
    ensures Perform(lib, s, call, answer).asks == []
    ensures Perform(lib, s, call, answer).error.Some? ==> Perform(lib, s, call, answer).state == s
    ensures s.attempted ==> Perform(lib, s, call, answer).state == s
  {
    hide LayoutsMatch, LayoutsOf, ExecutorShots, IsIdentifier;
    match call
    case SetPrograms(format, sources, probe) =>
      if ProgramsEntry(lib, s, format, sources, probe).Ok? && !probe {
        ProgramsKeep(lib, s, format, sources);
      }
    case SetShots(shots) =>
      if ShotsEntry(s, shots).Ok? && shots.Some? {
        ShotsKeep(lib, s, shots.value);
      }
    case SetMaxExecutionTime(seconds) =>
    case SetDynamicalDecoupling(options) =>
  }

  // ----- what one call keeps

  function Submissions(asks: seq<Ask>): nat {
    if asks == [] then 0
    else Submissions(asks[..|asks| - 1]) + if IsSubmission(asks[|asks| - 1]) then 1 else 0
  }

  predicate IsSubmission(ask: Ask) {
    ask.post && ask.resource == SUBMISSION
  }

  predicate IsPoll(ask: Ask, id: string) {
    !ask.post && ask.resource == Path(id)
  }

  predicate IsResultsRequest(ask: Ask, id: string) {
    !ask.post && ask.resource == Path(id) + "/results"
  }

  /** What submission freezes. */
  ghost predicate SameConfiguration(a: JobState, b: JobState) {
    && a.programs == b.programs && a.format == b.format && a.shots == b.shots && a.registers == b.registers
    && a.maxExecutionTime == b.maxExecutionTime && a.dynamicalDecoupling == b.dynamicalDecoupling
    && a.samplerOptionsSet == b.samplerOptionsSet && a.backend == b.backend && a.qubits == b.qubits
  }

  /** What a call on a submitted or retrieved handle may do: change the status
      while it is not final, fill a cache when it is completed, and ask for the
      status or the results only while there is something to learn. */
  ghost predicate Settled(s: JobState, state: JobState, asks: seq<Ask>) {
    && SameConfiguration(s, state) && state.id == s.id && state.attempted
    && (Terminal(s.status) ==> state.status == s.status)
    && (s.cached.Some? ==> state.cached == s.cached)
    && (s.cachedExecutor.Some? ==> state.cachedExecutor == s.cachedExecutor)
    && forall i :: 0 <= i < |asks| ==>
         && !IsSubmission(asks[i])
         && (Terminal(s.status) ==> !IsPoll(asks[i], s.id))
         && (s.cached.Some? || s.cachedExecutor.Some? ==> !IsResultsRequest(asks[i], s.id))
  }

  lemma CheckSettled(lib: Library, s: JobState, answer: Answers)
    requires Sound(lib, s)
    ensures var step := Check(lib, s, answer);
      && Sound(lib, step.state) && step.state == s.(status := step.state.status)
      && (step.asks == [] || (step.asks == [Ask(Path(s.id), false, "")] && s.attempted && !Terminal(s.status)))
      && (s.attempted ==> Settled(s, step.state, step.asks))
      && (step.result.Ok? ==> step.result.value == step.state.status)
  {
    hide Configured, IsIdentifier, Fetched, Path;
    if s.id != "" && !Terminal(s.status) && Polled(lib, s, answer(Ask(Path(s.id), false, ""))).Ok? {
      assert Polled(lib, s, answer(Ask(Path(s.id), false, ""))).value != Created;
      StatusAside(lib, s, Polled(lib, s, answer(Ask(Path(s.id), false, ""))).value);
    }
  }

  lemma StatusAside(lib: Library, s: JobState, status: Status)
    requires Configured(lib, s)
    ensures Configured(lib, s.(status := status))
  {
    hide LayoutsMatch, ExecutorShots;
  }

  lemma SubmitKeeps(lib: Library, s: JobState, answer: Answers)
    requires Sound(lib, s)
    ensures var step := Submit(lib, s, answer);
      && Sound(lib, step.state)
      && (step.asks == [] ==> step.state == s)
      && (step.asks != [] ==> |step.asks| == 1 && IsSubmission(step.asks[0]) && !s.attempted && step.state.attempted)
      && (s.attempted ==> step.asks == [])
      && SameConfiguration(s, step.state)
  {
    hide LayoutsMatch, ExecutorShots, IsIdentifier, Payload, Fetched;
  }

  lemma CancelSettled(lib: Library, s: JobState, answer: Answers)
    requires Sound(lib, s)
    ensures var step := Cancel(lib, s, answer);
      && Sound(lib, step.state)
      && (step.asks == [] ==> step.state == s)
      && (s.attempted ==> Settled(s, step.state, step.asks))
      && (!s.attempted ==> step.asks == [])
  {
    CheckSettled(lib, s, answer);
    StatusAside(lib, s, Canceled);
    hide Configured, IsIdentifier, Check;
  }

  lemma CacheAside(lib: Library, s: JobState, decoded: seq<R.Results>, text: string)
    requires Configured(lib, s)
    ensures Configured(lib, s.(cached := Some(decoded))) && Configured(lib, s.(cachedExecutor := Some(text)))
  {
    hide LayoutsMatch, ExecutorShots;
  }

  lemma BatchSize(lib: Library, s: JobState, answer: Result<Response>)
    requires Batch(lib, s, answer).Ok?
    ensures |Batch(lib, s, answer).value| == |s.programs|
  {
    hide ResultsDocument;
  }

  /** A cache is filled only for a completed job, after every program decoded. */
  lemma FetchSettled(lib: Library, s: JobState, index: nat, answer: Answers)
    requires Sound(lib, s)
    ensures var step := Fetch(lib, s, index, answer);
      && Sound(lib, step.state)
      && (step.state.cachedExecutor == s.cachedExecutor)
      && (s.attempted ==> Settled(s, step.state, step.asks))
      && (!s.attempted ==> step.asks == [] && step.state == s)
      && (step.state.cached != s.cached ==>
          && step.state.status == Completed && s.cached == None
          && step.state.cached.Some?
          && Batch(lib, s, answer(Ask(Path(s.id) + "/results", false, ""))) == Ok(step.state.cached.value))
      && (step.result.Ok? ==>
          && step.state.cached.Some? && index < |step.state.cached.value|
          && step.result.value == step.state.cached.value[index])
  {
    CheckSettled(lib, s, answer);
    var check := Check(lib, s, answer);
    if index < |s.programs| && s.format != Some(Executor) && Finished(check).Ok? && check.state.cached == None {
      var batch := Batch(lib, check.state, answer(Ask(Path(s.id) + "/results", false, "")));
      assert batch == Batch(lib, s, answer(Ask(Path(s.id) + "/results", false, ""))) by {
        hide ResultsDocument, DecodeAll;
      }
      if batch.Ok? {
        BatchSize(lib, check.state, answer(Ask(Path(s.id) + "/results", false, "")));
        CacheAside(lib, check.state, batch.value, "");
      }
    }
    hide Configured, IsIdentifier, Check, Batch;
  }

  lemma FetchExecutorSettled(lib: Library, s: JobState, index: nat, answer: Answers)
    requires Sound(lib, s)
    ensures var step := ExecutorEntry(lib, s, index, answer);
      && Sound(lib, step.state)
      && (step.state.cached == s.cached)
      && (s.attempted ==> Settled(s, step.state, step.asks))
      && (!s.attempted ==> step.asks == [] && step.state == s)
      && (step.result.Ok? ==> step.state.cachedExecutor == Some(step.result.value))
  {
    CheckSettled(lib, s, answer);
    var check := Check(lib, s, answer);
    var document := ExecutorDocument(lib, answer(Ask(Path(s.id) + "/results", false, "")));
    if document.Ok? {
      CacheAside(lib, check.state, [], document.value);
    }
    hide Configured, IsIdentifier, Check, ExecutorDocument;
  }

  // ----- every call, every run

  lemma PerformKeeps(lib: Library, s: JobState, call: Call, answer: Answers)
    requires Sound(lib, s)
    ensures var effect := Perform(lib, s, call, answer);
      && Sound(lib, effect.state)
      && (s.attempted ==> Settled(s, effect.state, effect.asks))
      && (effect.asks != [] && !s.attempted ==>
          call.SubmitJob? && |effect.asks| == 1 && IsSubmission(effect.asks[0]) && effect.state.attempted)
  {
    hide Sound, Submit, Check, Cancel, Fetch, ExecutorEntry, ProgramsEntry, ShotsEntry, MaxExecutionTimeEntry,
         DynamicalDecouplingEntry, IsSubmission, IsPoll, IsResultsRequest;
    match call
    case SubmitJob => SubmitKeeps(lib, s, answer);
    case CheckJob => CheckSettled(lib, s, answer);
    case CancelJob => CancelSettled(lib, s, answer);
    case GetResults(index) => FetchSettled(lib, s, index, answer);
    case GetExecutorResults(index) => FetchExecutorSettled(lib, s, index, answer);
    case _ => SettingKeeps(lib, s, call, answer);
  }

  lemma SettledTransitive(a: JobState, b: JobState, c: JobState, first: seq<Ask>, second: seq<Ask>)
    requires Settled(a, b, first) && Settled(b, c, second)
    ensures Settled(a, c, first + second)
  {
    hide IsSubmission, IsPoll, IsResultsRequest;
  }

  lemma {:induction false} NoSubmissions(asks: seq<Ask>)
    requires forall i :: 0 <= i < |asks| ==> !IsSubmission(asks[i])
    ensures Submissions(asks) == 0
  {
    if asks != [] {
      NoSubmissions(asks[..|asks| - 1]);
    }
  }

  lemma {:induction false} RunKeeps(lib: Library, s: JobState, turns: seq<Turn>)
    requires Sound(lib, s)
    ensures var (state, asks) := Run(lib, s, turns);
      && Sound(lib, state)
      && (s.attempted ==> Settled(s, state, asks))
      && Submissions(asks) <= (if s.attempted then 0 else 1)
      && (!state.attempted ==> asks == [])
  {
    hide Sound, Perform, Settled;
    if turns == [] {
      assert s.attempted ==> Settled(s, s, []) by {
        StaysSettled(s);
      }
    } else {
      var front := turns[..|turns| - 1];
      var last := turns[|turns| - 1];
      RunKeeps(lib, s, front);
      var (middle, before) := Run(lib, s, front);
      var effect := Perform(lib, middle, last.call, last.answer);
      PerformKeeps(lib, middle, last.call, last.answer);
      if middle.attempted {
        SettledAsks(middle, effect.state, effect.asks);
        SettledSplit(before, effect.asks);
        if s.attempted {
          SettledTransitive(s, middle, effect.state, before, effect.asks);
        }
      } else {
        assert before + effect.asks == effect.asks;
        assert |effect.asks| <= 1 && (effect.asks != [] ==> effect.asks[..0] == []);
        if s.attempted {
          SettledAsks(s, middle, before);
          assert false;
        }
      }
    }
  }

  lemma StaysSettled(s: JobState)
    ensures s.attempted ==> Settled(s, s, [])
  {
  }

  lemma SettledAsks(s: JobState, state: JobState, asks: seq<Ask>)
    requires Settled(s, state, asks)
    ensures state.attempted && forall i :: 0 <= i < |asks| ==> !IsSubmission(asks[i])
  {
  }

  lemma {:induction false} SettledSplit(asks: seq<Ask>, more: seq<Ask>)
    requires forall i :: 0 <= i < |more| ==> !IsSubmission(more[i])
    ensures Submissions(asks + more) == Submissions(asks)
  {
    if more == [] {
      assert asks + more == asks;
    } else {
      var n := |more| - 1;
      SettledSplit(asks, more[..n]);
      assert (asks + more)[..|asks| + n] == asks + more[..n];
    }
  }

  // ----- where handles start

  lemma NewJobSound(lib: Library, backend: string, qubits: nat)
    ensures Sound(lib, NewJob(backend, qubits))
  {
  }

  lemma DescribedConfigured(lib: Library, s: JobState, id: string, data: Json)
    requires Configured(lib, s) && Described(lib, s, id, data).Ok?
    ensures var job := Described(lib, s, id, data).value;
      && Configured(lib, job) && job.format.Some? && job.cached == None && job.cachedExecutor == None
      && job.dynamicalDecoupling == s.dynamicalDecoupling
  {
    hide Configured, At, SourcesOf, ParseStatus, BoolOr, PositiveInteger, CheckExecutions, LayoutsOf, ExecutorShots, CheckSupport;
    var params := Unwrapped(lib, At(data, "params").value).value;
    if ExecutorJob(lib, s, params).Ok? {
      ProgramsKeep(lib, s, Executor, [lib.dump(params).value]);
    }
    if SamplerJob(lib, s, params).Ok? {
      SamplerConfigured(lib, s, params);
    }
  }

  lemma SamplerConfigured(lib: Library, s: JobState, params: Json)
    requires Configured(lib, s) && SamplerJob(lib, s, params).Ok?
    ensures var job := SamplerJob(lib, s, params).value;
      && Configured(lib, job) && job.format.Some? && job.cached == None && job.cachedExecutor == None
      && job.dynamicalDecoupling == s.dynamicalDecoupling
  {
    hide Configured, SourcesOf, BoolOr, PositiveInteger, CheckExecutions, LayoutsOf, ExecutorShots, CheckSupport;
    var pubs := At(params, "pubs").value.items;
    var shots := PositiveInteger(pubs[0].items[2]).value;
    ShotsKeep(lib, s, shots);
    var shot := WithShots(s, shots).value;
    var format := FormatOf(pubs[0].items[0]);
    ProgramsKeep(lib, shot, format, SourcesOf(lib, pubs, format, shots).value);
  }

  lemma RetrievedSound(lib: Library, s: JobState, backend: string, qubits: nat, id: string, answer: Answers)
    requires RetrievedFrom(lib, s, backend, qubits, id, answer)
    ensures Sound(lib, s) && s.attempted
    ensures Submissions(Retrieve(lib, NewJob(backend, qubits), id, answer).1) == 0
  {
    var blank := NewJob(backend, qubits);
    NewJobSound(lib, backend, qubits);
    assert Configured(lib, blank);
    hide Described, Configured, IsIdentifier, NewJob, Fetched;
    var data := Fetched(lib, answer(Ask(Path(id), false, ""))).value;
    DescribedConfigured(lib, blank, id, data);
    AttemptAside(lib, Described(lib, blank, id, data).value, id, s.status);
    IdentifierNonempty(id);
    NoSubmissions(Retrieve(lib, blank, id, answer).1);
  }

  lemma IdentifierNonempty(id: string)
    requires IsIdentifier(id)
    ensures id != ""
  {
  }

  lemma AttemptAside(lib: Library, s: JobState, id: string, status: Status)
    requires Configured(lib, s)
    ensures Configured(lib, s.(id := id, attempted := true, status := status))
  {
    hide LayoutsMatch, ExecutorShots;
  }

  lemma StartsSound(lib: Library, s: JobState)
    requires Starts(lib, s)
    ensures Sound(lib, s)
  {
    hide Sound, NewJob, RetrievedFrom;
    if backend, qubits :| s == NewJob(backend, qubits) {
      NewJobSound(lib, backend, qubits);
    } else {
      var backend, qubits, id, answer :| RetrievedFrom(lib, s, backend, qubits, id, answer);
      RetrievedSound(lib, s, backend, qubits, id, answer);
    }
  }

  // ----- the main results

  /** Every state of every handle is sound: shots are positive, a Sampler job
      stays within the execution limit with one parsed layout a program, and an
      Executor job has one program and no Sampler options. */
  lemma AlwaysConfigured(lib: Library, s: JobState, turns: seq<Turn>)
    requires Starts(lib, s)
    ensures Sound(lib, Run(lib, s, turns).0)
  {
    hide Sound, Starts, Run;
    StartsSound(lib, s);
    RunKeeps(lib, s, turns);
  }

  /** Whatever is called and whatever the server answers, a handle submits at
      most once, and a retrieved handle never. */
  lemma AtMostOneSubmission(lib: Library, s: JobState, turns: seq<Turn>)
    requires Starts(lib, s)
    ensures Submissions(Run(lib, s, turns).1) <= 1
    ensures (exists backend, qubits, id, answer :: RetrievedFrom(lib, s, backend, qubits, id, answer)) ==>
      Submissions(Run(lib, s, turns).1) == 0
  {
    hide Sound, NewJob, RetrievedFrom, Run;
    StartsSound(lib, s);
    RunKeeps(lib, s, turns);
    if backend, qubits, id, answer :| RetrievedFrom(lib, s, backend, qubits, id, answer) {
      RetrievedSound(lib, s, backend, qubits, id, answer);
    }
  }

  lemma RunStep(lib: Library, s: JobState, turns: seq<Turn>)
    requires turns != []
    ensures var n := |turns| - 1; var before := Run(lib, s, turns[..n]);
      var effect := Perform(lib, before.0, turns[n].call, turns[n].answer);
      Run(lib, s, turns) == (effect.state, before.1 + effect.asks)
  {
    hide Perform;
  }

  lemma RunNothing(lib: Library, s: JobState)
    ensures Run(lib, s, []) == (s, [])
  {
  }

  lemma {:induction false} RunAppend(lib: Library, s: JobState, turns: seq<Turn>, more: seq<Turn>)
    ensures Run(lib, s, turns + more).0 == Run(lib, Run(lib, s, turns).0, more).0
    ensures Run(lib, s, turns + more).1 == Run(lib, s, turns).1 + Run(lib, Run(lib, s, turns).0, more).1
  {
    hide Perform, Run;
    if more == [] {
      assert turns + more == turns;
      RunNothing(lib, Run(lib, s, turns).0);
    } else {
      var n := |more| - 1;
      RunAppend(lib, s, turns, more[..n]);
      var all, middle := turns + more, Run(lib, s, turns);
      assert all[..|turns| + n] == turns + more[..n] && all[|turns| + n] == more[n];
      RunStep(lib, s, all);
      RunStep(lib, middle.0, more);
      var before := Run(lib, middle.0, more[..n]);
      var effect := Perform(lib, before.0, more[n].call, more[n].answer);
      assert (middle.1 + before.1) + effect.asks == middle.1 + (before.1 + effect.asks);
    }
  }

  /** At any call boundary, a final status stays, and is never asked for again. */
  lemma FinalStatusIsForGood(lib: Library, s: JobState, turns: seq<Turn>, more: seq<Turn>)
    requires Starts(lib, s) && Terminal(Run(lib, s, turns).0.status)
    ensures var (later, asks) := Run(lib, Run(lib, s, turns).0, more);
      && Run(lib, s, turns + more).0 == later && later.status == Run(lib, s, turns).0.status
      && forall i :: 0 <= i < |asks| ==> !IsPoll(asks[i], later.id)
  {
    hide Configured, Starts, Run, IsPoll, IsSubmission, IsResultsRequest;
    StartsSound(lib, s);
    RunKeeps(lib, s, turns);
    RunKeeps(lib, Run(lib, s, turns).0, more);
    RunAppend(lib, s, turns, more);
  }

  /** Every program's results are read from the cache, with no request. */
  ghost predicate ReadsFrom(lib: Library, s: JobState, cached: seq<R.Results>) {
    && s.status == Completed && |cached| == |s.programs|
    && forall i, answer :: 0 <= i < |cached| ==> Fetch(lib, s, i, answer) == Step(s, Ok(cached[i]), [])
  }

  /** Results once read are read again unchanged, whatever happens in between,
      and without any request. */
  lemma ResultsAreForGood(lib: Library, s: JobState, turns: seq<Turn>, index: nat, answer: Answers, more: seq<Turn>)
    requires Starts(lib, s)
    requires Fetch(lib, Run(lib, s, turns).0, index, answer).result.Ok?
    ensures var read := Fetch(lib, Run(lib, s, turns).0, index, answer);
      && read.state.cached.Some? && index < |read.state.cached.value|
      && read.result == Ok(read.state.cached.value[index])
      && ReadsFrom(lib, Run(lib, read.state, more).0, read.state.cached.value)
  {
    hide Configured, Starts, Run, IsPoll, IsSubmission, IsResultsRequest, Fetch;
    StartsSound(lib, s);
    RunKeeps(lib, s, turns);
    var state := Run(lib, s, turns).0;
    FetchSettled(lib, state, index, answer);
    var read := Fetch(lib, state, index, answer);
    RunKeeps(lib, read.state, more);
    var later := Run(lib, read.state, more).0;
    forall i, again | 0 <= i < |later.programs|
      ensures Fetch(lib, later, i, again) == Step(later, Ok(read.state.cached.value[i]), [])
    {
      ReadAgain(lib, later, i, again);
    }
  }

  /** The same for the result document of an Executor job. */
  lemma ExecutorResultIsForGood(lib: Library, s: JobState, turns: seq<Turn>, answer: Answers, more: seq<Turn>, index: nat, again: Answers)
    requires Starts(lib, s)
    requires FetchExecutor(lib, Run(lib, s, turns).0, answer).result.Ok?
    ensures var read := FetchExecutor(lib, Run(lib, s, turns).0, answer); var later := Run(lib, read.state, more).0;
      && later.status == Completed
      && FetchExecutor(lib, later, again) == Step(later, read.result, [])
      && (index < |later.programs| ==> ExecutorEntry(lib, later, index, again) == Step(later, read.result, []))
  {
    hide Configured, Starts, Run, IsPoll, IsSubmission, IsResultsRequest, FetchExecutor;
    StartsSound(lib, s);
    RunKeeps(lib, s, turns);
    var state := Run(lib, s, turns).0;
    OneProgram(lib, state, answer);
    FetchExecutorSettled(lib, state, 0, answer);
    var read := FetchExecutor(lib, state, answer);
    RunKeeps(lib, read.state, more);
    ReadExecutorAgain(lib, Run(lib, read.state, more).0, read.result.value, again);
  }

  lemma OneProgram(lib: Library, s: JobState, answer: Answers)
    requires Sound(lib, s) && FetchExecutor(lib, s, answer).result.Ok?
    ensures |s.programs| == 1
  {
    hide Check, FetchExecutorFinished;
  }

  lemma ReadExecutorAgain(lib: Library, s: JobState, text: string, answer: Answers)
    requires s.status == Completed && s.format == Some(Executor) && s.cachedExecutor == Some(text)
    ensures FetchExecutor(lib, s, answer) == Step(s, Ok(text), [])
  {
  }

  lemma ReadAgain(lib: Library, s: JobState, index: nat, answer: Answers)
    requires s.status == Completed && s.format != Some(Executor) && index < |s.programs|
    requires s.cached.Some? && |s.cached.value| == |s.programs|
    ensures Fetch(lib, s, index, answer) == Step(s, Ok(s.cached.value[index]), [])
  {
  }
}