/** The job entry points of src/Device.cpp on one handle: any sequence of calls
    runs on the job object, and the transport sees at most one submission. */
module Handle {
  import opened Common
  import opened Auth
  import opened JobSpec
  import opened Traffic
  import opened Job
  import opened Retrieval
  import opened JobRuns

  function ErrorOf<T>(r: Result<T>): Option<Error> {
    if r.Err? then Some(r.error) else None
  }

  method SetProgramsEntry(job: Job, format: Format, sources: seq<string>, probe: bool) returns (r: Result<()>)
    modifies job`programs, job`registers, job`format, job`shots, job`cached, job`cachedExecutor
    ensures match ProgramsEntry(job.lib, old(job.State()), format, sources, probe)
            case Err(error) => r == Err(error) && job.State() == old(job.State())
            case Ok(state) => r.Ok? && job.State() == state
  {
    hide WithPrograms, CheckSupport;
    if |sources| == 0 {
      return Err(InvalidArgument);
    }
    if !Configurable(job.State()) {
      return Err(BadState);
    }
    var _ :- CheckSupport(job.State(), format, |sources|);
    if probe {
      return Ok(());
    }
    for i := 0 to |sources|
      invariant format == QpyFile ==> "" !in sources[..i]
      invariant job.State() == old(job.State())
    {
      if format == QpyFile && sources[i] == "" {
        return Err(InvalidArgument);
      }
    }
    assert sources[..|sources|] == sources;
    r := job.SetPrograms(format, sources);
  }

  method SetShotsEntry(job: Job, shots: Option<nat>) returns (r: Result<()>)
    modifies job`shots, job`samplerOptionsSet
    ensures match ShotsEntry(old(job.State()), shots)
            case Err(error) => r == Err(error) && job.State() == old(job.State())
            case Ok(state) => r.Ok? && job.State() == state
  {
    hide WithShots;
    if !Configurable(job.State()) {
      return Err(BadState);
    }
    if job.format == Some(Executor) {
      return Err(NotSupported);
    }
    if shots == None {
      return Ok(());
    }
    r := job.SetShots(shots.value);
  }

  method SetMaxExecutionTimeEntry(job: Job, seconds: Option<nat>) returns (r: Result<()>)
    modifies job`maxExecutionTime
    ensures match MaxExecutionTimeEntry(old(job.State()), seconds)
            case Err(error) => r == Err(error) && job.State() == old(job.State())
            case Ok(state) => r.Ok? && job.State() == state
  {
    if !Configurable(job.State()) {
      return Err(BadState);
    }
    if seconds == None {
      return Ok(());
    }
    if seconds.value == 0 || seconds.value > 10800 {
      return Err(InvalidArgument);
    }
    job.maxExecutionTime := seconds.value;
    return Ok(());
  }

  method SetDynamicalDecouplingEntry(job: Job, options: Option<string>) returns (r: Result<()>)
    modifies job`dynamicalDecoupling, job`samplerOptionsSet
    ensures match DynamicalDecouplingEntry(job.lib, old(job.State()), options)
            case Err(error) => r == Err(error) && job.State() == old(job.State())
            case Ok(state) => r.Ok? && job.State() == state
  {
    hide WithDynamicalDecoupling;
    if !Configurable(job.State()) {
      return Err(BadState);
    }
    if job.format == Some(Executor) {
      return Err(NotSupported);
    }
    if options == None {
      return Ok(());
    }
    r := job.SetDynamicalDecoupling(options.value);
  }

  lemma FetchOutOfRange(lib: Library, s: JobState, index: nat, answer: Answers)
    requires index >= |s.programs|
    ensures Fetch(lib, s, index, answer) == Step(s, Err(OutOfRange), [])
  {
  }

  /** One call on the handle. */
  method Perform(job: Job, call: Call) returns (error: Option<Error>, ghost answer: Answers, ghost events: seq<Event>)
    requires job.Valid()
    modifies job, job.auth`cachedToken, job.auth`issued, job.auth.world, job.auth.issued
    ensures job.Valid() && old(job.auth.issued) <= job.auth.issued && fresh(job.auth.issued - old(job.auth.issued))
    ensures job.auth.world.log == old(job.auth.world.log) + events && job.auth.world.now >= old(job.auth.world.now)
    ensures var effect := JobRuns.Perform(job.lib, old(job.State()), call, answer);
      job.State() == effect.state && error == effect.error && Carries(events, effect.asks)
      && Replied(job.auth.parse, events, effect.asks, answer,
                 Late(job.auth.world.now, old(job.auth.world.now), NO_DEADLINE, job.auth.requestTimeout))
  {
    hide ProgramsEntry, ShotsEntry, MaxExecutionTimeEntry, DynamicalDecouplingEntry, Carries, Replied, Late,
         JobSpec.Submit, JobSpec.Check, JobSpec.Cancel, Fetch, FetchExecutor;
    events := [];
    answer := (_: Ask) => Err(Fatal);
    NoTraffic();
    NoReplies(job.auth.parse, answer, Late(job.auth.world.now, job.auth.world.now, NO_DEADLINE, job.auth.requestTimeout));
    match call {
      case SetPrograms(format, sources, probe) =>
        var r := SetProgramsEntry(job, format, sources, probe);
        error := ErrorOf(r);
      case SetShots(shots) =>
        var r := SetShotsEntry(job, shots);
        error := ErrorOf(r);
      case SetMaxExecutionTime(seconds) =>
        var r := SetMaxExecutionTimeEntry(job, seconds);
        error := ErrorOf(r);
      case SetDynamicalDecoupling(options) =>
        var r := SetDynamicalDecouplingEntry(job, options);
        error := ErrorOf(r);
      case SubmitJob =>
        var r;
        r, answer, events := job.Submit();
        error := ErrorOf(r);
      case CheckJob =>
        var r;
        r, answer, events := job.Check(NO_DEADLINE);
        error := ErrorOf(r);
      case CancelJob =>
        var r;
        r, answer, events := job.Cancel();
        error := ErrorOf(r);
      case GetResults(index) =>
        if index >= |job.programs| {
          FetchOutOfRange(job.lib, job.State(), index, answer);
          error := Some(OutOfRange);
        } else {
          var r;
          r, answer, events := job.Results(index);
          error := ErrorOf(r);
        }
      case GetExecutorResults(index) =>
        if index >= |job.programs| {
          error := Some(OutOfRange);
        } else {
          var r;
          r, answer, events := job.ExecutorResults();
          error := ErrorOf(r);
        }
    }
  }

  lemma {:induction false} SubmissionsAllowed(asks: seq<Ask>)
    ensures Allowed(asks, SUBMISSION, true) == Submissions(asks)
  {
    if asks != [] {
      SubmissionsAllowed(asks[..|asks| - 1]);
    }
  }

  /** Any sequence of calls on a handle, whatever the transport does: the object
      goes through a run of the specification, and the transport sees at most one
      submission, none when the handle was retrieved or has submitted before. */
  method Drive(job: Job, calls: seq<Call>) returns (ghost turns: seq<Turn>, ghost events: seq<Event>)
    requires job.Valid() && Sound(job.lib, job.State())
    modifies job, job.auth`cachedToken, job.auth`issued, job.auth.world, job.auth.issued
    ensures job.Valid() && Sound(job.lib, job.State())
    ensures old(job.auth.issued) <= job.auth.issued && fresh(job.auth.issued - old(job.auth.issued))
    ensures job.auth.world.now >= old(job.auth.world.now)
    ensures |turns| == |calls| && forall i :: 0 <= i < |calls| ==> turns[i].call == calls[i]
    ensures job.State() == Run(job.lib, old(job.State()), turns).0
    ensures job.auth.world.log == old(job.auth.world.log) + events
    ensures Carries(events, Run(job.lib, old(job.State()), turns).1)
    ensures Sends(events, SUBMISSION, true) <= if old(job.attempted) then 0 else 1
    ensures old(job.attempted) ==> job.attempted && job.id == old(job.id)
    ensures old(job.attempted) && Terminal(old(job.status)) ==> job.status == old(job.status)
  {
    hide Sound, JobRuns.Perform, Run, Carries, Replied, Late;
    ghost var start := job.State();
    turns := [];
    events := [];
    RunNothing(job.lib, start);
    NoTraffic();
    for i := 0 to |calls|
      invariant job.Valid() && old(job.auth.issued) <= job.auth.issued && fresh(job.auth.issued - old(job.auth.issued))
      invariant |turns| == i && forall j :: 0 <= j < i ==> turns[j].call == calls[j]
      invariant job.State() == Run(job.lib, start, turns).0
      invariant job.auth.world.log == old(job.auth.world.log) + events && job.auth.world.now >= old(job.auth.world.now)
      invariant Carries(events, Run(job.lib, start, turns).1)
    {
      ghost var before := Run(job.lib, start, turns);
      var error;
      ghost var answer, more;
      error, answer, more := Perform(job, calls[i]);
      ghost var longer := turns + [Turn(calls[i], answer)];
      assert longer[..i] == turns;
      RunStep(job.lib, start, longer);
      CarriesAppend(events, before.1, more, JobRuns.Perform(job.lib, before.0, calls[i], answer).asks);
      assert (old(job.auth.world.log) + events) + more == old(job.auth.world.log) + (events + more);
      turns := longer;
      events := events + more;
    }
    RunKeeps(job.lib, start, turns);
    SubmissionBound(events, Run(job.lib, start, turns).1);
  }

  lemma SubmissionBound(events: seq<Event>, asks: seq<Ask>)
    requires Carries(events, asks)
    ensures Sends(events, SUBMISSION, true) <= Submissions(asks)
  {
    SubmissionsAllowed(asks);
  }
}
