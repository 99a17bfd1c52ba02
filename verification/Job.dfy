/** The job object of src/Job.cpp. Its methods update the fields in place and send
    requests through the retry loop; each does exactly what JobSpec says. */
module Job {
  import opened Common
  import opened Http
  import opened JsonModel
  import opened Auth
  import opened JobSpec
  import opened Traffic
  import opened Program
  import opened Qpy
  import opened QpyLayout
  import opened Rewrite
  import R = Results

  /** steady_clock::time_point::max(): no deadline. */
  const NO_DEADLINE: nat := 0x7FFF_FFFF_FFFF_FFFF

  // ----- one more program

  lemma {:induction false} LayoutsPrefix(format: Format, sources: seq<string>, qubits: nat, n: nat)
    requires n <= |sources| && LayoutsOf(format, sources[..n], qubits).Err?
    ensures LayoutsOf(format, sources, qubits) == LayoutsOf(format, sources[..n], qubits)
    decreases |sources|
  {
    hide LayoutOf;
    if n < |sources| {
      var front := sources[..|sources| - 1];
      assert front[..n] == sources[..n];
      LayoutsPrefix(format, front, qubits, n);
    } else {
      assert sources[..n] == sources;
    }
  }

  lemma LayoutsStep(format: Format, sources: seq<string>, qubits: nat, i: nat)
    requires i < |sources| && LayoutsOf(format, sources[..i], qubits).Ok?
    ensures LayoutOf(format, sources[i], qubits).Err? ==>
      LayoutsOf(format, sources, qubits) == Err(LayoutOf(format, sources[i], qubits).error)
    ensures LayoutOf(format, sources[i], qubits).Ok? ==>
      LayoutsOf(format, sources[..i + 1], qubits) == Ok(LayoutsOf(format, sources[..i], qubits).value + [LayoutOf(format, sources[i], qubits).value])
  {
    hide LayoutOf;
    assert sources[..i + 1][..i] == sources[..i];
    if LayoutOf(format, sources[i], qubits).Err? {
      LayoutsPrefix(format, sources, qubits, i + 1);
    }
  }

  lemma {:induction false} PubsPrefix(lib: Library, format: Format, sources: seq<string>, shots: nat, n: nat)
    requires n <= |sources| && Pubs(lib, format, sources[..n], shots).Err?
    ensures Pubs(lib, format, sources, shots) == Pubs(lib, format, sources[..n], shots)
    decreases |sources|
  {
    hide Circuit;
    if n < |sources| {
      var front := sources[..|sources| - 1];
      assert front[..n] == sources[..n];
      PubsPrefix(lib, format, front, shots, n);
    } else {
      assert sources[..n] == sources;
    }
  }

  lemma PubsStep(lib: Library, format: Format, sources: seq<string>, shots: nat, i: nat)
    requires i < |sources| && Pubs(lib, format, sources[..i], shots).Ok?
    ensures Circuit(lib, format, sources[i]).Err? ==>
      Pubs(lib, format, sources, shots) == Err(Circuit(lib, format, sources[i]).error)
    ensures Circuit(lib, format, sources[i]).Ok? ==>
      Pubs(lib, format, sources[..i + 1], shots) ==
      Ok(Pubs(lib, format, sources[..i], shots).value + [Arr([Circuit(lib, format, sources[i]).value, Null, Int(shots)])])
  {
    hide Circuit;
    assert sources[..i + 1][..i] == sources[..i];
    if Circuit(lib, format, sources[i]).Err? {
      PubsPrefix(lib, format, sources, shots, i + 1);
    }
  }

  lemma {:induction false} SourcesPrefix(lib: Library, pubs: seq<Json>, format: Format, shots: nat, n: nat)
    requires n <= |pubs| && SourcesOf(lib, pubs[..n], format, shots).Err?
    ensures SourcesOf(lib, pubs, format, shots) == SourcesOf(lib, pubs[..n], format, shots)
    decreases |pubs|
  {
    hide SourceOf;
    if n < |pubs| {
      var front := pubs[..|pubs| - 1];
      assert front[..n] == pubs[..n];
      SourcesPrefix(lib, front, format, shots, n);
    } else {
      assert pubs[..n] == pubs;
    }
  }

  lemma SourcesStep(lib: Library, pubs: seq<Json>, format: Format, shots: nat, i: nat)
    requires i < |pubs| && SourcesOf(lib, pubs[..i], format, shots).Ok?
    ensures SourceOf(lib, pubs[i], format, shots).Err? ==>
      SourcesOf(lib, pubs, format, shots) == Err(SourceOf(lib, pubs[i], format, shots).error)
    ensures SourceOf(lib, pubs[i], format, shots).Ok? ==>
      SourcesOf(lib, pubs[..i + 1], format, shots) ==
      Ok(SourcesOf(lib, pubs[..i], format, shots).value + [SourceOf(lib, pubs[i], format, shots).value])
  {
    hide SourceOf;
    assert pubs[..i + 1][..i] == pubs[..i];
    if SourceOf(lib, pubs[i], format, shots).Err? {
      SourcesPrefix(lib, pubs, format, shots, i + 1);
    }
  }

  lemma {:induction false} DecodePrefix(pubs: seq<Json>, registers: seq<seq<Register>>, shots: nat, n: nat)
    requires n <= |pubs| && DecodeAll(pubs[..n], registers, shots).Err?
    ensures DecodeAll(pubs, registers, shots) == DecodeAll(pubs[..n], registers, shots)
    decreases |pubs|
  {
    hide R.Decoded;
    if n < |pubs| {
      var front := pubs[..|pubs| - 1];
      assert front[..n] == pubs[..n];
      DecodePrefix(front, registers, shots, n);
    } else {
      assert pubs[..n] == pubs;
    }
  }

  lemma DecodeStep(pubs: seq<Json>, registers: seq<seq<Register>>, shots: nat, i: nat)
    requires i < |pubs| && DecodeAll(pubs[..i], registers, shots).Ok?
    ensures var last := if i < |registers| then R.Decoded(pubs[i], registers[i], shots) else Err(Fatal);
      && (last.Err? ==> DecodeAll(pubs, registers, shots) == Err(last.error))
      && (last.Ok? ==> DecodeAll(pubs[..i + 1], registers, shots) == Ok(DecodeAll(pubs[..i], registers, shots).value + [last.value]))
  {
    hide R.Decoded;
    assert pubs[..i + 1][..i] == pubs[..i];
    if i >= |registers| || R.Decoded(pubs[i], registers[i], shots).Err? {
      DecodePrefix(pubs, registers, shots, i + 1);
    }
  }

  lemma CheckDependsOnPoll(lib: Library, s: JobState, a: Answers, b: Answers)
    requires a(Ask(Path(s.id), false, "")) == b(Ask(Path(s.id), false, ""))
    ensures JobSpec.Check(lib, s, a) == JobSpec.Check(lib, s, b)
  {
    hide Polled;
  }

  lemma CheckAsks(lib: Library, s: JobState, answer: Answers)
    ensures forall i :: 0 <= i < |JobSpec.Check(lib, s, answer).asks| ==> JobSpec.Check(lib, s, answer).asks[i] == Ask(Path(s.id), false, "")
    ensures JobSpec.Check(lib, s, answer).result.Ok? ==> JobSpec.Check(lib, s, answer).result.value == JobSpec.Check(lib, s, answer).state.status
  {
    hide Polled;
  }

  lemma CheckKeepsId(lib: Library, s: JobState, answer: Answers)
    ensures var state := JobSpec.Check(lib, s, answer).state;
      state.id == s.id && state.cached == s.cached && state.cachedExecutor == s.cachedExecutor
  {
    hide Polled;
  }

  /** No request starts at or after the deadline. */
  ghost predicate Before(events: seq<Event>, deadline: nat) {
    forall i :: 0 <= i < |events| && !events[i].Slept? ==> events[i].reading < deadline
  }

  /** Nothing has changed but, at most, the shots have been set. */
  ghost predicate AtMostShots(before: JobState, after: JobState) {
    after == before || WithShots(before, after.shots) == Ok(after)
  }

  class Job {
    const auth: Auth
    const lib: Library
    const backend: string
    const qubits: nat
    var id: string
    var programs: seq<string>
    var format: Option<Format>
    var shots: nat
    var maxExecutionTime: nat
    var status: Status
    var dynamicalDecoupling: map<string, Json>
    var attempted: bool
    var samplerOptionsSet: bool
    var registers: seq<seq<Register>>
    var cached: Option<seq<R.Results>>
    var cachedExecutor: Option<string>

    constructor (auth: Auth, lib: Library, backend: string, qubits: nat)
      requires auth.Valid()
      ensures Valid() && State() == NewJob(backend, qubits) && this.auth == auth && this.lib == lib
    {
      this.auth := auth;
      this.lib := lib;
      this.backend := backend;
      this.qubits := qubits;
      id := "";
      programs := [];
      format := None;
      shots := 1024;
      maxExecutionTime := 60;
      status := Created;
      dynamicalDecoupling := DefaultDynamicalDecoupling();
      attempted := false;
      samplerOptionsSet := false;
      registers := [];
      cached := None;
      cachedExecutor := None;
    }

    ghost predicate Valid()
      reads auth
    {
      auth.Valid()
    }

    /** The fields as one value. */
    function State(): JobState
      reads this
    {
      JobState(id, programs, format, shots, maxExecutionTime, status, backend, qubits, dynamicalDecoupling, attempted,
               samplerOptionsSet, registers, cached, cachedExecutor)
    }

    /** Computes every layout before any field changes. */
    method SetPrograms(value: Format, sources: seq<string>) returns (r: Result<()>)
      modifies this`programs, this`registers, this`format, this`shots, this`cached, this`cachedExecutor
      ensures match WithPrograms(lib, old(State()), value, sources)
              case Err(error) => r == Err(error) && State() == old(State())
              case Ok(state) => r.Ok? && State() == state
    {
      hide LayoutsOf, ExecutorShots, CheckSupport;
      if !Configurable(State()) {
        return Err(BadState);
      }
      var _ :- CheckSupport(State(), value, |sources|);
      var layouts: seq<seq<Register>> := [];
      var configuredShots := shots;
      if value == Executor {
        if |sources| != 1 {
          return Err(NotSupported);
        }
        configuredShots :- ExecutorShots(lib, sources[0]);
      } else {
        layouts :- ReadLayouts(value, sources);
      }
      programs := sources;
      registers := layouts;
      format := Some(value);
      shots := configuredShots;
      cached := None;
      cachedExecutor := None;
      return Ok(());
    }

    method ReadLayouts(value: Format, sources: seq<string>) returns (r: Result<seq<seq<Register>>>)
      ensures r == LayoutsOf(value, sources, qubits)
    {
      hide Layout, QpyRegisters;
      var layouts: seq<seq<Register>> := [];
      for i := 0 to |sources|
        invariant LayoutsOf(value, sources[..i], qubits) == Ok(layouts)
      {
        LayoutsStep(value, sources, qubits, i);
        var layout;
        if value == QpyFile {
          layout := ReadQpyRegisters(sources[i], qubits);
        } else {
          layout := OutputRegisters(sources[i]);
        }
        if layout.Err? {
          return Err(layout.error);
        }
        layouts := layouts + [layout.value];
      }
      assert sources[..|sources|] == sources;
      return Ok(layouts);
    }

    method SetShots(value: nat) returns (r: Result<()>)
      modifies this`shots, this`samplerOptionsSet
      ensures match WithShots(old(State()), value)
              case Err(error) => r == Err(error) && State() == old(State())
              case Ok(state) => r.Ok? && State() == state
    {
      if format == Some(Executor) {
        return Err(NotSupported);
      }
      if value == 0 {
        return Err(InvalidArgument);
      }
      var _ :- CheckExecutions(Max(|programs|, 1), value);
      shots := value;
      samplerOptionsSet := true;
      return Ok(());
    }

    /** Validates every option before replacing them all. */
    method SetDynamicalDecoupling(options: string) returns (r: Result<()>)
      modifies this`dynamicalDecoupling, this`samplerOptionsSet
      ensures match WithDynamicalDecoupling(lib, old(State()), options)
              case Err(error) => r == Err(error) && State() == old(State())
              case Ok(state) => r.Ok? && State() == state
    {
      hide IsOption, DefaultDynamicalDecoupling;
      if !Configurable(State()) {
        return Err(BadState);
      }
      if format == Some(Executor) {
        return Err(NotSupported);
      }
      var parsed := lib.parse(options);
      if parsed == None || !parsed.value.Obj? {
        return Err(InvalidArgument);
      }
      var fields := parsed.value.fields;
      var keys := fields.Keys;
      while keys != {}
        invariant keys <= fields.Keys
        invariant forall key :: key in fields && key !in keys ==> IsOption(key, fields[key])
        invariant State() == old(State())
        decreases keys
      {
        var key :| key in keys;
        if !IsOption(key, fields[key]) {
          return Err(InvalidArgument);
        }
        keys := keys - {key};
      }
      dynamicalDecoupling := DefaultDynamicalDecoupling() + fields;
      samplerOptionsSet := true;
      return Ok(());
    }

    /** A request through the retry loop. */
    method Send(ask: Ask, deadline: nat) returns (r: Result<Response>, ghost events: seq<Event>)
      requires Valid()
      modifies auth`cachedToken, auth`issued, auth.world, auth.issued
      ensures Valid() && old(auth.issued) <= auth.issued && fresh(auth.issued - old(auth.issued))
      ensures auth.world.log == old(auth.world.log) + events && auth.world.now >= old(auth.world.now)
      ensures Carries(events, [ask]) && Before(events, deadline)
      ensures Gets(auth.parse, events, ask, r, Late(auth.world.now, old(auth.world.now), deadline, auth.requestTimeout))
    {
      hide Carries, Sleeps, Exchanges, Refused;
      ghost var started, limit, run;
      r, events, started, limit, run := auth.Request(ask.resource, ask.post, ask.body, deadline);
      RequestCarries(events, ask);
      assert Before(events, deadline) by {
        assert AllInBudget(events, limit, auth.requestTimeout, auth.world.still);
      }
    }

    method Check(deadline: nat) returns (r: Result<Status>, ghost answer: Answers, ghost events: seq<Event>)
      requires Valid()
      modifies this`status, auth`cachedToken, auth`issued, auth.world, auth.issued
      ensures Valid() && old(auth.issued) <= auth.issued && fresh(auth.issued - old(auth.issued))
      ensures auth.world.log == old(auth.world.log) + events && auth.world.now >= old(auth.world.now)
      ensures Before(events, deadline)
      ensures var step := JobSpec.Check(lib, old(State()), answer);
        State() == step.state && r == step.result && Carries(events, step.asks)
        && Replied(auth.parse, events, step.asks, answer, Late(auth.world.now, old(auth.world.now), deadline, auth.requestTimeout))
    {
      hide Polled, Carries, Replied, Gets, Late;
      events := [];
      answer := (_: Ask) => Err(Fatal);
      NoReplies(auth.parse, answer, Late(auth.world.now, auth.world.now, deadline, auth.requestTimeout));
      if id == "" || Terminal(status) {
        NoTraffic();
        return Ok(status), answer, events;
      }
      var ask := Ask(Path(id), false, "");
      var response;
      response, events := Send(ask, deadline);
      answer := (_: Ask) => response;
      OneReply(auth.parse, events, ask, answer, Late(auth.world.now, old(auth.world.now), deadline, auth.requestTimeout));
      var polled := Polled(lib, State(), response);
      if polled.Err? {
        return Err(polled.error), answer, events;
      }
      status := polled.value;
      return Ok(status), answer, events;
    }

    /** The entries of a Sampler's parameters, each program encoded for transport. */
    method BuildPubs() returns (r: Result<seq<Json>>)
      requires format.Some?
      ensures r == Pubs(lib, format.value, programs, shots)
    {
      hide Transported, Prepared;
      var pubs: seq<Json> := [];
      for i := 0 to |programs|
        invariant Pubs(lib, format.value, programs[..i], shots) == Ok(pubs)
      {
        PubsStep(lib, format.value, programs, shots, i);
        var circuit: Json;
        if format == Some(QpyFile) {
          var encoded := EncodeQpy(lib.zlib, programs[i]);
          if encoded.Err? {
            return Err(encoded.error);
          }
          circuit := Obj(map["__type__" := Str("QuantumCircuit"), "__value__" := Str(encoded.value)]);
        } else {
          var prepared := DeclareNativeGates(programs[i]);
          if prepared.Err? {
            return Err(prepared.error);
          }
          circuit := Str(prepared.value);
        }
        assert Circuit(lib, format.value, programs[i]) == Ok(circuit);
        pubs := pubs + [Arr([circuit, Null, Int(shots)])];
      }
      assert programs[..|programs|] == programs;
      return Ok(pubs);
    }

    /** The submitted text; nothing changes when it cannot be built. */
    method BuildBody() returns (r: Result<string>)
      ensures r == SubmissionBody(lib, State())
    {
      hide Pubs, SamplerParams;
      if !Configurable(State()) || format == None || programs == [] {
        return Err(BadState);
      }
      var payload;
      if format == Some(Executor) {
        var params := lib.parse(programs[0]);
        if params == None {
          return Err(Fatal);
        }
        payload := Envelope(State(), "executor", params.value);
      } else {
        var pubs := BuildPubs();
        if pubs.Err? {
          return Err(pubs.error);
        }
        payload := Envelope(State(), "sampler", SamplerParams(State(), pubs.value));
      }
      var body := lib.dump(payload);
      if body == None {
        return Err(Fatal);
      }
      return Ok(body.value);
    }

    /** Marks the handle before sending: whatever comes back, it never sends
        again. */
    method Submit() returns (r: Result<()>, ghost answer: Answers, ghost events: seq<Event>)
      requires Valid()
      modifies this`attempted, this`status, this`id, auth`cachedToken, auth`issued, auth.world, auth.issued
      ensures Valid() && old(auth.issued) <= auth.issued && fresh(auth.issued - old(auth.issued))
      ensures auth.world.log == old(auth.world.log) + events && auth.world.now >= old(auth.world.now)
      ensures var step := JobSpec.Submit(lib, old(State()), answer);
        State() == step.state && r == step.result && Carries(events, step.asks)
        && Replied(auth.parse, events, step.asks, answer, Late(auth.world.now, old(auth.world.now), NO_DEADLINE, auth.requestTimeout))
    {
      hide SubmissionBody, Fetched, Carries, IsIdentifier, Replied, Gets, Late;
      events := [];
      answer := (_: Ask) => Err(Fatal);
      NoReplies(auth.parse, answer, Late(auth.world.now, auth.world.now, NO_DEADLINE, auth.requestTimeout));
      var body := BuildBody();
      if body.Err? {
        NoTraffic();
        return Err(body.error), answer, events;
      }
      attempted := true;
      status := Failed;
      var response;
      response, events := Send(Ask(SUBMISSION, true, body.value), NO_DEADLINE);
      answer := (_: Ask) => response;
      OneReply(auth.parse, events, Ask(SUBMISSION, true, body.value), answer, Late(auth.world.now, old(auth.world.now), NO_DEADLINE,
          auth.requestTimeout));
      var data := Fetched(lib, response);
      if data.Err? {
        return Err(data.error), answer, events;
      }
      var remoteId := TextAt(data.value, "id");
      if remoteId.Err? || !IsIdentifier(remoteId.value) {
        return Err(Fatal), answer, events;
      }
      id := remoteId.value;
      if !Has(data.value, "backend") || data.value.fields["backend"] != Str(backend) {
        return Err(Fatal), answer, events;
      }
      status := Submitted;
      return Ok(()), answer, events;
    }

    /** A cancellation met a conflict: what has the job become? */
    method CheckConflict(ask: Ask, response: Result<Response>, ghost before: seq<Event>, ghost earlier: seq<Event>, ghost started: nat)
      returns (r: Result<()>, ghost answer: Answers, ghost events: seq<Event>)
      requires Valid() && auth.world.log == earlier + before && started <= auth.world.now && ask == Ask(Path(id) + "/cancel", true, "")
      requires Carries(before, [ask])
      requires Gets(auth.parse, before, ask, response, Late(auth.world.now, started, NO_DEADLINE, auth.requestTimeout))
      modifies this`status, auth`cachedToken, auth`issued, auth.world, auth.issued
      ensures Valid() && old(auth.issued) <= auth.issued && fresh(auth.issued - old(auth.issued))
      ensures auth.world.log == earlier + events && auth.world.now >= old(auth.world.now)
      ensures var step := AfterConflict(JobSpec.Check(lib, old(State()), answer), ask);
        && State() == step.state && r == step.result && Carries(events, step.asks) && answer(ask) == response
        && Replied(auth.parse, events, step.asks, answer, Late(auth.world.now, started, NO_DEADLINE, auth.requestTimeout))
    {
      hide JobSpec.Check, Carries, Replied, Gets;
      ghost var early := Late(auth.world.now, started, NO_DEADLINE, auth.requestTimeout);
      var checked;
      ghost var poll, more;
      checked, poll, more := Check(NO_DEADLINE);
      ghost var check := JobSpec.Check(lib, old(State()), poll);
      ghost var late := Late(auth.world.now, started, NO_DEADLINE, auth.requestTimeout);
      answer := (a: Ask) => if a == ask then response else poll(a);
      CheckDependsOnPoll(lib, old(State()), poll, answer);
      CheckAsks(lib, old(State()), poll);
      RepliedLater(auth.parse, more, check.asks, poll, answer, Late(auth.world.now, old(auth.world.now), NO_DEADLINE, auth.requestTimeout), late);
      GetsLater(auth.parse, before, ask, response, early, late);
      RepliedFirst(auth.parse, before, ask, answer, more, check.asks, late);
      CarriesAppend(before, [ask], more, check.asks);
      assert (earlier + before) + more == earlier + (before + more);
      events := before + more;
      if checked.Err? {
        return Err(checked.error), answer, events;
      }
      if checked.value == Completed {
        return Err(InvalidArgument), answer, events;
      }
      if checked.value != Canceled {
        return Err(BadState), answer, events;
      }
      return Ok(()), answer, events;
    }

    method Cancel() returns (r: Result<()>, ghost answer: Answers, ghost events: seq<Event>)
      requires Valid()
      modifies this`status, auth`cachedToken, auth`issued, auth.world, auth.issued
      ensures Valid() && old(auth.issued) <= auth.issued && fresh(auth.issued - old(auth.issued))
      ensures auth.world.log == old(auth.world.log) + events && auth.world.now >= old(auth.world.now)
      ensures var step := JobSpec.Cancel(lib, old(State()), answer);
        State() == step.state && r == step.result && Carries(events, step.asks)
        && Replied(auth.parse, events, step.asks, answer, Late(auth.world.now, old(auth.world.now), NO_DEADLINE, auth.requestTimeout))
    {
      hide JobSpec.Check, Carries, CheckResponse, Replied, Gets, Late;
      events := [];
      answer := (_: Ask) => Err(Fatal);
      NoTraffic();
      NoReplies(auth.parse, answer, Late(auth.world.now, auth.world.now, NO_DEADLINE, auth.requestTimeout));
      if id == "" {
        return Err(BadState), answer, events;
      }
      if status == Completed {
        return Err(InvalidArgument), answer, events;
      }
      if status == Canceled {
        return Ok(()), answer, events;
      }
      if Terminal(status) {
        return Err(BadState), answer, events;
      }
      var ask := Ask(Path(id) + "/cancel", true, "");
      var response;
      response, events := Send(ask, NO_DEADLINE);
      answer := (_: Ask) => response;
      OneReply(auth.parse, events, ask, answer, Late(auth.world.now, old(auth.world.now), NO_DEADLINE, auth.requestTimeout));
      if response.Err? {
        return Err(response.error), answer, events;
      }
      if Answered(response.value, 204) {
        status := Canceled;
        return Ok(()), answer, events;
      }
      if Answered(response.value, 409) {
        r, answer, events := CheckConflict(ask, response, events, old(auth.world.log), old(auth.world.now));
        return r, answer, events;
      }
      return Err(Refusal(response.value)), answer, events;
    }

    /** Decodes every program's results, or none. */
    method DecodeBatch(response: Result<Response>) returns (r: Result<seq<R.Results>>)
      ensures r == Batch(lib, State(), response)
    {
      hide ResultsDocument, R.Decoded;
      var data :- ResultsDocument(lib, response);
      var results :- At(data, "results");
      var pubs :- Items(results);
      if |pubs| != |programs| {
        return Err(Fatal);
      }
      var decoded: seq<R.Results> := [];
      for i := 0 to |pubs|
        invariant DecodeAll(pubs[..i], registers, shots) == Ok(decoded)
      {
        DecodeStep(pubs, registers, shots, i);
        if i >= |registers| {
          return Err(Fatal);
        }
        var one := R.DecodeResults(pubs[i], registers[i], shots);
        if one.Err? {
          return Err(one.error);
        }
        decoded := decoded + [one.value];
      }
      assert pubs[..|pubs|] == pubs;
      return Ok(decoded);
    }

    /** Asks for the results after a check that started in this state. */
    method AskForResults(ghost first: JobState, ghost poll: Answers, ghost before: seq<Event>, ghost earlier: seq<Event>, ghost started: nat)
      returns (response: Result<Response>, ghost answer: Answers, ghost events: seq<Event>)
      requires Valid() && auth.world.log == earlier + before && started <= auth.world.now
      requires JobSpec.Check(lib, first, poll).state == State() && Carries(before, JobSpec.Check(lib, first, poll).asks)
      requires Replied(auth.parse, before, JobSpec.Check(lib, first, poll).asks, poll, Late(auth.world.now, started, NO_DEADLINE,
          auth.requestTimeout))
      modifies auth`cachedToken, auth`issued, auth.world, auth.issued
      ensures Valid() && old(auth.issued) <= auth.issued && fresh(auth.issued - old(auth.issued))
      ensures auth.world.log == earlier + events && auth.world.now >= old(auth.world.now) && State() == old(State())
      ensures var ask := Ask(Path(first.id) + "/results", false, ""); var check := JobSpec.Check(lib, first, answer);
        && answer(ask) == response && check == JobSpec.Check(lib, first, poll)
        && Carries(events, check.asks + [ask])
        && Replied(auth.parse, events, check.asks + [ask], answer, Late(auth.world.now, started, NO_DEADLINE, auth.requestTimeout))
    {
      hide JobSpec.Check, Carries, Replied, Gets;
      ghost var checked := JobSpec.Check(lib, first, poll);
      ghost var early := Late(auth.world.now, started, NO_DEADLINE, auth.requestTimeout);
      CheckKeepsId(lib, first, poll);
      var ask := Ask(Path(id) + "/results", false, "");
      ghost var more;
      response, more := Send(ask, NO_DEADLINE);
      ghost var late := Late(auth.world.now, started, NO_DEADLINE, auth.requestTimeout);
      answer := (a: Ask) => if a == ask then response else poll(a);
      assert |ask.resource| != |Path(id)|;
      CheckDependsOnPoll(lib, first, poll, answer);
      CheckAsks(lib, first, poll);
      RepliedLater(auth.parse, before, checked.asks, poll, answer, early, late);
      GetsLater(auth.parse, more, ask, response, Late(auth.world.now, old(auth.world.now), NO_DEADLINE, auth.requestTimeout), late);
      RepliedNext(auth.parse, before, checked.asks, answer, more, ask, late);
      CarriesAppend(before, checked.asks, more, [ask]);
      assert (earlier + before) + more == earlier + (before + more);
      events := before + more;
    }

    method Results(index: nat) returns (r: Result<R.Results>, ghost answer: Answers, ghost events: seq<Event>)
      requires Valid()
      modifies this`status, this`cached, auth`cachedToken, auth`issued, auth.world, auth.issued
      ensures Valid() && old(auth.issued) <= auth.issued && fresh(auth.issued - old(auth.issued))
      ensures auth.world.log == old(auth.world.log) + events && auth.world.now >= old(auth.world.now)
      ensures var step := Fetch(lib, old(State()), index, answer);
        State() == step.state && r == step.result && Carries(events, step.asks)
        && Replied(auth.parse, events, step.asks, answer, Late(auth.world.now, old(auth.world.now), NO_DEADLINE, auth.requestTimeout))
    {
      hide JobSpec.Check, Batch, Carries, Replied, Late;
      events := [];
      answer := (_: Ask) => Err(Fatal);
      NoReplies(auth.parse, answer, Late(auth.world.now, auth.world.now, NO_DEADLINE, auth.requestTimeout));
      NoTraffic();
      if index >= |programs| {
        return Err(OutOfRange), answer, events;
      }
      if format == Some(Executor) {
        return Err(NotSupported), answer, events;
      }
      var current;
      current, answer, events := Check(NO_DEADLINE);
      if current.Err? {
        return Err(current.error), answer, events;
      }
      if current.value != Completed {
        return Err(BadState), answer, events;
      }
      if cached == None {
        var response;
        response, answer, events := AskForResults(old(State()), answer, events, old(auth.world.log), old(auth.world.now));
        var decoded := DecodeBatch(response);
        if decoded.Err? {
          return Err(decoded.error), answer, events;
        }
        cached := Some(decoded.value);
      }
      return CacheEntry(cached.value, index), answer, events;
    }

    method ExecutorResults() returns (r: Result<string>, ghost answer: Answers, ghost events: seq<Event>)
      requires Valid()
      modifies this`status, this`cachedExecutor, auth`cachedToken, auth`issued, auth.world, auth.issued
      ensures Valid() && old(auth.issued) <= auth.issued && fresh(auth.issued - old(auth.issued))
      ensures auth.world.log == old(auth.world.log) + events && auth.world.now >= old(auth.world.now)
      ensures var step := FetchExecutor(lib, old(State()), answer);
        State() == step.state && r == step.result && Carries(events, step.asks)
        && Replied(auth.parse, events, step.asks, answer, Late(auth.world.now, old(auth.world.now), NO_DEADLINE, auth.requestTimeout))
    {
      hide JobSpec.Check, ExecutorDocument, Carries, Replied, Late;
      events := [];
      answer := (_: Ask) => Err(Fatal);
      NoReplies(auth.parse, answer, Late(auth.world.now, auth.world.now, NO_DEADLINE, auth.requestTimeout));
      NoTraffic();
      if format != Some(Executor) {
        return Err(NotSupported), answer, events;
      }
      var current;
      current, answer, events := Check(NO_DEADLINE);
      if current.Err? {
        return Err(current.error), answer, events;
      }
      if current.value != Completed {
        return Err(BadState), answer, events;
      }
      if cachedExecutor == None {
        var response;
        response, answer, events := AskForResults(old(State()), answer, events, old(auth.world.log), old(auth.world.now));
        var document := ExecutorDocument(lib, response);
        if document.Err? {
          return Err(document.error), answer, events;
        }
        cachedExecutor := Some(document.value);
      }
      return Ok(cachedExecutor.value), answer, events;
    }

    /** The programs of a Sampler's entries, decoded from transport. */
    method ReadSources(pubs: seq<Json>, common: Format, commonShots: nat) returns (r: Result<seq<string>>)
      ensures r == SourcesOf(lib, pubs, common, commonShots)
    {
      hide Restored;
      var sources: seq<string> := [];
      for i := 0 to |pubs|
        invariant SourcesOf(lib, pubs[..i], common, commonShots) == Ok(sources)
      {
        SourcesStep(lib, pubs, common, commonShots, i);
        var source := ReadSource(pubs[i], common, commonShots);
        if source.Err? {
          return Err(source.error);
        }
        sources := sources + [source.value];
      }
      assert pubs[..|pubs|] == pubs;
      return Ok(sources);
    }

    method ReadSource(pub: Json, common: Format, commonShots: nat) returns (r: Result<string>)
      ensures r == SourceOf(lib, pub, common, commonShots)
    {
      hide Restored;
      if !pub.Arr? || |pub.items| != 3 || !(pub.items[0].Str? || pub.items[0].Obj?) || !NoBindings(pub.items[1]) {
        return Err(NotSupported);
      }
      var own :- PositiveInteger(pub.items[2]);
      var circuit := pub.items[0];
      if own != commonShots || common != FormatOf(circuit) {
        return Err(NotSupported);
      }
      if circuit.Str? {
        return Ok(circuit.s);
      }
      var kind :- TextOr(circuit, "__type__", "");
      if kind != "QuantumCircuit" || !Has(circuit, "__value__") || !circuit.fields["__value__"].Str? {
        return Err(NotSupported);
      }
      r := DecodeQpy(lib.zlib, circuit.fields["__value__"].s);
    }

    /** Configures the handle as a Sampler's parameters say. */
    method SetSampler(params: Json) returns (r: Result<()>)
      modifies this`programs, this`registers, this`format, this`shots, this`samplerOptionsSet, this`cached, this`cachedExecutor
      ensures match SamplerJob(lib, old(State()), params)
              case Err(error) => r == Err(error) && AtMostShots(old(State()), State())
              case Ok(state) => r.Ok? && State() == state
    {
      hide SourcesOf, WithPrograms;
      var version :- At(params, "version");
      if !IsNumber(version, 2) {
        return Err(NotSupported);
      }
      var qiskit :- BoolOr(params, "support_qiskit", true);
      if qiskit {
        return Err(NotSupported);
      }
      var list :- At(params, "pubs");
      if !list.Arr? || list.items == [] {
        return Err(NotSupported);
      }
      var pubs := list.items;
      if !pubs[0].Arr? || |pubs[0].items| != 3 {
        return Err(NotSupported);
      }
      var common := FormatOf(pubs[0].items[0]);
      var commonShots :- PositiveInteger(pubs[0].items[2]);
      var _ :- CheckExecutions(|pubs|, commonShots);
      var sources :- ReadSources(pubs, common, commonShots);
      var _ :- SetShots(commonShots);
      r := SetPrograms(common, sources);
    }

    /** Builds the handle of a remote job. A failed retrieval leaves the handle as
        it was, or with its shots set, or fully described but without the
        identifier, the latch and the status. */
    method Retrieve(remoteId: string) returns (r: Result<()>, ghost answer: Answers, ghost events: seq<Event>)
      requires Valid()
      modifies this, auth`cachedToken, auth`issued, auth.world, auth.issued
      ensures Valid() && old(auth.issued) <= auth.issued && fresh(auth.issued - old(auth.issued))
      ensures auth.world.log == old(auth.world.log) + events && auth.world.now >= old(auth.world.now)
      ensures var (job, asks) := JobSpec.Retrieve(lib, old(State()), remoteId, answer);
        && Carries(events, asks) && Replied(auth.parse, events, asks, answer, Late(auth.world.now, old(auth.world.now), NO_DEADLINE,
            auth.requestTimeout))
        && (job.Ok? ==> r.Ok? && State() == job.value)
        && (job.Err? ==> r == Err(job.error))
        && (job.Err? ==>
            || AtMostShots(old(State()), State())
            || (asks != [] && Fetched(lib, answer(asks[0])).Ok?
                && Described(lib, old(State()), remoteId, Fetched(lib, answer(asks[0])).value) == Ok(State())))
    {
      hide SamplerJob, ExecutorJob, WithPrograms, ParseStatus, Fetched, Carries, IsIdentifier, BoolOr, Replied, Gets, Late;
      events := [];
      answer := (_: Ask) => Err(Fatal);
      NoReplies(auth.parse, answer, Late(auth.world.now, auth.world.now, NO_DEADLINE, auth.requestTimeout));
      NoTraffic();
      if !IsIdentifier(remoteId) {
        return Err(InvalidArgument), answer, events;
      }
      var response;
      response, events := Send(Ask(Path(remoteId), false, ""), NO_DEADLINE);
      answer := (_: Ask) => response;
      OneReply(auth.parse, events, Ask(Path(remoteId), false, ""), answer, Late(auth.world.now, old(auth.world.now), NO_DEADLINE,
          auth.requestTimeout));
      var data := Fetched(lib, response);
      if data.Err? {
        return Err(data.error), answer, events;
      }
      var described := Describe(remoteId, data.value);
      if described.Err? {
        return described, answer, events;
      }
      var parsed := ParseStatus(data.value);
      if parsed.Err? {
        return Err(parsed.error), answer, events;
      }
      id := remoteId;
      attempted := true;
      status := parsed.value;
      return Ok(()), answer, events;
    }

    /** Checks the job document and configures the handle from it. */
    method Describe(remoteId: string, data: Json) returns (r: Result<()>)
      modifies this`programs, this`registers, this`format, this`shots, this`samplerOptionsSet, this`cached, this`cachedExecutor
      ensures match Described(lib, old(State()), remoteId, data)
              case Err(error) => r == Err(error) && AtMostShots(old(State()), State())
              case Ok(state) => r.Ok? && State() == state
    {
      hide SamplerJob, WithPrograms;
      var named :- At(data, "id");
      if named != Str(remoteId) {
        return Err(InvalidArgument);
      }
      var own :- At(data, "backend");
      if own != Str(backend) {
        return Err(InvalidArgument);
      }
      var program :- At(data, "program");
      var programId :- At(program, "id");
      if programId != Str("sampler") && programId != Str("executor") {
        return Err(NotSupported);
      }
      var hidden :- BoolOr(data, "private", false);
      if hidden {
        return Err(NotSupported);
      }
      var field :- At(data, "params");
      var params :- Unwrapped(lib, field);
      if programId == Str("executor") {
        var text := lib.dump(params);
        if text == None {
          return Err(Fatal);
        }
        r := SetPrograms(Executor, [text.value]);
      } else {
        r := SetSampler(params);
      }
    }
  }
}
