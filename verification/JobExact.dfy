/** What the operations on a job handle (src/Job.cpp) do, said of the server's
    documents, of status codes and of the handle's fields. */
module JobExact {
  import opened Common
  import opened Http
  import opened JsonModel
  import opened JobSpec
  import opened Retrieval
  import opened JobRuns
  import opened Replies
  import R = Results

  // ----- polling

  predicate IsFinal(status: Status) {
    status == Completed || status == Canceled || status == Failed
  }

  /** The document is about this job. */
  predicate IsAbout(data: Json, s: JobState) {
    Says(data, "id", s.id) && Says(data, "backend", s.backend)
  }

  /** A handle with an identifier and no final status asks for the job's document
      and takes on the status that it reports; it stays as it is when there is no
      document about this job with a known status. */
  lemma CheckExact(lib: Library, s: JobState, answer: Answers)
    ensures s.id == "" || IsFinal(s.status) ==> Check(lib, s, answer) == Step(s, Ok(s.status), [])
    ensures s.id != "" && !IsFinal(s.status) ==>
      var step := Check(lib, s, answer); var ask := Ask("/v1/jobs/" + s.id, false, ""); var reply := answer(ask);
      && step.asks == [ask]
      && (step.result.Ok? ==> step.state == s.(status := step.result.value))
      && (step.result.Err? ==> step.state == s && step.result.error == if exists data :: Brings(lib, reply, data) then Fatal else Trouble(reply))
      && forall data :: Brings(lib, reply, data) ==>
           forall status :: step.result == Ok(status) <==> IsAbout(data, s) && Reports(data, status)
  {
    if s.id != "" && !IsFinal(s.status) {
      var reply := answer(Ask("/v1/jobs/" + s.id, false, ""));
      assert Ask(Path(s.id), false, "") == Ask("/v1/jobs/" + s.id, false, "");
      PolledExact(lib, s, reply);
      hide Polled, Reports, IsAbout;
    }
  }

  lemma PolledExact(lib: Library, s: JobState, reply: Result<Response>)
    ensures Polled(lib, s, reply).Err? ==>
      Polled(lib, s, reply).error == if exists data :: Brings(lib, reply, data) then Fatal else Trouble(reply)
    ensures Polled(lib, s, reply).Ok? ==> exists data :: Brings(lib, reply, data)
    ensures forall data :: Brings(lib, reply, data) ==>
      forall status :: Polled(lib, s, reply) == Ok(status) <==> IsAbout(data, s) && Reports(data, status)
  {
    hide Fetched, ParseStatus, Reports;
    FetchedExact(lib, reply, Null);
    forall data | Brings(lib, reply, data)
      ensures forall status :: Polled(lib, s, reply) == Ok(status) <==> IsAbout(data, s) && Reports(data, status)
      ensures Fetched(lib, reply) == Ok(data) && (ParseStatus(data).Err? ==> ParseStatus(data) == Err(Fatal))
    {
      FetchedExact(lib, reply, data);
      StatusExact(data, Created);
      forall status ensures Polled(lib, s, reply) == Ok(status) <==> IsAbout(data, s) && Reports(data, status) {
        StatusExact(data, status);
      }
    }
    if Fetched(lib, reply).Ok? {
      FetchedExact(lib, reply, Fetched(lib, reply).value);
    }
  }

  // ----- cancelling

  /** A cancellation is asked for only while it can have an effect; a 204 cancels
      the job, and a 409 lets the job's own status decide. */
  lemma CancelExact(lib: Library, s: JobState, answer: Answers)
    ensures var step := Cancel(lib, s, answer); var ask := Ask("/v1/jobs/" + s.id + "/cancel", true, "");
      if s.id == "" then step == Step(s, Err(BadState), [])
      else if s.status == Completed then step == Step(s, Err(InvalidArgument), [])
      else if s.status == Canceled then step == Step(s, Ok(()), [])
      else if s.status == Failed then step == Step(s, Err(BadState), [])
      else if answer(ask).Err? then step == Step(s, Err(answer(ask).error), [ask])
      else
        var response := answer(ask).value; var arrived := !response.timedOut && !response.failed;
        if arrived && response.status == 204 then step == Step(s.(status := Canceled), Ok(()), [ask])
        else if arrived && response.status == 409 then
          var check := Check(lib, s, answer);
          && step.state == check.state && step.asks == [ask] + check.asks
          && step.result == match check.result
             case Err(error) => Err(error)
             case Ok(status) => if status == Canceled then Ok(()) else Err(if status == Completed then InvalidArgument else BadState)
        else step == Step(s, Err(Trouble(answer(ask))), [ask])
  {
    assert Path(s.id) + "/cancel" == "/v1/jobs/" + s.id + "/cancel";
    hide Check;
  }

  // ----- results

  /** The results document: a text in the reply is parsed once more. */
  ghost predicate BringsResults(lib: Library, reply: Result<Response>, data: Json) {
    || (Brings(lib, reply, data) && !data.Str?)
    || exists text :: Brings(lib, reply, Str(text)) && lib.parse(text) == Some(data)
  }

  /** A reply without results: a 204 means that they are not there yet. */
  ghost function NoResults(lib: Library, reply: Result<Response>): Error {
    if reply.Ok? && !reply.value.timedOut && !reply.value.failed && reply.value.status == 204 then BadState
    else if exists data :: Brings(lib, reply, data) then Fatal
    else Trouble(reply)
  }

  lemma DocumentExact(lib: Library, reply: Result<Response>, data: Json)
    ensures ResultsDocument(lib, reply) == Ok(data) <==> BringsResults(lib, reply, data)
    ensures ResultsDocument(lib, reply).Err? ==> ResultsDocument(lib, reply) == Err(NoResults(lib, reply))
  {
    FetchedExact(lib, reply, data);
    if reply.Ok? && Fetched(lib, reply).Ok? {
      var fetched := Fetched(lib, reply).value;
      FetchedExact(lib, reply, fetched);
      assert reply == Ok(reply.value);
    }
    hide Fetched;
    if text :| Brings(lib, reply, Str(text)) && lib.parse(text) == Some(data) {
      FetchedExact(lib, reply, Str(text));
    }
  }

  lemma {:induction false} DecodeAllExact(pubs: seq<Json>, registers: seq<seq<Register>>, shots: nat, results: seq<R.Results>)
    ensures DecodeAll(pubs, registers, shots) == Ok(results) <==>
      |results| == |pubs| <= |registers| && forall k :: 0 <= k < |pubs| ==> R.Decoded(pubs[k], registers[k], shots) == Ok(results[k])
    ensures pubs != [] && |pubs| > |registers| ==> DecodeAll(pubs, registers, shots).Err?
  {
    hide R.Decoded;
    if pubs != [] {
      var n := |pubs| - 1;
      if |results| == |pubs| {
        DecodeAllExact(pubs[..n], registers, shots, results[..n]);
        assert results == results[..n] + [results[n]];
      } else {
        DecodeAllExact(pubs[..n], registers, shots, []);
      }
    }
  }

  /** The document holds one entry a program, and each decodes with the layout of its
      program. */
  ghost predicate HoldsResults(data: Json, s: JobState, results: seq<R.Results>) {
    && data.Obj? && "results" in data.fields && data.fields["results"].Arr?
    && |data.fields["results"].items| == |s.programs| == |results| <= |s.registers|
    && forall k :: 0 <= k < |results| ==> R.Decoded(data.fields["results"].items[k], s.registers[k], s.shots) == Ok(results[k])
  }

  lemma BatchExact(lib: Library, s: JobState, reply: Result<Response>, results: seq<R.Results>)
    ensures Batch(lib, s, reply) == Ok(results) <==> exists data :: BringsResults(lib, reply, data) && HoldsResults(data, s, results)
    ensures (forall data :: !BringsResults(lib, reply, data)) ==> Batch(lib, s, reply) == Err(NoResults(lib, reply))
  {
    hide ResultsDocument, DecodeAll, NoResults, BringsResults;
    var document := ResultsDocument(lib, reply);
    DocumentExact(lib, reply, if document.Ok? then document.value else Null);
    if document.Ok? && Has(document.value, "results") && document.value.fields["results"].Arr? {
      DecodeAllExact(document.value.fields["results"].items, s.registers, s.shots, results);
    }
    if data :| BringsResults(lib, reply, data) && HoldsResults(data, s, results) {
      DocumentExact(lib, reply, data);
    }
    if Batch(lib, s, reply) == Ok(results) {
      assert HoldsResults(document.value, s, results);
    }
  }

  /** Results are read after a check that finds the job completed: from the cache if
      it is filled, and else from the results document, all programs at once. */
  lemma FetchExact(lib: Library, s: JobState, index: nat, answer: Answers)
    ensures var step := Fetch(lib, s, index, answer); var check := Check(lib, s, answer);
      if index >= |s.programs| then step == Step(s, Err(OutOfRange), [])
      else if s.format == Some(Executor) then step == Step(s, Err(NotSupported), [])
      else if check.result.Err? then step == Step(check.state, Err(check.result.error), check.asks)
      else if check.result.value != Completed then step == Step(check.state, Err(BadState), check.asks)
      else if s.cached.Some? then
        step == Step(check.state, if index < |s.cached.value| then Ok(s.cached.value[index]) else Err(Fatal), check.asks)
      else
        var ask := Ask("/v1/jobs/" + s.id + "/results", false, "");
        && step.asks == check.asks + [ask]
        && (step.result.Err? ==> step.state == check.state)
        && (forall results :: step.state == check.state.(cached := Some(results)) <==>
              exists data :: BringsResults(lib, answer(ask), data) && HoldsResults(data, s, results))
        && (step.result.Ok? ==>
              && step.state.cached.Some? && index < |step.state.cached.value|
              && step.result.value == step.state.cached.value[index] && step.state == check.state.(cached := step.state.cached))
        && ((forall data :: !BringsResults(lib, answer(ask), data)) ==> step.result == Err(NoResults(lib, answer(ask))))
  {
    hide Polled, Batch, BringsResults, HoldsResults, NoResults;
    var check := Check(lib, s, answer);
    assert check.state == s.(status := check.state.status);
    hide Check;
    if index < |s.programs| && s.format != Some(Executor) && check.result == Ok(Completed) && s.cached == None {
      assert Path(s.id) + "/results" == "/v1/jobs/" + s.id + "/results";
      FetchedBatch(lib, s, check.state, index, answer, check.asks);
    }
  }

  lemma FetchedBatch(lib: Library, s: JobState, state: JobState, index: nat, answer: Answers, asks: seq<Ask>)
    requires state == s.(status := state.status) && s.cached == None && index < |s.programs|
    ensures var step := FetchFinished(lib, state, index, answer, asks); var ask := Ask(Path(s.id) + "/results", false, "");
      && step.asks == asks + [ask]
      && (step.result.Err? ==> step.state == state)
      && (forall results :: step.state == state.(cached := Some(results)) <==>
            exists data :: BringsResults(lib, answer(ask), data) && HoldsResults(data, s, results))
      && (step.result.Ok? ==>
            && step.state.cached.Some? && index < |step.state.cached.value|
            && step.result.value == step.state.cached.value[index] && step.state == state.(cached := step.state.cached))
      && ((forall data :: !BringsResults(lib, answer(ask), data)) ==> step.result == Err(NoResults(lib, answer(ask))))
  {
    var reply := answer(Ask(Path(s.id) + "/results", false, ""));
    assert Batch(lib, state, reply) == Batch(lib, s, reply) by {
      hide ResultsDocument, DecodeAll;
    }
    hide Batch, BringsResults, NoResults;
    forall results
      ensures Batch(lib, s, reply) == Ok(results) <==> exists data :: BringsResults(lib, reply, data) && HoldsResults(data, s, results)
      ensures Batch(lib, s, reply) == Ok(results) ==> |results| == |s.programs|
    {
      BatchExact(lib, s, reply, results);
    }
    BatchExact(lib, s, reply, []);
    hide HoldsResults;
  }

  /** The result document of an Executor job has the known schema, and is kept as the
      library dumps it. */
  ghost predicate HoldsDocument(lib: Library, data: Json, text: string) {
    Says(data, "schema_version", "v2.0") && lib.dump(data) == Some(text)
  }

  lemma ExecutorExact(lib: Library, s: JobState, answer: Answers)
    ensures var step := FetchExecutor(lib, s, answer); var check := Check(lib, s, answer);
      if s.format != Some(Executor) then step == Step(s, Err(NotSupported), [])
      else if check.result.Err? then step == Step(check.state, Err(check.result.error), check.asks)
      else if check.result.value != Completed then step == Step(check.state, Err(BadState), check.asks)
      else if s.cachedExecutor.Some? then step == Step(check.state, Ok(s.cachedExecutor.value), check.asks)
      else
        var ask := Ask("/v1/jobs/" + s.id + "/results", false, "");
        && step.asks == check.asks + [ask]
        && (forall text :: step.result == Ok(text) <==> exists data :: BringsResults(lib, answer(ask), data) && HoldsDocument(lib, data, text))
        && step.state == (if step.result.Ok? then check.state.(cachedExecutor := Some(step.result.value)) else check.state)
        && ((forall data :: !BringsResults(lib, answer(ask), data)) ==> step.result == Err(NoResults(lib, answer(ask))))
  {
    hide Polled, ExecutorDocument, BringsResults, HoldsDocument, NoResults;
    var check := Check(lib, s, answer);
    assert check.state == s.(status := check.state.status);
    hide Check;
    var reply := answer(Ask("/v1/jobs/" + s.id + "/results", false, ""));
    assert Path(s.id) + "/results" == "/v1/jobs/" + s.id + "/results";
    forall text
      ensures ExecutorDocument(lib, reply) == Ok(text) <==> exists data :: BringsResults(lib, reply, data) && HoldsDocument(lib, data, text)
    {
      ExecutorDocumentExact(lib, reply, text);
    }
    ExecutorDocumentExact(lib, reply, "");
  }

  lemma ExecutorDocumentExact(lib: Library, reply: Result<Response>, text: string)
    ensures ExecutorDocument(lib, reply) == Ok(text) <==> exists data :: BringsResults(lib, reply, data) && HoldsDocument(lib, data, text)
    ensures (forall data :: !BringsResults(lib, reply, data)) ==> ExecutorDocument(lib, reply) == Err(NoResults(lib, reply))
  {
    hide ResultsDocument, NoResults, BringsResults;
    var document := ResultsDocument(lib, reply);
    DocumentExact(lib, reply, if document.Ok? then document.value else Null);
    if data :| BringsResults(lib, reply, data) && HoldsDocument(lib, data, text) {
      DocumentExact(lib, reply, data);
    }
  }

  /** The entry point for an Executor job's document takes the index of a program. */
  lemma ExecutorEntryExact(lib: Library, s: JobState, index: nat, answer: Answers)
    ensures ExecutorEntry(lib, s, index, answer) == if index < |s.programs| then FetchExecutor(lib, s, answer) else Step(s, Err(OutOfRange), [])
  {
    hide FetchExecutor;
  }

  /** Each call on a handle does what its operation does. */
  lemma PerformExact(lib: Library, s: JobState, answer: Answers)
    ensures var step := Submit(lib, s, answer); var effect := Perform(lib, s, SubmitJob, answer);
      effect.state == step.state && effect.asks == step.asks && effect.error == Problem(step.result)
    ensures var step := Check(lib, s, answer); var effect := Perform(lib, s, CheckJob, answer);
      effect.state == step.state && effect.asks == step.asks && effect.error == Problem(step.result)
    ensures var step := Cancel(lib, s, answer); var effect := Perform(lib, s, CancelJob, answer);
      effect.state == step.state && effect.asks == step.asks && effect.error == Problem(step.result)
    ensures forall index: nat ::
      var step := Fetch(lib, s, index, answer); var effect := Perform(lib, s, GetResults(index), answer);
      effect.state == step.state && effect.asks == step.asks && effect.error == Problem(step.result)
    ensures forall index: nat ::
      var step := ExecutorEntry(lib, s, index, answer); var effect := Perform(lib, s, GetExecutorResults(index), answer);
      effect.state == step.state && effect.asks == step.asks && effect.error == Problem(step.result)
  {
    hide Submit, Check, Cancel, Fetch, ExecutorEntry;
  }

  ghost function Problem<T>(r: Result<T>): Option<Error> {
    match r
    case Ok(_) => None
    case Err(error) => Some(error)
  }
}
