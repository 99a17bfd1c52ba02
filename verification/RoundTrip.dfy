/** Submitting a job and retrieving it from its identifier (src/Job.cpp): the two
    handles give the same results. */
module RoundTrip {
  import opened Common
  import opened JsonModel
  import opened Qpy
  import opened JobSpec
  import opened Retrieval
  import opened JobRuns

  /** What a submission that succeeds leaves. */
  lemma SubmittedState(lib: Library, s: JobState, answer: Answers)
    requires Submit(lib, s, answer).result.Ok?
    ensures var r := Submit(lib, s, answer);
      && Configurable(s) && s.format.Some? && SubmissionBody(lib, s).Ok? && IsIdentifier(r.state.id)
      && r.state == s.(attempted := true, status := Submitted, id := r.state.id)
  {
    hide Payload, Fetched;
  }

  lemma AcceptedSubmission(lib: Library, s: JobState, answer: Answers)
    requires Submit(lib, s, answer).result.Ok?
    ensures SubmissionBody(lib, s).Ok?
    ensures Accepted(lib, s.(attempted := true, status := Failed), answer(Ask(SUBMISSION, true, SubmissionBody(lib, s).value)))
      == (Submit(lib, s, answer).state, Ok(()))
  {
    hide Payload, SubmissionBody, Fetched;
  }

  /** A job is submitted and later retrieved by its identifier. If the server's
      document echoes what was sent, retrieval succeeds exactly when the programs
      fit its buffer; the handle it builds then agrees with the submitted one, and
      whenever both see the same status they give the same results for every
      program, or for the Executor, errors included. */
  lemma RetrievedGivesTheSameResults(lib: Library, s: JobState, sent: Json, answer: Answers, found: Answers, later: Answers)
    requires Sound(lib, s) && Submit(lib, s, answer).result.Ok?
    requires SubmissionBody(lib, s).Ok?
    requires lib.parse(SubmissionBody(lib, s).value) == Some(sent) && FaithfulTo(lib, Payload(lib, s).value)
    requires s.format == Some(QpyFile) ==> forall k :: 0 <= k < |s.programs| ==> Inverse(lib.zlib, s.programs[k])
    requires s.format == Some(Executor) ==>
      var params := lib.parse(s.programs[0]).value; lib.dump(params).Some? && FaithfulTo(lib, params)
    requires var id := Submit(lib, s, answer).state.id; var document := Fetched(lib, found(Ask(Path(id), false, "")));
      document.Ok? && Echoes(lib, s, sent, id, document.value)
    ensures s.format.Some? && AllTransportable(lib, s.format.value, s.programs)
    ensures var submitted := Submit(lib, s, answer).state;
      var retrieved := Retrieve(lib, NewJob(s.backend, s.qubits), submitted.id, found).0;
      && (retrieved.Ok? <==> Restorable(lib, s))
      && (retrieved.Ok? ==>
            && SameView(submitted, retrieved.value)
            && (Check(lib, submitted, later).result == Check(lib, retrieved.value, later).result ==>
                  && (forall index: nat :: Fetch(lib, submitted, index, later).result == Fetch(lib, retrieved.value, index, later).result)
                  && FetchExecutor(lib, submitted, later).result == FetchExecutor(lib, retrieved.value, later).result))
  {
    assert Configured(lib, s);
    hide Sound, Configured, Submit, SubmissionBody, Payload, Fetched, Echoes, Retrieve, Accepted,
         Check, Fetch, FetchExecutor, SameView, Restorable, Twin;
    SubmittedState(lib, s, answer);
    AcceptedSubmission(lib, s, answer);
    NothingCached(lib, s);
    var submitted := Submit(lib, s, answer).state;
    var data := Fetched(lib, found(Ask(Path(submitted.id), false, ""))).value;
    EchoStatus(lib, s, sent, submitted.id, data);
    RetrieveInvertsSubmit(lib, s, sent, submitted.id, found);
    if Restorable(lib, s) {
      var retrieved := Twin(lib, s, submitted.id, data);
      TwinSeesTheSame(lib, s, submitted.id, data, answer(Ask(SUBMISSION, true, SubmissionBody(lib, s).value)));
      if Check(lib, submitted, later).result == Check(lib, retrieved, later).result {
        SameResults(lib, submitted, retrieved, 0, later);
        forall index: nat
          ensures Fetch(lib, submitted, index, later).result == Fetch(lib, retrieved, index, later).result
        {
          SameResults(lib, submitted, retrieved, index, later);
        }
      }
    }
  }

  lemma NothingCached(lib: Library, s: JobState)
    requires Sound(lib, s) && Configurable(s)
    ensures s.cached == None && s.cachedExecutor == None
  {
    hide Configured;
  }
}
