/** Any sequence of calls on the device: what stays alive, what is frozen, and what
    unregistered handles can do. */
module DeviceRuns {
  import opened Common
  import opened Metadata
  import opened MetadataSound
  import opened Registry

  /** The device after these calls, when every address came from the allocator. */
  function After(units: Units, d: Device, calls: seq<Call>): Option<Device> {
    if calls == [] then Some(d)
    else
      match After(units, d, calls[..|calls| - 1])
      case None => None
      case Some(middle) =>
        if Possible(units, middle, calls[|calls| - 1]) then Some(Next(units, middle, calls[|calls| - 1])) else None
  }

  lemma {:induction false} RunsKeep(units: Units, d: Device, calls: seq<Call>)
    requires Inv(d) && After(units, d, calls).Some?
    ensures Inv(After(units, d, calls).value)
  {
    hide Inv, Enter, Possible;
    if calls != [] {
      var n := |calls| - 1;
      RunsKeep(units, d, calls[..n]);
      var middle := After(units, d, calls[..n]).value;
      if Enter(units, middle, calls[n]).Ok? {
        EnterKeeps(units, middle, calls[n]);
      }
    }
  }

  lemma UnusedGood()
    ensures Inv(UNUSED)
  {
  }

  // ----- one call

  /** Finalizing succeeds exactly on an initialized device with nothing registered.
      Then the sessions left in memory are exactly those of the retrievals under
      way, and nothing is left when there are none. */
  lemma FinalizeEmpty(units: Units, d: Device)
    requires Inv(d)
    ensures Enter(units, d, Finalize).Ok? <==> d.initialized && d.sessions == {} && d.registered == {}
    ensures Enter(units, d, Finalize).Ok? ==>
      var r := Enter(units, d, Finalize).value;
      && !r.initialized && r.sessions == {} && r.registered == {}
      && (forall h :: h in r.memory <==> exists j :: Retrieving(d, j) && d.jobs[j].session == h)
      && ((forall j :: j in d.jobs ==> !Retrieving(d, j)) <==> r == UNUSED)
  {
    hide GoodSession, Apart, JobsGood, SessionsGood;
    if d.initialized && d.sessions == {} && d.registered == {} {
      assert forall h :: h in d.memory <==> Used(d, h);
      assert forall j :: Retrieving(d, j) <==> j in d.jobs;
      if d.jobs == map[] {
        assert d.memory == map[];
      }
    }
  }

  /** On a device that is not initialized no session is registered, and a job is
      registered only when a retrieval ends that was under way before. */
  lemma LateRegistration(units: Units, d: Device, call: Call)
    requires Inv(d) && Possible(units, d, call) && !d.initialized && d.registered == {}
    ensures d.sessions == {}
    ensures Next(units, d, call).registered != {} <==> call.FinishRetrieval?
  {
    hide Taken;
    assert d.registered + {0} != {};
  }

  /** The session or job a call names. */
  function Named(call: Call): Option<Handle> {
    match call
    case FreeSession(session) => Some(session)
    case SetParameter(session, _, _) => Some(session)
    case InitSession(session, _, _, _) => Some(session)
    case CreateJob(session, _) => Some(session)
    case StartRetrieval(session, _) => Some(session)
    case FreeJob(job) => Some(job)
    case UseJob(job) => Some(job)
    case _ => None
  }

  /** A handle that is not registered is never acted on: frees do nothing, and
      every other call is an invalid argument. */
  lemma UnregisteredIgnored(units: Units, d: Device, call: Call)
    requires Inv(d) && Named(call).Some?
    requires if call.FreeJob? || call.UseJob? then Named(call).value !in d.registered else Named(call).value !in d.sessions
    ensures Next(units, d, call) == d
    ensures !call.FreeJob? && !call.FreeSession? ==> Enter(units, d, call) == Err(InvalidArgument)
    ensures call.FreeJob? || call.FreeSession? ==> Enter(units, d, call) == Ok(d)
  {
    hide GoodSession, Apart, JobsGood, SessionsGood, Described, WithParameter, EntryOf;
    assert Swept(d) == d by {
      assert Swept(d).memory == d.memory;
    }
    hide Swept, MemoryExact, Inv;
    if call.FreeSession? {
      assert d.sessions - {call.session} == d.sessions;
    }
  }

  /** A ready session never changes while it is in memory. */
  lemma ReadyFrozen(units: Units, d: Device, call: Call, h: Handle)
    requires Inv(d) && Possible(units, d, call) && h in d.memory && d.memory[h].ready
    requires h in Next(units, d, call).memory
    ensures Next(units, d, call).memory[h] == d.memory[h]
  {
    hide GoodSession, Apart, JobsGood;
    if call.AllocSession? {
      assert [call.address][0] !in Taken(d);
    }
  }

  /** This call gives up the job. Freeing a handle that is not registered, as that
      of a job being retrieved, does nothing. */
  predicate Drops(d: Device, call: Call, job: Handle) {
    (call == FreeJob(job) && job in d.registered) || call == DropRetrieval(job)
  }

  /** A job keeps its entry and its session until it is freed, or until its
      retrieval fails. */
  lemma JobStays(units: Units, d: Device, call: Call, job: Handle)
    requires Inv(d) && Possible(units, d, call) && job in d.jobs && !Drops(d, call, job)
    ensures var r := Next(units, d, call); var session := d.jobs[job].session;
      && job in r.jobs && r.jobs[job] == d.jobs[job]
      && session in d.memory && session in r.memory && r.memory[session] == d.memory[session]
  {
    var r := Next(units, d, call);
    var session := d.jobs[job].session;
    assert JobGood(d, d.jobs[job]);
    JobEntryStays(units, d, call, job);
    if Enter(units, d, call).Ok? {
      EnterKeeps(units, d, call);
    }
    assert Inv(r);
    assert Used(r, session);
    hide GoodSession, Apart, Enter, Possible, Taken, JobsGood;
    assert session in r.memory;
    ReadyFrozen(units, d, call, session);
  }

  lemma JobEntryStays(units: Units, d: Device, call: Call, job: Handle)
    requires Inv(d) && Possible(units, d, call) && job in d.jobs && !Drops(d, call, job)
    ensures var r := Next(units, d, call); job in r.jobs && r.jobs[job] == d.jobs[job]
  {
    hide GoodSession, Apart, JobsGood;
    if call.CreateJob? || call.StartRetrieval? {
      assert [call.address][0] !in Taken(d);
    }
  }

  // ----- whole runs

  lemma {:induction false} JobStaysLong(units: Units, d: Device, more: seq<Call>, job: Handle)
    requires Inv(d) && job in d.jobs && After(units, d, more).Some?
    requires forall i :: 0 <= i < |more| ==> more[i] != FreeJob(job) && more[i] != DropRetrieval(job)
    ensures var r := After(units, d, more).value; var session := d.jobs[job].session;
      && Inv(r) && job in r.jobs && r.jobs[job] == d.jobs[job]
      && session in d.memory && session in r.memory && r.memory[session] == d.memory[session]
    decreases |more|
  {
    assert JobGood(d, d.jobs[job]);
    hide Inv, Next, Possible, JobGood;
    if more != [] {
      var n := |more| - 1;
      var middle := After(units, d, more[..n]).value;
      JobStaysLong(units, d, more[..n], job);
      RunsKeep(units, d, more);
      JobStays(units, middle, more[n], job);
    }
  }

  /** In any run from an unused device, a job that is not freed keeps its session
      alive and unchanged, whether or not the session's handle has been freed, and
      already while it is being retrieved. */
  lemma SessionOutlivesHandle(units: Units, calls: seq<Call>, more: seq<Call>, job: Handle)
    requires After(units, UNUSED, calls).Some? && job in After(units, UNUSED, calls).value.jobs
    requires After(units, After(units, UNUSED, calls).value, more).Some?
    requires forall i :: 0 <= i < |more| ==> more[i] != FreeJob(job) && more[i] != DropRetrieval(job)
    ensures var d, r := After(units, UNUSED, calls).value, After(units, After(units, UNUSED, calls).value, more).value;
      var session := d.jobs[job].session;
      && job in r.jobs && r.jobs[job] == d.jobs[job]
      && session in d.memory && d.memory[session].ready
      && session in r.memory && r.memory[session] == d.memory[session]
  {
    UnusedGood();
    RunsKeep(units, UNUSED, calls);
    var d := After(units, UNUSED, calls).value;
    assert JobGood(d, d.jobs[job]);
    hide After, Inv, SessionsGood, Apart;
    JobStaysLong(units, d, more, job);
  }

  // ----- retrieving

  predicate EndsRetrieval(call: Call, job: Handle) {
    call == FinishRetrieval(job) || call == DropRetrieval(job)
  }

  lemma {:induction false} RetrievalStays(units: Units, d: Device, more: seq<Call>, job: Handle)
    requires Inv(d) && Retrieving(d, job) && After(units, d, more).Some?
    requires forall i :: 0 <= i < |more| ==> !EndsRetrieval(more[i], job)
    ensures var r := After(units, d, more).value; var session := d.jobs[job].session;
      && Inv(r) && Retrieving(r, job) && r.jobs[job] == d.jobs[job]
      && session in d.memory && session in r.memory && r.memory[session] == d.memory[session]
    decreases |more|
  {
    assert JobGood(d, d.jobs[job]);
    hide Inv, Next, Possible, JobGood;
    if more != [] {
      var n := |more| - 1;
      var middle := After(units, d, more[..n]).value;
      RetrievalStays(units, d, more[..n], job);
      RunsKeep(units, d, more);
      RetrievalStep(units, middle, more[n], job);
    }
  }

  lemma RetrievalStep(units: Units, d: Device, call: Call, job: Handle)
    requires Inv(d) && Possible(units, d, call) && Retrieving(d, job) && !EndsRetrieval(call, job)
    ensures var r := Next(units, d, call); var session := d.jobs[job].session;
      && Retrieving(r, job) && r.jobs[job] == d.jobs[job]
      && session in d.memory && session in r.memory && r.memory[session] == d.memory[session]
  {
    hide Inv, Next, Possible;
    JobStays(units, d, call, job);
    StillUnregistered(units, d, call, job);
  }

  lemma StillUnregistered(units: Units, d: Device, call: Call, job: Handle)
    requires Possible(units, d, call) && Retrieving(d, job) && call != FinishRetrieval(job)
    ensures job !in Next(units, d, call).registered
  {
    hide Taken, Described, WithParameter, EntryOf, MemoryExact;
    if call.CreateJob? {
      assert [call.address][0] !in Taken(d);
      TakenJobs(d, call.address);
    }
  }

  /** A retrieval from beginning to end, with what other threads call meanwhile. */
  function Retrieval(session: Handle, job: Handle, others: seq<Call>, found: bool): seq<Call> {
    [StartRetrieval(session, job)] + others + [if found then FinishRetrieval(job) else DropRetrieval(job)]
  }

  lemma {:induction false} AfterFirst(units: Units, d: Device, call: Call, more: seq<Call>)
    requires Possible(units, d, call)
    ensures After(units, d, [call] + more) == After(units, Next(units, d, call), more)
    decreases |more|
  {
    hide Next, Possible;
    if more == [] {
      assert [call] + more == [call];
      assert [call][..0] == [];
    } else {
      var n := |more| - 1;
      AfterFirst(units, d, call, more[..n]);
      assert ([call] + more)[..1 + n] == [call] + more[..n];
    }
  }

  lemma AfterLast(units: Units, d: Device, calls: seq<Call>, last: Call)
    requires After(units, d, calls).Some? && Possible(units, After(units, d, calls).value, last)
    ensures After(units, d, calls + [last]) == Some(Next(units, After(units, d, calls).value, last))
  {
    assert (calls + [last])[..|calls|] == calls;
    hide Next, Possible;
  }

  /** The session of a job that is being retrieved stays ready and unchanged, even
      when its handle is freed; the job is registered with the backend and qubits
      of that session when the retrieval succeeds, and leaves no trace when not. */
  lemma RetrievalHolds(units: Units, d: Device, session: Handle, job: Handle, others: seq<Call>, found: bool)
    requires Inv(d) && Possible(units, d, StartRetrieval(session, job)) && Enter(units, d, StartRetrieval(session, job)).Ok?
    requires After(units, Next(units, d, StartRetrieval(session, job)), others).Some?
    requires forall i :: 0 <= i < |others| ==> !EndsRetrieval(others[i], job)
    ensures session in d.memory && After(units, d, Retrieval(session, job, others, found)).Some?
    ensures var middle := After(units, Next(units, d, StartRetrieval(session, job)), others).value;
      var r := After(units, d, Retrieval(session, job, others, found)).value; var entry := EntryOf(session, d.memory[session]);
      && Retrieving(middle, job) && middle.jobs[job] == entry
      && session in middle.memory && middle.memory[session] == d.memory[session]
      && r == Next(units, middle, if found then FinishRetrieval(job) else DropRetrieval(job)) && Inv(r)
      && if found then job in r.registered && job in r.jobs && r.jobs[job] == entry && session in r.memory && r.memory[session] == d.memory[session]
         else job !in r.jobs
  {
    var first := StartRetrieval(session, job);
    var started := Next(units, d, first);
    RetrievalStarts(units, d, session, job);
    hide Inv, Next, EntryOf, After, Possible, Enter, Retrieving;
    RetrievalStays(units, started, others, job);
    AfterFirst(units, d, first, others);
    var middle := After(units, started, others).value;
    LastStep(units, middle, job, found);
    AfterLast(units, d, [first] + others, if found then FinishRetrieval(job) else DropRetrieval(job));
  }

  lemma RetrievalStarts(units: Units, d: Device, session: Handle, job: Handle)
    requires Inv(d) && Possible(units, d, StartRetrieval(session, job)) && Enter(units, d, StartRetrieval(session, job)).Ok?
    ensures session in d.memory
    ensures var started := Next(units, d, StartRetrieval(session, job));
      && Inv(started) && Retrieving(started, job) && started.memory == d.memory
      && started.jobs[job] == EntryOf(session, d.memory[session])
  {
    EnterKeeps(units, d, StartRetrieval(session, job));
    assert d.registered <= d.jobs.Keys;
    hide Inv, Taken;
    assert [job][0] == job;
    TakenJobs(d, job);
  }

  lemma LastStep(units: Units, d: Device, job: Handle, found: bool)
    requires Inv(d) && Retrieving(d, job)
    ensures var last := if found then FinishRetrieval(job) else DropRetrieval(job); var r := Next(units, d, last);
      && Possible(units, d, last) && Inv(r)
      && if found then job in r.registered && r.jobs == d.jobs && r.memory == d.memory else job !in r.jobs
  {
    hide Inv;
    EnterKeeps(units, d, if found then FinishRetrieval(job) else DropRetrieval(job));
  }

  // ----- sites

  /** In any run, site handle i of a ready session stands for index i and no other
      address does, and a handle of another session in memory is refused. */
  lemma SiteHandles(units: Units, calls: seq<Call>, h: Handle, site: Handle)
    requires After(units, UNUSED, calls).Some?
    requires h in After(units, UNUSED, calls).value.memory && After(units, UNUSED, calls).value.memory[h].ready
    ensures var d := After(units, UNUSED, calls).value; var session := d.memory[h];
      && |session.sites| == |session.metadata.sites|
      && (forall i :: 0 <= i < |session.sites| ==> (SiteIndex(session, site) == Ok(i) <==> session.sites[i] == site))
      && (site !in session.sites ==> SiteIndex(session, site) == Err(InvalidArgument))
      && (forall g :: g in d.memory && g != h && site in d.memory[g].sites ==> SiteIndex(session, site) == Err(InvalidArgument))
  {
    UnusedGood();
    RunsKeep(units, UNUSED, calls);
    var d := After(units, UNUSED, calls).value;
    var session := d.memory[h];
    assert GoodSession(session);
    DistinctSites(session);
    forall g | g in d.memory && g != h && site in d.memory[g].sites ensures site !in session.sites {
      SitesOwned(d.memory[g], site);
      if site in session.sites {
        SitesOwned(session, site);
        assert false;
      }
    }
  }

  lemma SitesOwned(session: Session, site: Handle)
    requires site in session.sites
    ensures site in Owned(session)
  {
    var i :| 0 <= i < |session.sites| && session.sites[i] == site;
    assert (session.sites + session.operations)[i] == site;
  }

  lemma DistinctSites(session: Session)
    requires Distinct(session.sites + session.operations)
    ensures Distinct(session.sites)
  {
    var all := session.sites + session.operations;
    assert forall i :: 0 <= i < |session.sites| ==> all[i] == session.sites[i];
  }

  // ----- queries

  predicate InRange(tuples: seq<Sites>, count: nat) {
    forall i :: 0 <= i < |tuples| ==> TupleInRange(tuples[i], count)
  }

  predicate TupleInRange(t: Sites, count: nat) {
    forall k :: 0 <= k < |t| ==> t[k] < count
  }

  /** The site handles of a list of tuples, one tuple after the other. */
  function HandlesOf(session: Session, tuples: seq<Sites>): seq<Handle>
    requires InRange(tuples, |session.sites|)
  {
    if tuples == [] then []
    else
      assert forall i :: 0 <= i < |tuples[1..]| ==> tuples[1..][i] == tuples[i + 1];
      TupleHandles(session, tuples[0]) + HandlesOf(session, tuples[1..])
  }

  function TupleHandles(session: Session, t: Sites): (r: seq<Handle>)
    requires TupleInRange(t, |session.sites|)
    ensures |r| == |t| && forall k :: 0 <= k < |t| ==> r[k] == session.sites[t[k]]
  {
    seq(|t|, k requires 0 <= k < |t| => session.sites[t[k]])
  }

  /** In any run, every index a query uses into the site handles is valid: the
      coupling map and every operation's tuples can be listed. */
  lemma QueriesInRange(units: Units, calls: seq<Call>, h: Handle)
    requires After(units, UNUSED, calls).Some?
    requires h in After(units, UNUSED, calls).value.memory && After(units, UNUSED, calls).value.memory[h].ready
    ensures var session := After(units, UNUSED, calls).value.memory[h];
      && InRange(session.metadata.coupling, |session.sites|)
      && (forall o :: 0 <= o < |session.metadata.operations| ==> InRange(session.metadata.operations[o].sites, |session.sites|))
      && |session.operations| == |session.metadata.operations|
  {
    UnusedGood();
    RunsKeep(units, UNUSED, calls);
    var session := After(units, UNUSED, calls).value.memory[h];
    assert GoodSession(session);
    hide After, Inv, Distinct;
    forall o | 0 <= o < |session.metadata.operations| ensures InRange(session.metadata.operations[o].sites, |session.sites|) {
      assert GoodOperation(session.metadata.operations[o], |session.sites|);
    }
  }
}
