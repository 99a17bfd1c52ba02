/** The entry points of src/Device.cpp as they update the registry and the session
    objects in place; each is the corresponding call of Registry. */
module Device {
  import opened Common
  import opened Metadata
  import opened MetadataSound
  import opened MetadataLoops
  import opened Registry
  import opened DeviceRuns

  /** Some handle not in use, wherever the allocator starts looking. */
  method Allocate(taken: set<Handle>) returns (handle: Handle)
    ensures handle !in taken
  {
    handle :| handle >= 0;
    var rest := taken;
    while handle in rest
      invariant rest <= taken
      invariant forall h :: h in taken && h >= handle ==> h in rest
      decreases |rest|
    {
      rest := rest - {handle};
      handle := handle + 1;
    }
  }

  method AllocateAll(taken: set<Handle>, count: nat) returns (handles: seq<Handle>)
    ensures |handles| == count
    ensures forall i, j :: 0 <= i < j < |handles| ==> handles[i] != handles[j]
    ensures forall i :: 0 <= i < |handles| ==> handles[i] !in taken
  {
    handles := [];
    var busy := taken;
    for n := 0 to count
      invariant |handles| == n
      invariant forall h :: h in busy <==> h in taken || h in handles
      invariant forall i, j :: 0 <= i < j < |handles| ==> handles[i] != handles[j]
      invariant forall i :: 0 <= i < |handles| ==> handles[i] !in taken
    {
      var handle := Allocate(busy);
      handles := handles + [handle];
      busy := busy + {handle};
    }
  }

  /** A call takes the device from one state to the other, and its result says
      whether it succeeded. */
  ghost predicate Did(units: Units, before: Registry.Device, call: Call, r: Result<()>, after: Registry.Device) {
    && Possible(units, before, call)
    && after == Next(units, before, call)
    && (Enter(units, before, call).Ok? ==> r.Ok?)
    && (Enter(units, before, call).Err? ==> r == Err(Enter(units, before, call).error))
  }

  class Registrar {
    const units: Units
    var initialized: bool
    var sessions: set<Handle>
    var jobs: map<Handle, JobEntry>
    var registered: set<Handle>
    var memory: map<Handle, Session>

    constructor (units: Units)
      ensures State() == UNUSED && this.units == units
    {
      this.units := units;
      initialized := false;
      sessions := {};
      jobs := map[];
      registered := {};
      memory := map[];
    }

    function State(): Registry.Device
      reads this
    {
      Registry.Device(initialized, sessions, jobs, memory, registered)
    }

    method DoInitialize() returns (r: Result<()>)
      modifies this
      ensures Did(units, old(State()), Initialize, r, State())
    {
      if initialized {
        return Err(BadState);
      }
      initialized := true;
      return Ok(());
    }

    method DoFinalize() returns (r: Result<()>)
      modifies this
      ensures Did(units, old(State()), Finalize, r, State())
    {
      if !initialized {
        return Err(BadState);
      }
      if sessions != {} || registered != {} {
        return Err(Fatal);
      }
      initialized := false;
      return Ok(());
    }

    method SessionAlloc() returns (r: Result<()>, session: Handle)
      modifies this
      ensures Did(units, old(State()), AllocSession(session), r, State())
    {
      session := Allocate(Taken(State()));
      if !initialized {
        return Err(BadState), session;
      }
      sessions := sessions + {session};
      memory := memory[session := NEW_SESSION];
      return Ok(()), session;
    }

    /** Frees the objects that nothing holds any more. */
    method Release()
      modifies this`memory
      ensures State() == Swept(old(State()))
    {
      var kept: map<Handle, Session> := map[];
      var rest := memory.Keys;
      while rest != {}
        invariant rest <= memory.Keys
        invariant kept == map h | h in memory && h !in rest && Used(State(), h) :: memory[h]
        decreases rest
      {
        var h :| h in rest;
        rest := rest - {h};
        if Used(State(), h) {
          kept := kept[h := memory[h]];
        }
      }
      memory := kept;
    }

    method SessionFree(session: Handle) returns (r: Result<()>)
      modifies this
      ensures Did(units, old(State()), FreeSession(session), r, State())
    {
      hide Used, Taken;
      sessions := sessions - {session};
      Release();
      return Ok(());
    }

    method JobFree(job: Handle) returns (r: Result<()>)
      modifies this
      ensures Did(units, old(State()), FreeJob(job), r, State())
    {
      hide Used, Taken;
      if job in registered {
        registered := registered - {job};
        jobs := jobs - {job};
        Release();
      }
      return Ok(());
    }

    method SessionSetParameter(session: Handle, parameter: Parameter, value: Option<string>) returns (r: Result<()>)
      modifies this
      ensures Did(units, old(State()), SetParameter(session, parameter, value), r, State())
    {
      hide Taken;
      if session !in sessions || session !in memory {
        return Err(InvalidArgument);
      }
      var found := memory[session];
      if found.ready {
        return Err(BadState);
      }
      if parameter == Unknown {
        return Err(NotSupported);
      }
      if value == None {
        return Ok(());
      }
      var configuration :- WithParameter(found.configuration, parameter, value.value);
      memory := memory[session := found.(configuration := configuration)];
      return Ok(());
    }

    /** Nothing is assigned until everything has succeeded. */
    method SessionInit(session: Handle, answers: Answers) returns (r: Result<()>, ghost call: Call)
      modifies this
      ensures call.InitSession? && call.session == session && call.answers == answers
      ensures Did(units, old(State()), call, r, State())
    {
      hide Parsed, GoodTable, Taken;
      call := InitSession(session, answers, [], []);
      if session !in sessions || session !in memory {
        return Err(InvalidArgument), call;
      }
      if memory[session].ready {
        return Err(BadState), call;
      }
      var resolved := answers.resolve(memory[session].configuration);
      if resolved.Err? {
        return Err(resolved.error), call;
      }
      var configuration := answers.fetch(resolved.value, Resource(resolved.value, "configuration"));
      if configuration.Err? {
        return Err(configuration.error), call;
      }
      var properties := PropertiesOr(answers.fetch(resolved.value, Resource(resolved.value, "properties")));
      if properties.Err? {
        return Err(properties.error), call;
      }
      var metadata := ParseMetadata(units, configuration.value, properties.value);
      if metadata.Err? {
        return Err(metadata.error), call;
      }
      if metadata.value.name != resolved.value.backend {
        return Err(Fatal), call;
      }
      var sites, operations := AllocateObjects(|metadata.value.sites|, |metadata.value.operations|);
      call := InitSession(session, answers, sites, operations);
      var indexes: seq<nat> := [];
      for i := 0 to |sites|
        invariant indexes == Numbers(i)
        invariant State() == old(State())
      {
        indexes := indexes + [i];
      }
      memory := memory[session := Session(resolved.value, true, metadata.value, sites, indexes, operations)];
      return Ok(()), call;
    }

    method AllocateObjects(siteCount: nat, operationCount: nat) returns (sites: seq<Handle>, operations: seq<Handle>)
      ensures |sites| == siteCount && |operations| == operationCount && Fresh(State(), sites + operations)
    {
      var handles := AllocateAll(Taken(State()), siteCount + operationCount);
      sites, operations := handles[..siteCount], handles[siteCount..];
      assert sites + operations == handles;
    }

    method CreateDeviceJob(session: Handle) returns (r: Result<()>, job: Handle)
      modifies this
      ensures Did(units, old(State()), CreateJob(session, job), r, State())
    {
      job := Allocate(Taken(State()));
      if session !in sessions || session !in memory {
        return Err(InvalidArgument), job;
      }
      var found := memory[session];
      if !found.ready {
        return Err(BadState), job;
      }
      jobs := jobs[job := EntryOf(session, found)];
      registered := registered + {job};
      return Ok(()), job;
    }

    /** What other threads call while this one waits for the server. They cannot end
        its retrieval. */
    method Meanwhile(job: Handle) returns (ghost calls: seq<Call>)
      modifies this
      ensures After(units, old(State()), calls) == Some(State())
      ensures forall i :: 0 <= i < |calls| ==> !EndsRetrieval(calls[i], job)
    {
      hide After;
      var others: seq<Call> := *;
      if (exists i :: 0 <= i < |others| && EndsRetrieval(others[i], job)) || After(units, State(), others).None? {
        others := [];
        NoCalls(units, State());
      }
      var d := After(units, State(), others).value;
      initialized, sessions, jobs, memory, registered := d.initialized, d.sessions, d.jobs, d.memory, d.registered;
      calls := others;
    }

    lemma NoCalls(units: Units, d: Registry.Device)
      ensures After(units, d, []) == Some(d)
    {
    }

    /** The job holds its session while the server is asked, and is registered only
        if the retrieval succeeds; other threads may call anything in between. What
        the server's answer makes of a handle with this backend and this many qubits
        is given. */
    method RetrieveDeviceJob(session: Handle, retrieve: (string, nat) -> Result<()>) returns (r: Result<()>, job: Handle, ghost others: seq<Call>)
      requires Inv(State())
      modifies this
      ensures Inv(State())
      ensures Possible(units, old(State()), StartRetrieval(session, job))
      ensures Enter(units, old(State()), StartRetrieval(session, job)).Err? ==>
        r == Err(Enter(units, old(State()), StartRetrieval(session, job)).error) && State() == old(State())
      ensures Enter(units, old(State()), StartRetrieval(session, job)).Ok? ==>
        && session in old(memory)
        && var entry := EntryOf(session, old(memory)[session]);
        && r == retrieve(entry.backend, entry.qubits)
        && After(units, old(State()), Retrieval(session, job, others, r.Ok?)) == Some(State())
        && (forall i :: 0 <= i < |others| ==> !EndsRetrieval(others[i], job))
        && (if r.Ok? then job in registered && job in jobs && jobs[job] == entry && session in memory && memory[session] == old(memory)[session]
            else job !in jobs)
    {
      hide Taken, After, Inv, Used;
      others := [];
      job := Allocate(Taken(State()));
      if session !in sessions || session !in memory {
        return Err(InvalidArgument), job, others;
      }
      var found := memory[session];
      if !found.ready {
        return Err(BadState), job, others;
      }
      ghost var before := State();
      var entry := EntryOf(session, found);
      jobs := jobs[job := entry];
      var answer := retrieve(entry.backend, entry.qubits);
      others := Meanwhile(job);
      RetrievalHolds(units, before, session, job, others, answer.Ok?);
      if answer.Err? {
        jobs := jobs - {job};
        Release();
        return Err(answer.error), job, others;
      }
      registered := registered + {job};
      return answer, job, others;
    }
  }
}
