/** What each entry point of src/Device.cpp does to the registry: when it succeeds,
    and what the device holds then. */
module RegistryExact {
  import opened Common
  import opened JsonModel
  import opened Metadata
  import opened Registry
  import L = LayoutExact

  lemma FlagExact(units: Units, d: Device)
    ensures Enter(units, d, Initialize) == if d.initialized then Err(BadState) else Ok(d.(initialized := true))
    ensures Enter(units, d, Finalize) ==
      if !d.initialized then Err(BadState)
      else if d.sessions != {} || d.registered != {} then Err(Fatal)
      else Ok(d.(initialized := false))
  {
  }

  // ----- sessions

  /** The settings of a new session. */
  predicate Blank(session: Session) {
    && !session.ready && session.sites == [] && session.operations == [] && session.indexes == []
    && var c := session.configuration;
    && c.apiKey == "" && c.backend == "" && c.crn == "" && c.baseUrl == "" && c.authFile == None
    && c.authUrl == "https://iam.cloud.ibm.com/identity/token" && c.requestTimeout == 30_000
    && !c.apiKeyConfigured && !c.backendConfigured && !c.crnConfigured
  }

  /** Nothing but the memory of sessions that nothing holds is given up. */
  ghost predicate Trimmed(before: Device, after: Device) {
    && (forall h :: h in after.memory <==> h in before.memory && (h in after.sessions || exists j :: j in after.jobs && after.jobs[j].session == h))
    && forall h :: h in after.memory ==> after.memory[h] == before.memory[h]
  }

  lemma SessionsExact(units: Units, d: Device, session: Handle)
    ensures var r := Enter(units, d, AllocSession(session));
      if !d.initialized then r == Err(BadState)
      else
        && r.Ok? && r.value == d.(sessions := d.sessions + {session}, memory := r.value.memory)
        && session in r.value.memory && Blank(r.value.memory[session])
        && r.value.memory - {session} == d.memory - {session}
    ensures var r := Enter(units, d, FreeSession(session));
      && r.Ok? && r.value == d.(sessions := d.sessions - {session}, memory := r.value.memory) && Trimmed(d, r.value)
  {
  }

  // ----- settings

  lemma TimeoutExact(text: string, timeout: nat)
    ensures TimeoutOf(text) == Ok(timeout) <==> L.Numeral(text) && L.Value(text) == timeout && 0 < timeout <= 2_147_483_647
    ensures TimeoutOf(text).Err? ==> TimeoutOf(text) == Err(InvalidArgument)
  {
    if L.Numeral(text) {
      L.DecimalIsValue(text);
    }
  }

  /** The one field that a parameter sets, and the mark that it was set. */
  ghost predicate Sets(c: Configuration, parameter: Parameter, value: string, r: Configuration) {
    match parameter
    case Token => r == c.(apiKey := value, apiKeyConfigured := true)
    case AuthFile => r == c.(authFile := Some(value))
    case BaseUrl => r == c.(baseUrl := value)
    case AuthUrl => r == c.(authUrl := value)
    case Backend => r == c.(backend := value, backendConfigured := true)
    case InstanceCrn => r == c.(crn := value, crnConfigured := true)
    case RequestTimeout =>
      r == c.(requestTimeout := r.requestTimeout) && L.Numeral(value) && L.Value(value) == r.requestTimeout && 0 < r.requestTimeout <= 2_147_483_647
    case Unknown => false
  }

  predicate IsRegistered(d: Device, session: Handle) {
    session in d.sessions && session in d.memory
  }

  /** A setting is made on a registered session that is not ready; without a value it
      only asks whether the parameter is known. */
  lemma SettingExact(units: Units, d: Device, session: Handle, parameter: Parameter, value: Option<string>)
    ensures var r := Enter(units, d, SetParameter(session, parameter, value));
      if !IsRegistered(d, session) then r == Err(InvalidArgument)
      else if d.memory[session].ready then r == Err(BadState)
      else if parameter == Unknown then r == Err(NotSupported)
      else if value == None then r == Ok(d)
      else if parameter == RequestTimeout && !(L.Numeral(value.value) && 0 < L.Value(value.value) <= 2_147_483_647) then r == Err(InvalidArgument)
      else
        && r.Ok? && session in r.value.memory
        && var next := r.value.memory[session];
        && Sets(d.memory[session].configuration, parameter, value.value, next.configuration)
        && next == d.memory[session].(configuration := next.configuration) && r.value == d.(memory := d.memory[session := next])
  {
    if parameter == RequestTimeout && value.Some? {
      var timeout := TimeoutOf(value.value);
      TimeoutExact(value.value, if timeout.Ok? then timeout.value else 0);
      if L.Numeral(value.value) {
        TimeoutExact(value.value, L.Value(value.value));
      }
    }
    hide TimeoutOf, L.Numeral, L.Value;
  }

  // ----- initialization

  /** The two documents of the resolved backend; one without properties counts as
      having none. */
  ghost predicate Fetches(answers: Answers, own: Configuration, resolved: Configuration, configuration: Json, properties: Json) {
    && answers.resolve(own) == Ok(resolved)
    && answers.fetch(resolved, "/v1/backends/" + resolved.backend + "/configuration") == Ok(configuration)
    && var reply := answers.fetch(resolved, "/v1/backends/" + resolved.backend + "/properties");
    reply == Ok(properties) || (reply == Err(NotFound) && properties == Obj(map[]))
  }

  /** What keeps the documents from arriving. */
  ghost function Unfetched(answers: Answers, own: Configuration): Option<Error> {
    match answers.resolve(own)
    case Err(error) => Some(error)
    case Ok(resolved) =>
      match answers.fetch(resolved, "/v1/backends/" + resolved.backend + "/configuration")
      case Err(error) => Some(error)
      case Ok(_) =>
        match answers.fetch(resolved, "/v1/backends/" + resolved.backend + "/properties")
        case Err(error) => if error == NotFound then None else Some(error)
        case Ok(_) => None
  }

  /** Initialization succeeds exactly on a registered session that is not ready, when
      its settings resolve, both documents arrive, and their table names the backend;
      the session then holds the settings, the table, and site objects that hold 0, 1,
      2 and so on. */
  lemma InitExact(units: Units, d: Device, session: Handle, answers: Answers, sites: seq<Handle>, operations: seq<Handle>)
    ensures var r := Enter(units, d, InitSession(session, answers, sites, operations));
      if !IsRegistered(d, session) then r == Err(InvalidArgument)
      else if d.memory[session].ready then r == Err(BadState)
      else
        && (Unfetched(answers, d.memory[session].configuration).Some? ==> r == Err(Unfetched(answers, d.memory[session].configuration).value))
        && (r.Ok? <==> exists resolved, configuration, properties ::
              Fetches(answers, d.memory[session].configuration, resolved, configuration, properties)
              && Parsed(units, configuration, properties).Ok? && Parsed(units, configuration, properties).value.name == resolved.backend)
        && forall resolved, configuration, properties ::
             Fetches(answers, d.memory[session].configuration, resolved, configuration, properties) ==>
               var table := Parsed(units, configuration, properties);
               if table.Err? then r == Err(table.error)
               else if table.value.name != resolved.backend then r == Err(Fatal)
               else
                 && r.Ok? && r.value == d.(memory := r.value.memory) && session in r.value.memory
                 && r.value.memory - {session} == d.memory - {session}
                 && var next := r.value.memory[session];
                 && next.configuration == resolved && next.ready && next.metadata == table.value
                 && next.sites == sites && next.operations == operations
                 && |next.indexes| == |sites| && forall i :: 0 <= i < |sites| ==> next.indexes[i] == i
  {
    hide Parsed;
    if IsRegistered(d, session) && !d.memory[session].ready {
      var own := d.memory[session].configuration;
      DescribedExact(units, answers, own);
    }
  }

  lemma DescribedExact(units: Units, answers: Answers, own: Configuration)
    ensures Described(units, answers, own).Ok? <==> exists resolved, configuration, properties ::
      Fetches(answers, own, resolved, configuration, properties)
      && Parsed(units, configuration, properties).Ok? && Parsed(units, configuration, properties).value.name == resolved.backend
    ensures forall resolved, configuration, properties :: Fetches(answers, own, resolved, configuration, properties) ==>
      var table := Parsed(units, configuration, properties);
      Described(units, answers, own) ==
      if table.Err? then Err(table.error) else if table.value.name != resolved.backend then Err(Fatal) else Ok((resolved, table.value))
    ensures Unfetched(answers, own).Some? ==> Described(units, answers, own) == Err(Unfetched(answers, own).value)
  {
    hide Parsed;
    if answers.resolve(own).Ok? {
      var resolved := answers.resolve(own).value;
      assert Resource(resolved, "configuration") == "/v1/backends/" + resolved.backend + "/configuration";
      assert Resource(resolved, "properties") == "/v1/backends/" + resolved.backend + "/properties";
      if Described(units, answers, own).Ok? {
        assert Fetches(answers, own, resolved, answers.fetch(resolved, Resource(resolved, "configuration")).value,
                       PropertiesOr(answers.fetch(resolved, Resource(resolved, "properties"))).value);
      }
    }
  }

  // ----- jobs

  /** A job takes on the backend and the number of sites of its session, which must be
      registered and ready. Created jobs are registered at once, retrieved ones when
      the retrieval succeeds. */
  lemma NewJobExact(units: Units, d: Device, session: Handle, job: Handle, call: Call)
    requires call == CreateJob(session, job) || call == StartRetrieval(session, job)
    ensures var r := Enter(units, d, call);
      if !IsRegistered(d, session) then r == Err(InvalidArgument)
      else if !d.memory[session].ready then r == Err(BadState)
      else
        && r.Ok? && r.value == d.(jobs := r.value.jobs, registered := d.registered + if call.CreateJob? then {job} else {})
        && job in r.value.jobs && r.value.jobs - {job} == d.jobs - {job}
        && r.value.jobs[job].session == session
        && r.value.jobs[job].backend == d.memory[session].configuration.backend
        && r.value.jobs[job].qubits == |d.memory[session].metadata.sites|
  {
  }

  lemma JobsExact(units: Units, d: Device, job: Handle)
    ensures Enter(units, d, FinishRetrieval(job)) == Ok(d.(registered := d.registered + {job}))
    ensures Enter(units, d, UseJob(job)) == if job in d.registered then Ok(d) else Err(InvalidArgument)
    ensures var r := Enter(units, d, DropRetrieval(job));
      r.Ok? && r.value == d.(jobs := d.jobs - {job}, memory := r.value.memory) && Trimmed(d, r.value)
    ensures var r := Enter(units, d, FreeJob(job));
      && r.Ok?
      && if job !in d.registered then r.value == d
         else r.value == d.(jobs := d.jobs - {job}, registered := d.registered - {job}, memory := r.value.memory) && Trimmed(d, r.value)
  {
  }
}
