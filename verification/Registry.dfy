/** The handle registry of src/Device.cpp: what each entry point does to the
    sessions and jobs, and to the memory that holds them. A handle is the address
    of its object. Sessions are shared: one stays in memory while its handle is
    registered or a job uses it. */
module Registry {
  import opened Common
  import opened JsonModel
  import opened Program
  import opened Metadata
  import opened MetadataSound

  type Handle = nat

  datatype Configuration = Configuration(
    apiKey: string, backend: string, crn: string, baseUrl: string, authUrl: string, authFile: Option<string>,
    requestTimeout: nat, apiKeyConfigured: bool, backendConfigured: bool, crnConfigured: bool)

  const DEFAULTS := Configuration("", "", "", "", "https://iam.cloud.ibm.com/identity/token", None, 30000, false, false, false)

  /** A site object holds its index; an operation object likewise. */
  datatype Session = Session(configuration: Configuration, ready: bool, metadata: Metadata, sites: seq<Handle>,
                             indexes: seq<nat>, operations: seq<Handle>)

  const NO_METADATA: Metadata := Metadata("", "", [], [], [])

  const NEW_SESSION := Session(DEFAULTS, false, NO_METADATA, [], [], [])

  datatype JobEntry = JobEntry(session: Handle, backend: string, qubits: nat)

  /** The registered sessions, every job and session in memory, and the registered
      jobs. A job that is being retrieved is in memory and not yet registered. */
  datatype Device = Device(initialized: bool, sessions: set<Handle>, jobs: map<Handle, JobEntry>, memory: map<Handle, Session>,
                           registered: set<Handle>)

  const UNUSED := Device(false, {}, map[], map[], {})

  predicate Retrieving(d: Device, job: Handle) {
    job in d.jobs && job !in d.registered
  }

  // ----- memory

  function Owned(session: Session): set<Handle> {
    set i | 0 <= i < |session.sites + session.operations| :: (session.sites + session.operations)[i]
  }

  /** Every address in use. */
  function Taken(d: Device): set<Handle> {
    d.memory.Keys + d.jobs.Keys + set h, owned | h in d.memory && owned in Owned(d.memory[h]) :: owned
  }

  predicate Used(d: Device, session: Handle) {
    session in d.sessions || exists j :: j in d.jobs && d.jobs[j].session == session
  }

  /** Frees the sessions that neither the registry nor a job holds. */
  function Swept(d: Device): Device {
    d.(memory := map h | h in d.memory && Used(d, h) :: d.memory[h])
  }

  // ----- parameters

  datatype Parameter = Token | AuthFile | BaseUrl | AuthUrl | Backend | InstanceCrn | RequestTimeout | Unknown

  /** Positive decimal milliseconds up to the largest 32-bit integer. */
  function TimeoutOf(text: string): Result<nat> {
    if text != "" && Digits(text) && 0 < Decimal(text) <= 0x7FFF_FFFF then Ok(Decimal(text)) else Err(InvalidArgument)
  }

  function WithParameter(c: Configuration, parameter: Parameter, value: string): Result<Configuration> {
    match parameter
    case Token => Ok(c.(apiKey := value, apiKeyConfigured := true))
    case AuthFile => Ok(c.(authFile := Some(value)))
    case BaseUrl => Ok(c.(baseUrl := value))
    case AuthUrl => Ok(c.(authUrl := value))
    case Backend => Ok(c.(backend := value, backendConfigured := true))
    case InstanceCrn => Ok(c.(crn := value, crnConfigured := true))
    case RequestTimeout =>
      var timeout :- TimeoutOf(value);
      Ok(c.(requestTimeout := timeout))
    case Unknown => Err(NotSupported)
  }

  // ----- initialization

  /** What initialization learns from outside: how the session's settings resolve,
      and what a resource of the backend holds under the resolved settings. */
  datatype Answers = Answers(resolve: Configuration -> Result<Configuration>, fetch: (Configuration, string) -> Result<Json>)

  /** A backend without properties is described by its configuration alone. */
  function PropertiesOr(properties: Result<Json>): Result<Json> {
    if properties == Err(NotFound) then Ok(Obj(map[])) else properties
  }

  function Resource(resolved: Configuration, name: string): string {
    "/v1/backends/" + resolved.backend + "/" + name
  }

  /** The resolved settings and the table of a session with these settings. */
  function Described(units: Units, answers: Answers, own: Configuration): Result<(Configuration, Metadata)> {
    var resolved :- answers.resolve(own);
    var configuration :- answers.fetch(resolved, Resource(resolved, "configuration"));
    var properties :- PropertiesOr(answers.fetch(resolved, Resource(resolved, "properties")));
    var metadata :- Parsed(units, configuration, properties);
    if metadata.name != resolved.backend then Err(Fatal) else Ok((resolved, metadata))
  }

  function Numbers(count: nat): seq<nat> {
    seq(count, i requires 0 <= i < count => i)
  }

  function Ready(configuration: Configuration, metadata: Metadata, sites: seq<Handle>, operations: seq<Handle>): Session {
    Session(configuration, true, metadata, sites, Numbers(|sites|), operations)
  }

  // ----- the entry points

  /** A call with what the allocator and the server give it. Retrieving a job takes
      two steps: the server is asked in between, and its answer decides whether the
      job is registered or dropped. */
  datatype Call =
    | Initialize
    | Finalize
    | AllocSession(address: Handle)
    | FreeSession(session: Handle)
    | SetParameter(session: Handle, parameter: Parameter, value: Option<string>)
    | InitSession(session: Handle, answers: Answers, sites: seq<Handle>, operations: seq<Handle>)
    | CreateJob(session: Handle, address: Handle)
    | StartRetrieval(session: Handle, address: Handle)
    | FinishRetrieval(job: Handle)
    | DropRetrieval(job: Handle)
    | FreeJob(job: Handle)
    | UseJob(job: Handle)

  predicate Fresh(d: Device, handles: seq<Handle>) {
    && (forall i, j :: 0 <= i < j < |handles| ==> handles[i] != handles[j])
    && forall i :: 0 <= i < |handles| ==> handles[i] !in Taken(d)
  }

  /** The allocator hands out addresses that are not in use, and only a retrieval
      under way can end. */
  predicate Possible(units: Units, d: Device, call: Call) {
    match call
    case AllocSession(address) => Fresh(d, [address])
    case CreateJob(_, address) => Fresh(d, [address])
    case StartRetrieval(_, address) => Fresh(d, [address])
    case FinishRetrieval(job) => Retrieving(d, job)
    case DropRetrieval(job) => Retrieving(d, job)
    case InitSession(session, answers, sites, operations) =>
      SettingSession(d, session).Ok? && Described(units, answers, d.memory[session].configuration).Ok? ==>
        && var metadata := Described(units, answers, d.memory[session].configuration).value.1;
        && Fresh(d, sites + operations)
        && |sites| == |metadata.sites| && |operations| == |metadata.operations|
    case _ => true
  }

  function SessionFor(d: Device, session: Handle): Result<Session> {
    if session in d.sessions && session in d.memory then Ok(d.memory[session]) else Err(InvalidArgument)
  }

  function ReadySession(d: Device, session: Handle): Result<Session> {
    var found :- SessionFor(d, session);
    if found.ready then Ok(found) else Err(BadState)
  }

  function SettingSession(d: Device, session: Handle): Result<Session> {
    var found :- SessionFor(d, session);
    if found.ready then Err(BadState) else Ok(found)
  }

  function EntryOf(session: Handle, found: Session): JobEntry {
    JobEntry(session, found.configuration.backend, |found.metadata.sites|)
  }

  /** The device after a successful call, or why it fails. */
  function Enter(units: Units, d: Device, call: Call): Result<Device> {
    match call
    case Initialize => if d.initialized then Err(BadState) else Ok(d.(initialized := true))
    case Finalize =>
      if !d.initialized then Err(BadState)
      else if d.sessions != {} || d.registered != {} then Err(Fatal)
      else Ok(d.(initialized := false))
    case AllocSession(address) =>
      if !d.initialized then Err(BadState)
      else Ok(d.(sessions := d.sessions + {address}, memory := d.memory[address := NEW_SESSION]))
    case FreeSession(session) => Ok(Swept(d.(sessions := d.sessions - {session})))
    case SetParameter(session, parameter, value) =>
      var found :- SettingSession(d, session);
      if parameter == Unknown then Err(NotSupported)
      else if value == None then Ok(d)
      else
        var configuration :- WithParameter(found.configuration, parameter, value.value);
        Ok(d.(memory := d.memory[session := found.(configuration := configuration)]))
    case InitSession(session, answers, sites, operations) =>
      var found :- SettingSession(d, session);
      var (resolved, metadata) :- Described(units, answers, found.configuration);
      Ok(d.(memory := d.memory[session := Ready(resolved, metadata, sites, operations)]))
    case CreateJob(session, address) =>
      var found :- ReadySession(d, session);
      Ok(d.(jobs := d.jobs[address := EntryOf(session, found)], registered := d.registered + {address}))
    case StartRetrieval(session, address) =>
      var found :- ReadySession(d, session);
      Ok(d.(jobs := d.jobs[address := EntryOf(session, found)]))
    case FinishRetrieval(job) => Ok(d.(registered := d.registered + {job}))
    case DropRetrieval(job) => Ok(Swept(d.(jobs := d.jobs - {job})))
    case FreeJob(job) =>
      if job in d.registered then Ok(Swept(d.(jobs := d.jobs - {job}, registered := d.registered - {job}))) else Ok(d)
    case UseJob(job) => if job in d.registered then Ok(d) else Err(InvalidArgument)
  }

  /** A failing call leaves the device as it was. */
  function Next(units: Units, d: Device, call: Call): Device {
    match Enter(units, d, call)
    case Ok(after) => after
    case Err(_) => d
  }

  // ----- site handles

  function FindHandle(handles: seq<Handle>, handle: Handle): (i: Option<nat>)
    ensures i.Some? ==> i.value < |handles| && handles[i.value] == handle
    ensures i.None? ==> handle !in handles
  {
    if handles == [] then None
    else if handles[0] == handle then Some(0)
    else
      match FindHandle(handles[1..], handle)
      case None => None
      case Some(i) => Some(i + 1)
  }

  /** The index that a site's object holds. */
  function SiteIndex(session: Session, site: Handle): Result<nat> {
    match FindHandle(session.sites, site)
    case None => Err(InvalidArgument)
    case Some(i) => if i < |session.indexes| then Ok(session.indexes[i]) else Err(Fatal)
  }

  // ----- what every call keeps

  ghost predicate GoodSession(session: Session) {
    && session.indexes == Numbers(|session.sites|)
    && Distinct(session.sites + session.operations)
    && (session.ready ==>
        && GoodTable(session.metadata)
        && session.metadata.name == session.configuration.backend
        && |session.sites| == |session.metadata.sites|
        && |session.operations| == |session.metadata.operations|)
  }

  /** Objects of different sessions are at different addresses. */
  ghost predicate Apart(d: Device) {
    && (forall g, h :: g in d.memory && h in d.memory && g != h ==> Owned(d.memory[g]) !! Owned(d.memory[h]))
    && (forall h :: h in d.memory ==> Owned(d.memory[h]) !! d.memory.Keys + d.jobs.Keys)
    && d.memory.Keys !! d.jobs.Keys
  }

  /** A session is in memory exactly while it is registered or used by a job. */
  ghost predicate MemoryExact(d: Device) {
    forall h :: h in d.memory <==> Used(d, h)
  }

  ghost predicate SessionsGood(d: Device) {
    forall h :: h in d.memory ==> GoodSession(d.memory[h])
  }

  /** A job's session is in memory and ready, and is the one it was created for. */
  ghost predicate JobGood(d: Device, entry: JobEntry) {
    && entry.session in d.memory && d.memory[entry.session].ready
    && entry.backend == d.memory[entry.session].configuration.backend
    && entry.qubits == |d.memory[entry.session].sites|
  }

  ghost predicate JobsGood(d: Device) {
    forall j :: j in d.jobs ==> JobGood(d, d.jobs[j])
  }

  ghost predicate Inv(d: Device) {
    && MemoryExact(d) && SessionsGood(d) && JobsGood(d) && Apart(d)
    && d.registered <= d.jobs.Keys && (!d.initialized ==> d.sessions == {})
  }

  lemma SweptKeeps(d: Device)
    requires forall h :: Used(d, h) ==> h in d.memory
    requires SessionsGood(d) && JobsGood(d) && Apart(d) && d.registered <= d.jobs.Keys && (!d.initialized ==> d.sessions == {})
    ensures Inv(Swept(d))
  {
    hide GoodSession, Owned;
    forall j | j in d.jobs ensures Used(d, d.jobs[j].session) {
    }
  }

  lemma EnterKeeps(units: Units, d: Device, call: Call)
    requires Inv(d) && Possible(units, d, call) && Enter(units, d, call).Ok?
    ensures Inv(Enter(units, d, call).value)
  {
    hide Inv, Swept, EntryOf, Fresh, WithParameter, Described;
    match call
    case Initialize => FlagKeeps(d, true);
    case Finalize => FlagKeeps(d, false);
    case AllocSession(address) => AllocKeeps(units, d, address);
    case FreeSession(session) => FreeSessionKeeps(d, session);
    case SetParameter(session, parameter, value) => SetKeeps(units, d, session, parameter, value);
    case InitSession(session, answers, sites, operations) => InitKeeps(units, d, session, answers, sites, operations);
    case CreateJob(session, address) => JobKeeps(d, session, address, true);
    case StartRetrieval(session, address) => JobKeeps(d, session, address, false);
    case FinishRetrieval(job) => FinishKeeps(d, job);
    case DropRetrieval(job) => DropKeeps(d, job, d.registered);
    case FreeJob(job) => DropKeeps(d, job, d.registered - {job});
    case UseJob(job) =>
  }

  lemma FlagKeeps(d: Device, initialized: bool)
    requires Inv(d) && (initialized || d.sessions == {})
    ensures Inv(d.(initialized := initialized))
  {
    hide GoodSession, Owned;
    var r := d.(initialized := initialized);
    assert forall h :: Used(r, h) <==> Used(d, h);
    assert forall entry :: JobGood(d, entry) ==> JobGood(r, entry);
  }

  lemma FreeSessionKeeps(d: Device, session: Handle)
    requires Inv(d)
    ensures Inv(Swept(d.(sessions := d.sessions - {session})))
  {
    hide GoodSession, Owned;
    SweptKeeps(d.(sessions := d.sessions - {session}));
  }

  /** A job leaves memory, and its session if nothing else holds it. */
  lemma DropKeeps(d: Device, job: Handle, registered: set<Handle>)
    requires Inv(d) && job !in registered && registered <= d.registered
    ensures Inv(Swept(d.(jobs := d.jobs - {job}, registered := registered)))
  {
    hide GoodSession, Owned;
    SweptKeeps(d.(jobs := d.jobs - {job}, registered := registered));
  }

  lemma NewSessionGood()
    ensures GoodSession(NEW_SESSION) && Owned(NEW_SESSION) == {}
  {
  }

  lemma TakenOwned(d: Device, h: Handle, owned: Handle)
    requires h in d.memory && owned in Owned(d.memory[h])
    ensures owned in Taken(d)
  {
    hide Owned;
  }

  lemma AllocKeeps(units: Units, d: Device, address: Handle)
    requires Inv(d) && d.initialized && Fresh(d, [address])
    ensures Inv(Enter(units, d, AllocSession(address)).value)
  {
    hide GoodSession, Owned;
    NewSessionGood();
    assert [address][0] == address;
    assert address !in Taken(d);
    var r := Enter(units, d, AllocSession(address)).value;
    forall h | Used(r, h) ensures h in r.memory {
      assert h == address || Used(d, h);
    }
    forall h | h in r.memory ensures Used(r, h) {
      if h != address {
        assert Used(d, h);
      }
    }
  }

  lemma JobApart(d: Device, address: Handle, entry: JobEntry)
    requires Apart(d) && address !in Taken(d)
    ensures Apart(d.(jobs := d.jobs[address := entry]))
  {
    hide Owned;
    forall h | h in d.memory ensures address !in Owned(d.memory[h]) {
      if address in Owned(d.memory[h]) {
        TakenOwned(d, h, address);
      }
    }
  }

  lemma JobUses(d: Device, address: Handle, entry: JobEntry, h: Handle)
    requires address !in d.jobs && entry.session in d.memory
    requires forall g :: g in d.memory <==> Used(d, g)
    ensures h in d.memory <==> Used(d.(jobs := d.jobs[address := entry]), h)
  {
    var r := d.(jobs := d.jobs[address := entry]);
    if Used(d, h) && h !in d.sessions {
      var j :| j in d.jobs && d.jobs[j].session == h;
      assert r.jobs[j].session == h;
    }
    if Used(r, h) && h !in r.sessions {
      var j :| j in r.jobs && r.jobs[j].session == h;
      assert j == address || d.jobs[j].session == h;
    }
  }

  lemma JobKeeps(d: Device, session: Handle, address: Handle, listed: bool)
    requires Inv(d) && ReadySession(d, session).Ok? && Fresh(d, [address])
    ensures Inv(d.(jobs := d.jobs[address := EntryOf(session, d.memory[session])],
                   registered := if listed then d.registered + {address} else d.registered))
  {
    hide GoodSession, Owned, Taken, Apart, Used, JobsGood;
    assert [address][0] == address;
    var entry := EntryOf(session, d.memory[session]);
    TakenJobs(d, address);
    JobApart(d, address, entry);
    var r := d.(jobs := d.jobs[address := entry]);
    JobsStayGood(d, session, address);
    forall h ensures h in r.memory <==> Used(r, h) {
      JobUses(d, address, entry, h);
    }
    RegisteredAside(r, if listed then d.registered + {address} else d.registered);
  }

  lemma JobsStayGood(d: Device, session: Handle, address: Handle)
    requires JobsGood(d) && SessionsGood(d) && ReadySession(d, session).Ok?
    ensures JobsGood(d.(jobs := d.jobs[address := EntryOf(session, d.memory[session])]))
  {
    var r := d.(jobs := d.jobs[address := EntryOf(session, d.memory[session])]);
    assert GoodSession(d.memory[session]);
    assert JobGood(r, r.jobs[address]);
    hide GoodSession;
    forall j | j in r.jobs ensures JobGood(r, r.jobs[j]) {
      assert j == address || JobGood(d, d.jobs[j]);
    }
  }

  /** Memory does not depend on which jobs are registered. */
  lemma RegisteredAside(d: Device, registered: set<Handle>)
    ensures MemoryExact(d) ==> MemoryExact(d.(registered := registered))
    ensures JobsGood(d) ==> JobsGood(d.(registered := registered))
    ensures Apart(d) ==> Apart(d.(registered := registered))
    ensures SessionsGood(d) ==> SessionsGood(d.(registered := registered))
  {
    hide GoodSession, Owned;
    var r := d.(registered := registered);
    assert forall h :: Used(r, h) <==> Used(d, h);
    assert forall entry :: JobGood(d, entry) ==> JobGood(r, entry);
  }

  lemma FinishKeeps(d: Device, job: Handle)
    requires Inv(d) && Retrieving(d, job)
    ensures Inv(d.(registered := d.registered + {job}))
  {
    hide MemoryExact, JobsGood, Apart, SessionsGood;
    RegisteredAside(d, d.registered + {job});
  }

  lemma TakenJobs(d: Device, address: Handle)
    ensures address !in Taken(d) ==> address !in d.jobs && address !in d.memory
  {
  }

  /** A session whose contents change keeps its place in memory. */
  lemma ReplaceKeeps(d: Device, session: Handle, found: Session, next: Session)
    requires Inv(d) && SettingSession(d, session) == Ok(found) && GoodSession(next)
    requires Owned(next) !! d.memory.Keys + d.jobs.Keys
    requires forall h :: h in d.memory && h != session ==> Owned(next) !! Owned(d.memory[h])
    ensures Inv(d.(memory := d.memory[session := next]))
  {
    hide GoodSession, Owned;
    var r := d.(memory := d.memory[session := next]);
    assert r.memory.Keys == d.memory.Keys;
    assert forall h :: Used(r, h) <==> Used(d, h);
  }

  lemma SetKeeps(units: Units, d: Device, session: Handle, parameter: Parameter, value: Option<string>)
    requires Inv(d) && Enter(units, d, SetParameter(session, parameter, value)).Ok?
    ensures Inv(Enter(units, d, SetParameter(session, parameter, value)).value)
  {
    if value.Some? {
      var found := d.memory[session];
      var next := found.(configuration := WithParameter(found.configuration, parameter, value.value).value);
      assert GoodSession(found) && GoodSession(next);
      assert Owned(next) == Owned(found);
      hide GoodSession, Owned, WithParameter;
      ReplaceKeeps(d, session, found, next);
    }
  }

  lemma ReadyGood(units: Units, answers: Answers, own: Configuration, sites: seq<Handle>, operations: seq<Handle>)
    requires Described(units, answers, own).Ok?
    requires var metadata := Described(units, answers, own).value.1; |sites| == |metadata.sites| && |operations| == |metadata.operations|
    requires forall i, j :: 0 <= i < j < |sites + operations| ==> (sites + operations)[i] != (sites + operations)[j]
    ensures var (resolved, metadata) := Described(units, answers, own).value;
      GoodSession(Ready(resolved, metadata, sites, operations))
  {
    hide GoodTable, Parsed, Resource;
    var resolved := answers.resolve(own).value;
    ParsedGood(units, answers.fetch(resolved, Resource(resolved, "configuration")).value,
               PropertiesOr(answers.fetch(resolved, Resource(resolved, "properties"))).value);
  }

  lemma InitKeeps(units: Units, d: Device, session: Handle, answers: Answers, sites: seq<Handle>, operations: seq<Handle>)
    requires Inv(d) && Possible(units, d, InitSession(session, answers, sites, operations))
    requires Enter(units, d, InitSession(session, answers, sites, operations)).Ok?
    ensures Inv(Enter(units, d, InitSession(session, answers, sites, operations)).value)
  {
    hide GoodSession, Described;
    var found := d.memory[session];
    var (resolved, metadata) := Described(units, answers, found.configuration).value;
    var next := Ready(resolved, metadata, sites, operations);
    ReadyGood(units, answers, found.configuration, sites, operations);
    forall owned | owned in Owned(next) ensures owned !in Taken(d) {
      var i :| 0 <= i < |sites + operations| && (sites + operations)[i] == owned;
    }
    hide Owned;
    forall h | h in d.memory && h != session ensures Owned(next) !! Owned(d.memory[h]) {
      forall owned | owned in Owned(next) && owned in Owned(d.memory[h]) ensures false {
        TakenOwned(d, h, owned);
      }
    }
    ReplaceKeeps(d, session, found, next);
  }
}
