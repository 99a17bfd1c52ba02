/** The locking pattern of every entry point (src/Device.cpp, src/Auth.cpp): any
    number of threads running any entry points never deadlock. */
module Locks {
  import opened Common

  /** The registry's mutex, and one mutex for each session, token cache and job. */
  datatype Lock = Registry | Session(session: nat) | Tokens(auth: nat) | Job(job: nat)

  datatype Op = Acquire(lock: Lock) | Release(lock: Lock) | Transport

  /** The only nested acquisitions. */
  predicate MayNest(outer: Lock, inner: Lock) {
    (outer.Session? && (inner.Registry? || inner.Tokens?)) || (outer.Job? && inner.Tokens?)
  }

  /** They all go up. */
  function Rank(lock: Lock): nat {
    if lock.Session? || lock.Job? then 0 else 1
  }

  // ----- what the entry points lock

  /** One request: each true exchanges or checks a token under the token mutex,
      each false is a transfer without it. */
  type Request = seq<bool>

  datatype Entry =
    | RegistryCall                                       // initialize, finalize, alloc, free
    | SessionCall(session: nat)                          // set_parameter, query
    | SessionInit(session: nat, auth: nat, configuration: Request, properties: Request)
    | StatusQuery(session: nat, auth: nat, request: Request)
    | CreateJob(session: nat)
    | RetrieveJob(session: nat, auth: nat, request: Request)
    | JobCall(job: nat, auth: nat, requests: seq<Request>)   // configure, submit, check, cancel, results
    | JobWait(job: nat, auth: nat, polls: seq<Request>)

  function Guarded(lock: Lock, ops: seq<Op>): seq<Op> {
    [Acquire(lock)] + ops + [Release(lock)]
  }

  function Requesting(auth: nat, request: Request): seq<Op> {
    if request == [] then []
    else (if request[0] then Guarded(Tokens(auth), [Transport]) else [Transport]) + Requesting(auth, request[1..])
  }

  function RequestingAll(auth: nat, requests: seq<Request>): seq<Op> {
    if requests == [] then [] else Requesting(auth, requests[0]) + RequestingAll(auth, requests[1..])
  }

  function Polling(job: nat, auth: nat, polls: seq<Request>): seq<Op> {
    if polls == [] then []
    else Guarded(Job(job), Requesting(auth, polls[0])) + Polling(job, auth, polls[1..])
  }

  /** Handles are looked up under the registry's mutex, which is released before
      the session or the job is locked. */
  function Program(entry: Entry): seq<Op> {
    var lookup := Guarded(Registry, []);
    match entry
    case RegistryCall => lookup
    case SessionCall(session) => lookup + Guarded(Session(session), [])
    case SessionInit(session, auth, configuration, properties) =>
      lookup + Guarded(Session(session), Requesting(auth, configuration) + Requesting(auth, properties))
    case StatusQuery(session, auth, request) => lookup + Guarded(Session(session), []) + Requesting(auth, request)
    case CreateJob(session) => lookup + Guarded(Session(session), Guarded(Registry, []))
    case RetrieveJob(session, auth, request) =>
      lookup + Guarded(Session(session), []) + Requesting(auth, request) + Guarded(Registry, [])
    case JobCall(job, auth, requests) => lookup + Guarded(Job(job), RequestingAll(auth, requests))
    case JobWait(job, auth, polls) => lookup + Polling(job, auth, polls)
  }

  // ----- threads

  /** The operations left in the current call, the locks held, the calls to come. */
  datatype Thread = Thread(ops: seq<Op>, held: set<Lock>, calls: seq<Entry>)

  type State = seq<Thread>

  datatype Move =
    | Start          // the next call
    | Go             // the next operation
    | Fail           // an exception, or a lock wait that timed out, unwinds the call

  predicate Free(s: State, lock: Lock) {
    forall t :: 0 <= t < |s| ==> lock !in s[t].held
  }

  function Do(s: State, t: nat, move: Move): Option<State>
    requires t < |s|
  {
    var me := s[t];
    match move
    case Start =>
      if me.ops != [] || me.calls == [] then None
      else Some(s[t := me.(ops := Program(me.calls[0]), calls := me.calls[1..])])
    case Fail =>
      if me.ops == [] then None else Some(s[t := me.(ops := [], held := {})])
    case Go =>
      if me.ops == [] then None
      else
        var rest := me.(ops := me.ops[1..]);
        match me.ops[0]
        case Acquire(lock) => if Free(s, lock) then Some(s[t := rest.(held := me.held + {lock})]) else None
        case Release(lock) => Some(s[t := rest.(held := me.held - {lock})])
        case Transport => Some(s[t := rest])
  }

  // ----- the lock order

  /** Acquisitions nest as they may, releases give back what is held, nothing is
      kept. */
  predicate Ordered(held: set<Lock>, ops: seq<Op>)
    decreases ops
  {
    if ops == [] then held == {}
    else
      match ops[0]
      case Acquire(lock) => (forall h :: h in held ==> MayNest(h, lock)) && Ordered(held + {lock}, ops[1..])
      case Release(lock) => lock in held && Ordered(held - {lock}, ops[1..])
      case Transport => Ordered(held, ops[1..])
  }

  lemma {:induction false} OrderedThen(held: set<Lock>, ops: seq<Op>, later: seq<Op>)
    requires Ordered(held, ops) && Ordered({}, later)
    ensures Ordered(held, ops + later)
    decreases ops
  {
    if ops == [] {
      assert ops + later == later;
    } else {
      assert (ops + later)[0] == ops[0] && (ops + later)[1..] == ops[1..] + later;
      match ops[0]
      case Acquire(lock) => OrderedThen(held + {lock}, ops[1..], later);
      case Release(lock) => OrderedThen(held - {lock}, ops[1..], later);
      case Transport => OrderedThen(held, ops[1..], later);
    }
  }

  /** An ordered stretch that starts with nothing can run under a lock that its own
      acquisitions may be nested in. */
  lemma {:induction false} OrderedUnder(lock: Lock, held: set<Lock>, ops: seq<Op>)
    requires Ordered(held, ops) && lock !in held
    requires forall i :: 0 <= i < |ops| && ops[i].Acquire? ==> MayNest(lock, ops[i].lock)
    ensures Ordered(held + {lock}, ops + [Release(lock)])
    decreases ops
  {
    if ops == [] {
      assert ops + [Release(lock)] == [Release(lock)];
      assert held + {lock} - {lock} == {};
    } else {
      var all := ops + [Release(lock)];
      assert all[0] == ops[0] && all[1..] == ops[1..] + [Release(lock)];
      match ops[0]
      case Acquire(next) =>
        assert held + {lock} + {next} == held + {next} + {lock};
        OrderedUnder(lock, held + {next}, ops[1..]);
      case Release(next) =>
        assert held + {lock} - {next} == held - {next} + {lock};
        OrderedUnder(lock, held - {next}, ops[1..]);
      case Transport => OrderedUnder(lock, held, ops[1..]);
    }
  }

  lemma OrderedGuarded(lock: Lock, ops: seq<Op>)
    requires Ordered({}, ops)
    requires forall i :: 0 <= i < |ops| && ops[i].Acquire? ==> MayNest(lock, ops[i].lock)
    ensures Ordered({}, Guarded(lock, ops))
  {
    OrderedUnder(lock, {}, ops);
    var all := Guarded(lock, ops);
    assert all[1..] == ops + [Release(lock)];
    assert {} + {lock} == {lock};
  }

  /** Only token mutexes are acquired. */
  predicate OnlyTokens(ops: seq<Op>) {
    forall i :: 0 <= i < |ops| && ops[i].Acquire? ==> ops[i].lock.Tokens?
  }

  lemma {:induction false} RequestOrdered(auth: nat, request: Request)
    ensures Ordered({}, Requesting(auth, request)) && OnlyTokens(Requesting(auth, request))
  {
    if request != [] {
      RequestOrdered(auth, request[1..]);
      assert [Transport][1..] == [];
      assert Ordered({}, [Transport]);
      OrderedGuarded(Tokens(auth), [Transport]);
      OrderedThen({}, if request[0] then Guarded(Tokens(auth), [Transport]) else [Transport], Requesting(auth, request[1..]));
    }
  }

  lemma {:induction false} RequestsOrdered(auth: nat, requests: seq<Request>)
    ensures Ordered({}, RequestingAll(auth, requests)) && OnlyTokens(RequestingAll(auth, requests))
  {
    if requests != [] {
      RequestOrdered(auth, requests[0]);
      RequestsOrdered(auth, requests[1..]);
      OrderedThen({}, Requesting(auth, requests[0]), RequestingAll(auth, requests[1..]));
    }
  }

  lemma {:induction false} PollingOrdered(job: nat, auth: nat, polls: seq<Request>)
    ensures Ordered({}, Polling(job, auth, polls))
  {
    if polls != [] {
      RequestOrdered(auth, polls[0]);
      OrderedGuarded(Job(job), Requesting(auth, polls[0]));
      PollingOrdered(job, auth, polls[1..]);
      OrderedThen({}, Guarded(Job(job), Requesting(auth, polls[0])), Polling(job, auth, polls[1..]));
    }
  }

  /** Every entry point follows the lock order. */
  lemma ProgramsOrdered(entry: Entry)
    ensures Ordered({}, Program(entry))
  {
    hide Ordered, Guarded, MayNest;
    assert Ordered({}, []) by { NothingOrdered(); }
    var lookup := Guarded(Registry, []);
    OrderedGuarded(Registry, []);
    match entry
    case RegistryCall =>
    case SessionCall(session) =>
      OrderedGuarded(Session(session), []);
      OrderedThen({}, lookup, Guarded(Session(session), []));
    case SessionInit(session, auth, configuration, properties) =>
      RequestOrdered(auth, configuration);
      RequestOrdered(auth, properties);
      OrderedThen({}, Requesting(auth, configuration), Requesting(auth, properties));
      TokensUnder(Session(session), Requesting(auth, configuration) + Requesting(auth, properties));
      OrderedThen({}, lookup, Guarded(Session(session), Requesting(auth, configuration) + Requesting(auth, properties)));
    case StatusQuery(session, auth, request) =>
      OrderedGuarded(Session(session), []);
      RequestOrdered(auth, request);
      OrderedThen({}, lookup, Guarded(Session(session), []));
      OrderedThen({}, lookup + Guarded(Session(session), []), Requesting(auth, request));
    case CreateJob(session) =>
      LookupUnder(session);
      OrderedThen({}, lookup, Guarded(Session(session), lookup));
    case RetrieveJob(session, auth, request) =>
      OrderedGuarded(Session(session), []);
      RequestOrdered(auth, request);
      OrderedThen({}, lookup, Guarded(Session(session), []));
      OrderedThen({}, lookup + Guarded(Session(session), []), Requesting(auth, request));
      OrderedThen({}, lookup + Guarded(Session(session), []) + Requesting(auth, request), lookup);
    case JobCall(job, auth, requests) =>
      RequestsOrdered(auth, requests);
      TokensUnder(Job(job), RequestingAll(auth, requests));
      OrderedThen({}, lookup, Guarded(Job(job), RequestingAll(auth, requests)));
    case JobWait(job, auth, polls) =>
      PollingOrdered(job, auth, polls);
      OrderedThen({}, lookup, Polling(job, auth, polls));
  }

  lemma NothingOrdered()
    ensures Ordered({}, [])
  {
  }

  lemma LookupUnder(session: nat)
    ensures Ordered({}, Guarded(Session(session), Guarded(Registry, [])))
  {
    OrderedGuarded(Registry, []);
    OrderedGuarded(Session(session), Guarded(Registry, []));
  }

  lemma TokensUnder(lock: Lock, ops: seq<Op>)
    requires Ordered({}, ops) && OnlyTokens(ops) && (lock.Session? || lock.Job?)
    ensures Ordered({}, Guarded(lock, ops))
  {
    OrderedGuarded(lock, ops);
  }

  // ----- what the locks protect

  function Held(held: set<Lock>, op: Op): set<Lock> {
    match op
    case Acquire(lock) => held + {lock}
    case Release(lock) => held - {lock}
    case Transport => held
  }

  /** The locks held behind these operations. */
  function HeldBehind(held: set<Lock>, ops: seq<Op>): set<Lock>
    decreases ops
  {
    if ops == [] then held else HeldBehind(Held(held, ops[0]), ops[1..])
  }

  /** Every transfer happens while this lock is held. */
  predicate Inside(lock: Lock, held: set<Lock>, ops: seq<Op>)
    decreases ops
  {
    ops == [] || ((ops[0] == Transport ==> lock in held) && Inside(lock, Held(held, ops[0]), ops[1..]))
  }

  lemma {:induction false} InsideThen(lock: Lock, held: set<Lock>, ops: seq<Op>, later: seq<Op>)
    requires Inside(lock, held, ops) && Inside(lock, HeldBehind(held, ops), later)
    ensures Inside(lock, held, ops + later) && HeldBehind(held, ops + later) == HeldBehind(HeldBehind(held, ops), later)
    decreases ops
  {
    if ops == [] {
      assert ops + later == later;
    } else {
      assert (ops + later)[0] == ops[0] && (ops + later)[1..] == ops[1..] + later;
      InsideThen(lock, Held(held, ops[0]), ops[1..], later);
    }
  }

  lemma OneInside(lock: Lock, held: set<Lock>, op: Op)
    requires op == Transport ==> lock in held
    ensures Inside(lock, held, [op]) && HeldBehind(held, [op]) == Held(held, op)
  {
    assert [op][1..] == [];
  }

  lemma {:induction false} RequestInside(lock: Lock, held: set<Lock>, auth: nat, request: Request)
    requires lock in held && !lock.Tokens? && Tokens(auth) !in held
    ensures Inside(lock, held, Requesting(auth, request)) && HeldBehind(held, Requesting(auth, request)) == held
  {
    if request != [] {
      RequestInside(lock, held, auth, request[1..]);
      var head := if request[0] then Guarded(Tokens(auth), [Transport]) else [Transport];
      HeadInside(lock, held, auth, request[0]);
      InsideThen(lock, held, head, Requesting(auth, request[1..]));
    }
  }

  lemma HeadInside(lock: Lock, held: set<Lock>, auth: nat, exchange: bool)
    requires lock in held && !lock.Tokens? && Tokens(auth) !in held
    ensures var head := if exchange then Guarded(Tokens(auth), [Transport]) else [Transport];
      Inside(lock, held, head) && HeldBehind(held, head) == held
  {
    var token := Tokens(auth);
    OneInside(lock, held, Acquire(token));
    OneInside(lock, held, Transport);
    OneInside(lock, held + {token}, Transport);
    OneInside(lock, held + {token}, Release(token));
    InsideThen(lock, held, [Acquire(token)], [Transport]);
    InsideThen(lock, held, [Acquire(token)] + [Transport], [Release(token)]);
    assert held + {token} - {token} == held;
  }

  lemma {:induction false} RequestsInside(lock: Lock, held: set<Lock>, auth: nat, requests: seq<Request>)
    requires lock in held && !lock.Tokens? && Tokens(auth) !in held
    ensures Inside(lock, held, RequestingAll(auth, requests)) && HeldBehind(held, RequestingAll(auth, requests)) == held
  {
    if requests != [] {
      RequestInside(lock, held, auth, requests[0]);
      RequestsInside(lock, held, auth, requests[1..]);
      InsideThen(lock, held, Requesting(auth, requests[0]), RequestingAll(auth, requests[1..]));
    }
  }

  lemma GuardedInside(lock: Lock, ops: seq<Op>)
    requires Inside(lock, {lock}, ops) && HeldBehind({lock}, ops) == {lock}
    ensures Inside(lock, {}, Guarded(lock, ops)) && HeldBehind({}, Guarded(lock, ops)) == {}
  {
    OneInside(lock, {}, Acquire(lock));
    OneInside(lock, {lock}, Release(lock));
    assert {} + {lock} == {lock} && {lock} - {lock} == {};
    InsideThen(lock, {}, [Acquire(lock)], ops);
    InsideThen(lock, {}, [Acquire(lock)] + ops, [Release(lock)]);
  }

  lemma {:induction false} PollingInside(job: nat, auth: nat, polls: seq<Request>)
    ensures Inside(Job(job), {}, Polling(job, auth, polls)) && HeldBehind({}, Polling(job, auth, polls)) == {}
  {
    if polls != [] {
      RequestInside(Job(job), {Job(job)}, auth, polls[0]);
      GuardedInside(Job(job), Requesting(auth, polls[0]));
      PollingInside(job, auth, polls[1..]);
      InsideThen(Job(job), {}, Guarded(Job(job), Requesting(auth, polls[0])), Polling(job, auth, polls[1..]));
    }
  }

  lemma LookupInside(lock: Lock)
    ensures Inside(lock, {}, Guarded(Registry, [])) && HeldBehind({}, Guarded(Registry, [])) == {}
  {
    OneInside(lock, {}, Acquire(Registry));
    OneInside(lock, {Registry}, Release(Registry));
    assert {} + {Registry} == {Registry} && {Registry} - {Registry} == {};
    InsideThen(lock, {}, [Acquire(Registry)], [Release(Registry)]);
    assert [Acquire(Registry)] + [Release(Registry)] == Guarded(Registry, []);
  }

  /** Everything a job call or wait transfers, it transfers under its job's mutex, and
      so does initialization under its session's: transfers for one job, and
      initializations of one session, never overlap. */
  lemma TransfersSerialized(entry: Entry)
    ensures entry.JobCall? || entry.JobWait? ==> Inside(Job(entry.job), {}, Program(entry))
    ensures entry.SessionInit? ==> Inside(Session(entry.session), {}, Program(entry))
  {
    hide Inside, HeldBehind, Requesting, RequestingAll, Polling, Guarded;
    var lookup := Guarded(Registry, []);
    match entry
    case JobCall(job, auth, requests) =>
      LookupInside(Job(job));
      RequestsInside(Job(job), {Job(job)}, auth, requests);
      GuardedInside(Job(job), RequestingAll(auth, requests));
      InsideThen(Job(job), {}, lookup, Guarded(Job(job), RequestingAll(auth, requests)));
    case JobWait(job, auth, polls) =>
      LookupInside(Job(job));
      PollingInside(job, auth, polls);
      InsideThen(Job(job), {}, lookup, Polling(job, auth, polls));
    case SessionInit(session, auth, configuration, properties) =>
      LookupInside(Session(session));
      RequestInside(Session(session), {Session(session)}, auth, configuration);
      RequestInside(Session(session), {Session(session)}, auth, properties);
      InsideThen(Session(session), {Session(session)}, Requesting(auth, configuration), Requesting(auth, properties));
      GuardedInside(Session(session), Requesting(auth, configuration) + Requesting(auth, properties));
      InsideThen(Session(session), {}, lookup, Guarded(Session(session), Requesting(auth, configuration) + Requesting(auth, properties)));
    case _ =>
  }

  // ----- every reachable state

  ghost predicate Exclusive(s: State) {
    forall t, u :: 0 <= t < u < |s| ==> s[t].held !! s[u].held
  }

  ghost predicate AllOrdered(s: State) {
    forall t :: 0 <= t < |s| ==> Ordered(s[t].held, s[t].ops)
  }

  ghost predicate Inv(s: State) {
    Exclusive(s) && AllOrdered(s)
  }

  lemma MoveKeeps(s: State, t: nat, move: Move)
    requires Inv(s) && t < |s| && Do(s, t, move).Some?
    ensures Inv(Do(s, t, move).value)
  {
    var r := Do(s, t, move).value;
    assert Ordered(s[t].held, s[t].ops);
    if move == Start {
      ProgramsOrdered(s[t].calls[0]);
    }
    assert Ordered(r[t].held, r[t].ops);
    hide Ordered, Program;
  }

  /** Can the thread take its next step, without failing? */
  predicate CanStep(s: State, t: nat) {
    t < |s| && (Do(s, t, Start).Some? || Do(s, t, Go).Some?)
  }

  predicate Finished(thread: Thread) {
    thread.ops == [] && thread.calls == []
  }

  /** While any call is pending, some thread can step. */
  lemma {:induction false} NeverStuck(s: State, t: nat) returns (u: nat)
    requires Inv(s) && t < |s| && !Finished(s[t])
    ensures CanStep(s, u)
    decreases if s[t].ops != [] && s[t].ops[0].Acquire? then 2 - Rank(s[t].ops[0].lock) else 0
  {
    u := t;
    if !CanStep(s, t) {
      var wanted := s[t].ops[0].lock;
      assert Ordered(s[t].held, s[t].ops);
      var holder :| 0 <= holder < |s| && wanted in s[holder].held;
      assert Ordered(s[holder].held, s[holder].ops);
      u := NeverStuck(s, holder);
    }
  }

  // ----- whole runs

  datatype Step = Step(thread: nat, move: Move)

  function Initial(calls: seq<seq<Entry>>): State {
    seq(|calls|, i requires 0 <= i < |calls| => Thread([], {}, calls[i]))
  }

  /** The state an interleaving reaches from threads that have these calls to make. */
  function After(calls: seq<seq<Entry>>, steps: seq<Step>): Option<State> {
    if steps == [] then Some(Initial(calls))
    else
      var last := steps[|steps| - 1];
      match After(calls, steps[..|steps| - 1])
      case None => None
      case Some(s) => if last.thread < |s| then Do(s, last.thread, last.move) else None
  }

  lemma {:induction false} RunsKeep(calls: seq<seq<Entry>>, steps: seq<Step>)
    requires After(calls, steps).Some?
    ensures Inv(After(calls, steps).value)
  {
    hide Do, Ordered;
    if steps == [] {
      NothingOrdered();
    } else {
      var last := steps[|steps| - 1];
      RunsKeep(calls, steps[..|steps| - 1]);
      MoveKeeps(After(calls, steps[..|steps| - 1]).value, last.thread, last.move);
    }
  }

  /** Whatever the threads call and however they interleave, a lock has at most one
      holder, and while any call is pending some thread can take its next step. */
  lemma DeadlockFree(calls: seq<seq<Entry>>, steps: seq<Step>)
    requires After(calls, steps).Some?
    ensures var s := After(calls, steps).value;
      && (forall t, u :: 0 <= t < u < |s| ==> s[t].held !! s[u].held)
      && ((exists t :: 0 <= t < |s| && !Finished(s[t])) ==> exists u :: CanStep(s, u))
  {
    RunsKeep(calls, steps);
    var s := After(calls, steps).value;
    hide Ordered, CanStep;
    if t :| 0 <= t < |s| && !Finished(s[t]) {
      var u := NeverStuck(s, t);
    }
  }

  // ----- every run ends

  function CallsLength(calls: seq<Entry>): nat {
    if calls == [] then 0 else 1 + |Program(calls[0])| + CallsLength(calls[1..])
  }

  /** The operations a thread has left. */
  function Left(thread: Thread): nat {
    |thread.ops| + CallsLength(thread.calls)
  }

  function AllLeft(s: State): nat {
    if s == [] then 0 else AllLeft(s[..|s| - 1]) + Left(s[|s| - 1])
  }

  lemma {:induction false} AllLeftUpdate(s: State, t: nat, thread: Thread)
    requires t < |s|
    ensures AllLeft(s[t := thread]) == AllLeft(s) - Left(s[t]) + Left(thread)
  {
    hide Left;
    var n := |s| - 1;
    var r := s[t := thread];
    if t < n {
      AllLeftUpdate(s[..n], t, thread);
      assert r[..n] == s[..n][t := thread];
    } else {
      assert r[..n] == s[..n];
    }
  }

  lemma MoveShortens(s: State, t: nat, move: Move)
    requires t < |s| && Do(s, t, move).Some?
    ensures var r := Do(s, t, move).value;
      |r| == |s| && r == s[t := r[t]] && Left(r[t]) < Left(s[t])
  {
    hide Program, Free;
    if move == Start {
      assert CallsLength(s[t].calls) == 1 + |Program(s[t].calls[0])| + CallsLength(s[t].calls[1..]);
    }
  }

  /** Every step brings the end nearer, so no run is longer than the work in it. */
  lemma StepsEnd(s: State, t: nat, move: Move)
    requires t < |s| && Do(s, t, move).Some?
    ensures AllLeft(Do(s, t, move).value) < AllLeft(s)
  {
    hide Do, Left, AllLeft;
    MoveShortens(s, t, move);
    AllLeftUpdate(s, t, Do(s, t, move).value[t]);
  }

  lemma {:induction false} RunsEnd(calls: seq<seq<Entry>>, steps: seq<Step>)
    requires After(calls, steps).Some?
    ensures |steps| + AllLeft(After(calls, steps).value) <= AllLeft(Initial(calls))
  {
    hide Do, AllLeft;
    if steps != [] {
      var last := steps[|steps| - 1];
      RunsEnd(calls, steps[..|steps| - 1]);
      StepsEnd(After(calls, steps[..|steps| - 1]).value, last.thread, last.move);
    }
  }
}
