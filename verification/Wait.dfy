/** Waiting for a job (src/Device.cpp): polling under one deadline that covers the
    job's mutex, authentication and every request. */
module Wait {
  import opened Common
  import opened JsonModel
  import opened Auth
  import opened JobSpec
  import opened Traffic
  import opened Job
  import opened Retrieval
  import opened JobRuns
  import opened Handle

  /** duration_cast to seconds truncates toward zero. */
  function Seconds(time: int): int {
    if time >= 0 then time / SECOND else -(-time / SECOND)
  }

  /** The deadline of a wait that starts now; zero seconds means none. */
  function DeadlineFor(started: nat, timeout: nat): nat {
    if timeout == 0 || timeout >= Seconds(NO_DEADLINE - started) then NO_DEADLINE else started + timeout * SECOND
  }

  /** The deadline is a representable time. It is the requested seconds away
      exactly when the clock can show one more second behind it, or when it is the
      last time the clock can show; any other wait has no deadline. */
  lemma DeadlineRepresentable(started: nat, timeout: nat)
    requires started <= NO_DEADLINE
    ensures started <= DeadlineFor(started, timeout) <= NO_DEADLINE
    ensures timeout == 0 ==> DeadlineFor(started, timeout) == NO_DEADLINE
    ensures timeout > 0 ==>
      (DeadlineFor(started, timeout) == started + timeout * SECOND <==>
        started + (timeout + 1) * SECOND <= NO_DEADLINE || started + timeout * SECOND == NO_DEADLINE)
    ensures DeadlineFor(started, timeout) == started + timeout * SECOND || DeadlineFor(started, timeout) == NO_DEADLINE
  {
    var left := NO_DEADLINE - started;
    assert (left / SECOND) * SECOND <= left < (left / SECOND + 1) * SECOND;
  }

  /** A wait as long as the whole seconds the clock has left gets no deadline,
      although its end could be represented. */
  lemma LongestWaitIsUnbounded()
    ensures 9_223_372_036 * SECOND < NO_DEADLINE
    ensures DeadlineFor(0, 9_223_372_036) == NO_DEADLINE
    ensures DeadlineFor(0, 9_223_372_035) == 9_223_372_035 * SECOND
  {
  }

  lemma FiniteDeadline(started: nat, timeout: nat)
    ensures DeadlineFor(started, timeout) < NO_DEADLINE ==> DeadlineFor(started, timeout) == started + timeout * SECOND
  {
  }

  // ----- the waiting thread's own events

  /** At most n sends for any resource, and nothing posted. */
  ghost predicate OnlyGets(events: seq<Event>, n: nat) {
    forall resource :: Sends(events, resource, false) <= n && Sends(events, resource, true) == 0
  }

  lemma Extended(events: seq<Event>, more: seq<Event>, deadline: nat, n: nat, m: nat)
    requires Before(events, deadline) && Before(more, deadline) && OnlyGets(events, n) && OnlyGets(more, m)
    ensures Before(events + more, deadline) && OnlyGets(events + more, n + m)
  {
    hide Sends;
    forall resource
      ensures Sends(events + more, resource, false) <= n + m && Sends(events + more, resource, true) == 0
    {
      SendsAppend(events, more, resource, false);
      SendsAppend(events, more, resource, true);
    }
  }

  lemma SleepIsNoRequest(sleep: Event, deadline: nat)
    requires sleep.Slept?
    ensures Before([sleep], deadline) && OnlyGets([sleep], 0)
  {
    assert [sleep][..0] == [];
    forall resource, post ensures Sends([sleep], resource, post) == 0 {
    }
  }

  /** One list of events is made of two others, each in its order. */
  ghost predicate Interleaved(all: seq<Event>, own: seq<Event>, others: seq<Event>)
    decreases |all|
  {
    if all == [] then own == [] && others == []
    else
      var n := |all| - 1;
      || (own != [] && Last(own) == all[n] && Interleaved(all[..n], own[..|own| - 1], others))
      || (others != [] && Last(others) == all[n] && Interleaved(all[..n], own, others[..|others| - 1]))
  }

  lemma {:induction false} InterleavedOwn(all: seq<Event>, own: seq<Event>, others: seq<Event>, more: seq<Event>)
    requires Interleaved(all, own, others)
    ensures Interleaved(all + more, own + more, others)
  {
    if more == [] {
      assert all + more == all && own + more == own;
    } else {
      var n := |more| - 1;
      InterleavedOwn(all, own, others, more[..n]);
      assert (all + more)[..|all| + n] == all + more[..n];
      assert (own + more)[..|own| + n] == own + more[..n];
    }
  }

  lemma {:induction false} InterleavedOthers(all: seq<Event>, own: seq<Event>, others: seq<Event>, more: seq<Event>)
    requires Interleaved(all, own, others)
    ensures Interleaved(all + more, own, others + more)
  {
    if more == [] {
      assert all + more == all && others + more == others;
    } else {
      var n := |more| - 1;
      InterleavedOthers(all, own, others, more[..n]);
      assert (all + more)[..|all| + n] == all + more[..n];
      assert (others + more)[..|others| + n] == others + more[..n];
    }
  }

  /** All events of a wait: the waiting thread's own and the other threads'. */
  datatype Trace = Trace(all: seq<Event>, own: seq<Event>, others: seq<Event>)

  const QUIET := Trace([], [], [])

  /** The own events start no request at or after the deadline, and send nothing
      but gets, at most four a poll. */
  ghost predicate Kept(trace: Trace, deadline: nat, polls: nat) {
    Interleaved(trace.all, trace.own, trace.others) && Before(trace.own, deadline) && OnlyGets(trace.own, 4 * polls)
  }

  lemma QuietKept(deadline: nat)
    ensures Kept(QUIET, deadline, 0)
  {
  }

  lemma OthersKept(trace: Trace, deadline: nat, polls: nat, more: seq<Event>)
    requires Kept(trace, deadline, polls)
    ensures Kept(Trace(trace.all + more, trace.own, trace.others + more), deadline, polls)
  {
    hide Before, OnlyGets, Interleaved;
    InterleavedOthers(trace.all, trace.own, trace.others, more);
  }

  lemma OwnKept(trace: Trace, deadline: nat, polls: nat, more: seq<Event>, added: nat)
    requires Kept(trace, deadline, polls) && Before(more, deadline) && OnlyGets(more, 4 * added)
    ensures Kept(Trace(trace.all + more, trace.own + more, trace.others), deadline, polls + added)
  {
    hide Before, OnlyGets, Interleaved;
    InterleavedOwn(trace.all, trace.own, trace.others, more);
    Extended(trace.own, more, deadline, 4 * polls, 4 * added);
  }

  // ----- polling

  /** A poll keeps the handle sound, sends for the status only, and sends nothing
      for a handle that has nothing to learn. */
  lemma OnePoll(lib: Library, s: JobState, answer: Answers, events: seq<Event>)
    requires Sound(lib, s) && Carries(events, JobSpec.Check(lib, s, answer).asks)
    ensures var step := JobSpec.Check(lib, s, answer);
      && Sound(lib, step.state) && step.state.attempted == s.attempted
      && OnlyGets(events, 4)
      && (step.result.Ok? ==> step.result.value == step.state.status)
      && (Terminal(s.status) || !s.attempted ==> step.result == Ok(s.status) && step.state == s && events == [])
  {
    hide Configured, IsIdentifier, Polled, Sends, Allowed;
    CheckSettled(lib, s, answer);
    forall resource
      ensures Sends(events, resource, false) <= 4 && Sends(events, resource, true) == 0
    {
      OneGet(s.id, resource);
      assert Sends(events, resource, false) <= Allowed(JobSpec.Check(lib, s, answer).asks, resource, false);
      assert Sends(events, resource, true) <= Allowed(JobSpec.Check(lib, s, answer).asks, resource, true);
    }
  }

  lemma OneGet(id: string, resource: string)
    ensures Allowed([], resource, false) == Allowed([], resource, true) == 0
    ensures Allowed([Ask(Path(id), false, "")], resource, false) <= 4 && Allowed([Ask(Path(id), false, "")], resource, true) == 0
  {
    var asks := [Ask(Path(id), false, "")];
    assert asks[..0] == [];
  }

  /** After this many polls the clock has moved on as many seconds, or has reached
      the deadline, and the last poll was due before it. */
  predicate OnPace(started: nat, now: nat, due: nat, polls: nat) {
    && (now < due ==> now >= started + polls * SECOND)
    && (polls == 0 || started + (polls - 1) * SECOND < due)
  }

  lemma StartPace(started: nat, due: nat)
    ensures OnPace(started, started, due, 0)
  {
  }

  lemma KeepPace(started: nat, before: nat, now: nat, later: nat, due: nat, polls: nat)
    requires OnPace(started, before, due, polls) && before <= now < due && later >= Min(due, now + SECOND)
    ensures OnPace(started, later, due, polls + 1)
  {
  }

  lemma PaceBounds(started: nat, now: nat, timeout: nat, polls: nat)
    requires OnPace(started, now, DeadlineFor(started, timeout), polls)
    ensures DeadlineFor(started, timeout) < NO_DEADLINE ==> polls <= timeout
  {
    FiniteDeadline(started, timeout);
  }

  /** With the reply that the last of these events brought, a check takes some handle
      to this one, with this result; a check that fails takes it to itself. */
  ghost predicate CheckGave(parse: string -> Option<Json>, lib: Library, s: JobState, r: Result<Status>, events: seq<Event>, late: bool) {
    exists before, k, answer :: 0 <= k <= |events| && Gives(parse, lib, before, s, r, events[k..], answer, late)
  }

  ghost predicate Gives(parse: string -> Option<Json>, lib: Library, before: JobState, after: JobState, r: Result<Status>,
                        events: seq<Event>, answer: Answers, late: bool) {
    var step := JobSpec.Check(lib, before, answer);
    step.state == after && step.result == r && (r.Err? ==> before == after) && Replied(parse, events, step.asks, answer, late)
  }

  lemma PollGives(parse: string -> Option<Json>, lib: Library, s: JobState, answer: Answers, own: seq<Event>, more: seq<Event>, late: bool)
    requires Replied(parse, more, JobSpec.Check(lib, s, answer).asks, answer, late)
    ensures var step := JobSpec.Check(lib, s, answer); CheckGave(parse, lib, step.state, step.result, own + more, late)
  {
    hide Polled, Replied;
    var step := JobSpec.Check(lib, s, answer);
    assert (own + more)[|own|..] == more;
    assert Gives(parse, lib, s, step.state, step.result, (own + more)[|own|..], answer, late);
  }

  lemma GaveLater(parse: string -> Option<Json>, lib: Library, s: JobState, r: Result<Status>, events: seq<Event>, early: bool, late: bool)
    requires CheckGave(parse, lib, s, r, events, early) && (early ==> late)
    ensures CheckGave(parse, lib, s, r, events, late)
  {
    hide JobSpec.Check, Replied;
    var before, k, answer :| 0 <= k <= |events| && Gives(parse, lib, before, s, r, events[k..], answer, early);
    RepliedLater(parse, events[k..], JobSpec.Check(lib, before, answer).asks, answer, answer, early, late);
    assert Gives(parse, lib, before, s, r, events[k..], answer, late);
  }

  lemma FinalStatus(status: Status)
    ensures Terminal(status) <==> status == Completed || status == Canceled || status == Failed
  {
  }

  /** One poll of a waiting thread. */
  method Poll(job: Job, due: nat, ghost earlier: seq<Event>, ghost before: Trace, ghost polls: nat)
    returns (r: Result<Status>, ghost trace: Trace)
    requires job.Valid() && Sound(job.lib, job.State())
    requires job.auth.world.log == earlier + before.all && Kept(before, due, polls)
    modifies job`status, job.auth`cachedToken, job.auth`issued, job.auth.world, job.auth.issued
    ensures job.Valid() && Sound(job.lib, job.State())
    ensures old(job.auth.issued) <= job.auth.issued && fresh(job.auth.issued - old(job.auth.issued))
    ensures job.auth.world.log == earlier + trace.all && job.auth.world.now >= old(job.auth.world.now)
    ensures Kept(trace, due, polls + 1)
    ensures CheckGave(job.auth.parse, job.lib, job.State(), r, trace.own,
                      Late(job.auth.world.now, old(job.auth.world.now), due, job.auth.requestTimeout))
    ensures r.Ok? ==> r.value == job.status
    ensures Terminal(old(job.status)) || !job.attempted ==>
      r == Ok(old(job.status)) && job.status == old(job.status) && trace.own == before.own
  {
    hide Sound, JobSpec.Check, OnlyGets, Before, Kept, CheckGave, Replied, Late;
    ghost var state := job.State();
    ghost var answer, more;
    r, answer, more := job.Check(due);
    PollGives(job.auth.parse, job.lib, state, answer, before.own, more,
              Late(job.auth.world.now, old(job.auth.world.now), due, job.auth.requestTimeout));
    OnePoll(job.lib, state, answer, more);
    OwnKept(before, due, polls, more, 1);
    assert (earlier + before.all) + more == earlier + (before.all + more);
    trace := Trace(before.all + more, before.own + more, before.others);
  }

  /** Whatever other threads call on the job while its mutex is free. */
  method Meanwhile(job: Job, ghost due: nat, ghost earlier: seq<Event>, ghost before: Trace, ghost polls: nat) returns (ghost trace: Trace)
    requires job.Valid() && Sound(job.lib, job.State())
    requires job.auth.world.log == earlier + before.all && Kept(before, due, polls)
    modifies job, job.auth`cachedToken, job.auth`issued, job.auth.world, job.auth.issued
    ensures job.Valid() && Sound(job.lib, job.State())
    ensures old(job.auth.issued) <= job.auth.issued && fresh(job.auth.issued - old(job.auth.issued))
    ensures job.auth.world.log == earlier + trace.all && job.auth.world.now >= old(job.auth.world.now)
    ensures Kept(trace, due, polls) && trace.own == before.own
    ensures old(job.attempted) ==> job.attempted && job.id == old(job.id)
    ensures old(job.attempted) && Terminal(old(job.status)) ==> job.status == old(job.status)
  {
    hide Sound, Run, Carries, Sends, Kept;
    var calls: seq<Call> := *;
    ghost var turns, more;
    turns, more := Drive(job, calls);
    OthersKept(before, due, polls, more);
    assert (earlier + before.all) + more == earlier + (before.all + more);
    trace := Trace(before.all + more, before.own, before.others + more);
  }

  /** Waits for the job's mutex, which other threads take for their calls. */
  method LockJob(job: Job, due: nat, ghost earlier: seq<Event>, ghost before: Trace, ghost polls: nat) returns (locked: bool, ghost trace: Trace)
    requires job.Valid() && Sound(job.lib, job.State())
    requires job.auth.world.log == earlier + before.all && Kept(before, due, polls)
    modifies job, job.auth`cachedToken, job.auth`issued, job.auth.world, job.auth.issued
    ensures job.Valid() && Sound(job.lib, job.State())
    ensures old(job.auth.issued) <= job.auth.issued && fresh(job.auth.issued - old(job.auth.issued))
    ensures job.auth.world.log == earlier + trace.all && job.auth.world.now >= old(job.auth.world.now)
    ensures Kept(trace, due, polls) && trace.own == before.own
    ensures old(job.attempted) ==> job.attempted
    ensures old(job.attempted) && Terminal(old(job.status)) ==> job.status == old(job.status)
    ensures locked || job.auth.world.now >= due
    ensures job.attempted <==> job.status != Created
    ensures Terminal(job.status) ==> job.attempted
  {
    hide Sound, Kept, Terminal;
    trace := Meanwhile(job, due, earlier, before, polls);
    StatusOfAttempted(job.lib, job.State());
    locked := job.auth.world.TryLockUntil(due);
  }

  /** One turn of the waiting loop up to its decisions: locks the job and polls it.
      None when the mutex is not free before the deadline. */
  method Turn(job: Job, due: nat, ghost earlier: seq<Event>, ghost before: Trace, ghost polls: nat, ghost began: nat)
    returns (r: Option<Result<Status>>, ghost trace: Trace)
    requires job.Valid() && Sound(job.lib, job.State()) && began <= job.auth.world.now
    requires job.auth.world.log == earlier + before.all && Kept(before, due, polls)
    modifies job, job.auth`cachedToken, job.auth`issued, job.auth.world, job.auth.issued
    ensures job.Valid() && Sound(job.lib, job.State())
    ensures old(job.auth.issued) <= job.auth.issued && fresh(job.auth.issued - old(job.auth.issued))
    ensures job.auth.world.log == earlier + trace.all && job.auth.world.now >= old(job.auth.world.now)
    ensures r == None ==> job.auth.world.now >= due && Kept(trace, due, polls) && trace.own == before.own
    ensures r.Some? ==>
      && Kept(trace, due, polls + 1)
      && CheckGave(job.auth.parse, job.lib, job.State(), r.value, trace.own, Late(job.auth.world.now, began, due, job.auth.requestTimeout))
      && (r.value.Ok? ==> r.value.value == job.status)
    ensures old(job.attempted) ==> job.attempted
    ensures old(job.attempted) && Terminal(old(job.status)) ==>
      job.status == old(job.status) && trace.own == before.own && (r.Some? ==> r.value == Ok(job.status))
    ensures !job.attempted ==> trace.own == before.own && (r.Some? ==> r.value == Ok(job.status))
    ensures job.attempted <==> job.status != Created
    ensures Terminal(job.status) ==> job.attempted
  {
    hide Sound, Kept, Terminal, CheckGave;
    var locked;
    locked, trace := LockJob(job, due, earlier, before, polls);
    if !locked {
      return None, trace;
    }
    ghost var asked := job.auth.world.now;
    var status;
    status, trace := Poll(job, due, earlier, trace, polls);
    GaveLater(job.auth.parse, job.lib, job.State(), status, trace.own,
              Late(job.auth.world.now, asked, due, job.auth.requestTimeout),
              Late(job.auth.world.now, began, due, job.auth.requestTimeout));
    StatusOfAttempted(job.lib, job.State());
    return Some(status), trace;
  }

  /** Sleeps a second, or up to the deadline, if it is not over yet. */
  method Pause(world: World, due: nat, ghost earlier: seq<Event>, ghost before: Trace, ghost polls: nat)
    returns (slept: bool, ghost now: nat, ghost trace: Trace)
    requires world.log == earlier + before.all && Kept(before, due, polls)
    modifies world
    ensures world.log == earlier + trace.all && Kept(trace, due, polls)
    ensures old(world.now) <= now <= world.now
    ensures slept ==> now < due && world.now >= Min(due, now + SECOND)
    ensures !slept ==> world.now >= due
  {
    hide Kept, OnlyGets, Before;
    var time := world.Clock();
    now := time;
    if time >= due {
      return false, now, before;
    }
    var target := Min(due, time + SECOND);
    world.SleepUntil(target);
    ghost var sleep := Slept(world.reading, target);
    SleepIsNoRequest(sleep, due);
    OwnKept(before, due, polls, [sleep], 0);
    assert (earlier + before.all) + [sleep] == earlier + (before.all + [sleep]);
    trace := Trace(before.all + [sleep], before.own + [sleep], before.others);
    return true, now, trace;
  }

  /** Success means a final status, and failure that no time is left, that the handle
      was never submitted, or that a poll failed. The waiting thread starts no request at or
      after the deadline and posts nothing; with a finite deadline it polls at most
      once a second and once more, whatever other threads call on the job in
      between. Sleeps reach their target and the clock never goes back. */
  method JobWait(job: Job, timeout: nat) returns (r: Result<()>, ghost deadline: nat, ghost polls: nat, ghost trace: Trace)
    requires job.Valid() && Sound(job.lib, job.State())
    modifies job, job.auth`cachedToken, job.auth`issued, job.auth.world, job.auth.issued
    ensures job.Valid() && Sound(job.lib, job.State())
    ensures job.auth.world.log == old(job.auth.world.log) + trace.all
    ensures Kept(trace, deadline, polls)
    ensures exists started :: old(job.auth.world.now) <= started <= job.auth.world.now && deadline == DeadlineFor(started, timeout)
    ensures deadline < NO_DEADLINE ==> polls <= timeout + 1
    ensures r.Ok? ==>
      && (job.status == Completed || job.status == Canceled || job.status == Failed)
      && CheckGave(job.auth.parse, job.lib, job.State(), Ok(job.status), trace.own,
                   Late(job.auth.world.now, old(job.auth.world.now), deadline, job.auth.requestTimeout))
    ensures r.Err? ==>
      || (r == Err(Timeout) && job.auth.world.now >= deadline)
      || (r == Err(BadState) && job.status == Created)
      || CheckGave(job.auth.parse, job.lib, job.State(), Err(r.error), trace.own,
                   Late(job.auth.world.now, old(job.auth.world.now), deadline, job.auth.requestTimeout))
    ensures Terminal(old(job.status)) ==> job.status == old(job.status) && trace.own == [] && (r == Ok(()) || r == Err(Timeout))
    ensures !job.attempted ==> trace.own == [] && (r == Err(BadState) || r == Err(Timeout))
  {
    hide Sound, Kept, DeadlineFor, OnPace, Terminal, CheckGave;
    var world := job.auth.world;
    ghost var earlier := world.log;
    StatusOfAttempted(job.lib, job.State());
    var started := world.Clock();
    var due := DeadlineFor(started, timeout);
    StartPace(started, due);
    deadline, polls, trace := due, 0, QUIET;
    QuietKept(due);
    while true
      invariant job.Valid() && Sound(job.lib, job.State())
      invariant old(job.auth.issued) <= job.auth.issued && fresh(job.auth.issued - old(job.auth.issued))
      invariant world.log == earlier + trace.all && Kept(trace, due, polls) && started <= world.now
      invariant polls == 0 ==> trace.own == []
      invariant polls > 0 ==> job.attempted && !Terminal(old(job.status))
      invariant Terminal(old(job.status)) ==> job.attempted && job.status == old(job.status)
      invariant OnPace(started, world.now, due, polls)
      decreases if world.now < due then due - world.now else 0
    {
      ghost var before := world.now;
      PaceBounds(started, before, timeout, polls);
      var turn;
      turn, trace := Turn(job, due, earlier, trace, polls, old(world.now));
      if turn == None {
        return Err(Timeout), deadline, polls, trace;
      }
      var status := turn.value;
      polls := polls + 1;
      if status.Err? {
        return Err(status.error), deadline, polls, trace;
      }
      if status.value == Created {
        return Err(BadState), deadline, polls, trace;
      }
      FinalStatus(status.value);
      if Terminal(status.value) {
        return Ok(()), deadline, polls, trace;
      }
      var slept;
      ghost var now;
      slept, now, trace := Pause(world, due, earlier, trace, polls);
      if !slept {
        return Err(Timeout), deadline, polls, trace;
      }
      KeepPace(started, before, now, world.now, due, polls - 1);
    }
  }

  lemma StatusOfAttempted(lib: Library, s: JobState)
    requires Sound(lib, s)
    ensures s.attempted <==> s.status != Created
    ensures Terminal(s.status) ==> s.attempted
  {
    hide Configured;
  }
}
