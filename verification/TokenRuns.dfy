/** One thread's way through the token protocol: where it stands, and which steps
    take it on. */
module TokenRuns {
  import opened Common
  import opened TokenProtocol

  /** What the outside sees of a thread, and when. */
  datatype Sight = Exchange(at: nat) | Request(at: nat) | Rest(at: nat, target: nat)

  function Shown(s: State, action: Action): seq<Sight> {
    if action.SendExchange? then [Exchange(s.now)]
    else if action.Send? then [Request(s.now)]
    else if action.Sleep? && |s.threads| == 1 && s.threads[0].place.Resting? then [Rest(s.now, s.now + s.threads[0].place.delay)]
    else []
  }

  function Sights(first: State, steps: seq<Step>): seq<Sight>
    requires From(first, steps).Some?
  {
    if steps == [] then []
    else
      var n := |steps| - 1;
      Sights(first, steps[..n]) + Shown(From(first, steps[..n]).value, steps[n].action)
  }

  function Counted(sights: seq<Sight>): (nat, nat, nat) {
    if sights == [] then (0, 0, 0)
    else
      var (exchanges, requests, rests) := Counted(sights[..|sights| - 1]);
      match sights[|sights| - 1]
      case Exchange(_) => (exchanges + 1, requests, rests)
      case Request(_) => (exchanges, requests + 1, rests)
      case Rest(_, _) => (exchanges, requests, rests + 1)
  }

  /** The thread's counters agree with what was seen. */
  predicate Counts(me: Thread, sights: seq<Sight>) {
    Counted(sights) == (me.exchanges, me.calls, me.sleeps)
  }

  /** Steps of the only thread lead from one state to another and show this. */
  ghost predicate Leads(first: State, last: State, sights: seq<Sight>) {
    exists steps :: From(first, steps) == Some(last) && Sights(first, steps) == sights
  }

  lemma LeadsOn(first: State, last: State, sights: seq<Sight>, action: Action)
    requires Leads(first, last, sights) && WellFormed(last) && |last.threads| == 1 && Do(last, 0, action).Some?
    ensures Leads(first, Do(last, 0, action).value, sights + Shown(last, action))
  {
    hide Do, Shown, WellFormed;
    var steps :| From(first, steps) == Some(last) && Sights(first, steps) == sights;
    var more := steps + [Step(0, action)];
    assert more[..|steps|] == steps;
    assert From(first, more) == Some(Do(last, 0, action).value);
  }

  lemma CountOn(last: State, sights: seq<Sight>, action: Action)
    requires WellFormed(last) && |last.threads| == 1 && Do(last, 0, action).Some? && !action.Begin?
    requires Counts(last.threads[0], sights)
    ensures |Do(last, 0, action).value.threads| == 1
    ensures Counts(Do(last, 0, action).value.threads[0], sights + Shown(last, action))
  {
    CountsMove(last, action);
    var shown := Shown(last, action);
    hide Do, Shown, WellFormed;
    if shown == [] {
      assert sights + shown == sights;
    } else {
      assert (sights + shown)[..|sights|] == sights;
    }
  }

  /** The counters move by what the step shows. */
  lemma CountsMove(last: State, action: Action)
    requires WellFormed(last) && |last.threads| == 1 && Do(last, 0, action).Some? && !action.Begin?
    ensures |Do(last, 0, action).value.threads| == 1 && |Shown(last, action)| <= 1
    ensures var me, next := last.threads[0], Do(last, 0, action).value.threads[0]; var shown := Shown(last, action);
      && next.exchanges == me.exchanges + (if shown != [] && shown[0].Exchange? then 1 else 0)
      && next.calls == me.calls + (if shown != [] && shown[0].Request? then 1 else 0)
      && next.sleeps == me.sleeps + (if shown != [] && shown[0].Rest? then 1 else 0)
  {
  }

  // ----- where a thread stands

  /** A run of the only thread: from where, to where, and what was seen. */
  datatype Run = Run(first: State, last: State, sights: seq<Sight>)

  datatype Stance = Stance(place: Place, post: bool, deadline: nat, refreshed: bool, retries: nat)

  function StanceOf(me: Thread): Stance {
    Stance(me.place, me.post, me.deadline, me.refreshed, me.retries)
  }

  function CachedIn(s: State): Option<Token> {
    if s.cached.Some? && s.cached.value < |s.tokens| then Some(s.tokens[s.cached.value]) else None
  }

  ghost predicate Good(run: Run) {
    && Leads(run.first, run.last, run.sights)
    && Inv(run.last) && |run.last.threads| == 1 && Counts(run.last.threads[0], run.sights)
  }

  /** The run has come to this stance, with this token in the cache, and a token
      that the thread has is the cached one. */
  ghost predicate Stands(run: Run, cached: Option<Token>, now: nat, stance: Stance) {
    && Good(run) && WellFormed(run.last) && |run.last.threads| == 1 && run.last.now <= now && CachedIn(run.last) == cached
    && StanceOf(run.last.threads[0]) == stance
    && run.last.holder == (if HoldsMutex(stance.place) then Some(0) else None)
    && (HasToken(stance.place) ==> run.last.cached == Some(run.last.threads[0].token))
  }

  lemma Later(run: Run, cached: Option<Token>, before: nat, now: nat, stance: Stance)
    requires Stands(run, cached, before, stance) && before <= now
    ensures Stands(run, cached, now, stance)
  {
    hide Good;
  }

  lemma Moves(run: Run, action: Action) returns (next: Run)
    requires Good(run) && WellFormed(run.last) && |run.last.threads| == 1 && !action.Begin? && Do(run.last, 0, action).Some?
    ensures Good(next) && WellFormed(next.last) && |next.last.threads| == 1
    ensures next == Run(run.first, Do(run.last, 0, action).value, run.sights + Shown(run.last, action))
  {
    next := Run(run.first, Do(run.last, 0, action).value, run.sights + Shown(run.last, action));
    hide Do, Shown, Counts;
    LeadsOn(run.first, run.last, run.sights, action);
    CountOn(run.last, run.sights, action);
    StepKeeps(run.last, 0, action);
    hide Leads, Inv;
  }

  lemma Ticks(run: Run, cached: Option<Token>, now: nat, stance: Stance) returns (next: Run)
    requires Stands(run, cached, now, stance)
    ensures Stands(next, cached, now, stance) && next == run.(last := run.last.(now := now))
  {
    hide Good;
    next := Moves(run, Tick(now));
    assert next.sights == run.sights;
  }

  /** A state in which one idle thread has the token cache for itself. */
  function Alone(now: nat, cached: Option<Token>): State {
    State(now, if cached.Some? then [cached.value] else [], if cached.Some? then Some(0) else None, None,
          [Thread(Idle, false, 0, 0, None, false, 0, 0, 0, 0)], if cached.Some? then 1 else 0, 0)
  }

  /** A request begins. */
  lemma Begins(now: nat, cached: Option<Token>, post: bool, deadline: nat) returns (run: Run)
    ensures run.first == Alone(now, cached) && run.sights == []
    ensures Stands(run, cached, now, Stance(Waiting, post, deadline, false, 0))
  {
    var first := Alone(now, cached);
    var last := Do(first, 0, Begin(post, deadline)).value;
    run := Run(first, last, []);
    AloneGood(now, cached);
    StepKeeps(first, 0, Begin(post, deadline));
    assert From(first, []) == Some(first) && Sights(first, []) == [];
    LeadsOn(first, first, [], Begin(post, deadline));
    assert [] + Shown(first, Begin(post, deadline)) == [];
    hide Inv, Leads;
  }

  lemma AloneGood(now: nat, cached: Option<Token>)
    ensures Inv(Alone(now, cached))
  {
  }

  // ----- getting a token

  function To(stance: Stance, place: Place): Stance {
    stance.(place := place)
  }

  lemma GivesUp(run: Run, cached: Option<Token>, now: nat, stance: Stance) returns (next: Run)
    requires Stands(run, cached, now, stance) && now >= stance.deadline
    requires stance.place.Waiting? || stance.place.Ready? || stance.place.Deciding? || stance.place.Dated?
    ensures Stands(next, cached, now, To(stance, Idle)) && next.first == run.first && next.sights == run.sights
  {
    hide Good;
    var at := Ticks(run, cached, now, stance);
    next := Moves(at, GiveUp);
    assert next.sights == run.sights;
  }

  lemma LooksAtFlag(run: Run, cached: Option<Token>, now: nat, stance: Stance) returns (next: Run)
    requires Stands(run, cached, now, stance) && stance.place == Waiting
    ensures Stands(next, cached, now, To(stance, if cached.Some? && cached.value.valid then Fresh else Stale))
    ensures next.first == run.first && next.sights == run.sights
  {
    hide Good;
    var locked := Moves(run, Lock);
    assert Stands(locked, cached, now, To(stance, Locked)) && locked.sights == run.sights;
    next := LooksLocked(locked, cached, now, To(stance, Locked));
  }

  lemma LooksLocked(run: Run, cached: Option<Token>, now: nat, stance: Stance) returns (next: Run)
    requires Stands(run, cached, now, stance) && stance.place == Locked
    ensures Stands(next, cached, now, To(stance, if cached.Some? && cached.value.valid then Fresh else Stale))
    ensures next.first == run.first && next.sights == run.sights
  {
    hide Good;
    next := Moves(run, LookAtFlag);
    assert next.sights == run.sights;
  }

  lemma LooksAtClock(run: Run, cached: Option<Token>, now: nat, stance: Stance) returns (next: Run)
    requires Stands(run, cached, now, stance) && stance.place == Fresh && cached.Some?
    ensures Stands(next, cached, now, To(stance, if now < cached.value.expires then Ready else Stale))
    ensures next.first == run.first && next.sights == run.sights
  {
    hide Good;
    var at := Ticks(run, cached, now, stance);
    next := Moves(at, LookAtClock);
    assert next.sights == run.sights;
  }

  lemma StartsExchange(run: Run, cached: Option<Token>, now: nat, stance: Stance) returns (next: Run)
    requires Stands(run, cached, now, stance) && stance.place == Stale
    ensures Stands(next, cached, now, To(stance, Dated(now))) && next.first == run.first && next.sights == run.sights
  {
    hide Good;
    var at := Ticks(run, cached, now, stance);
    next := Moves(at, StartExchange);
    assert next.sights == run.sights;
  }

  lemma SendsExchange(run: Run, cached: Option<Token>, now: nat, stance: Stance) returns (next: Run)
    requires Stands(run, cached, now, stance) && stance.place.Dated? && now < stance.deadline
    ensures Stands(next, cached, now, To(stance, Exchanging(stance.place.started)))
    ensures next.first == run.first && next.sights == run.sights + [Exchange(now)]
  {
    hide Good;
    var at := Ticks(run, cached, now, stance);
    next := Moves(at, SendExchange);
  }

  lemma GetsNothing(run: Run, cached: Option<Token>, now: nat, stance: Stance) returns (next: Run)
    requires Stands(run, cached, now, stance) && stance.place.Exchanging?
    ensures Stands(next, cached, now, To(stance, Idle)) && next.first == run.first && next.sights == run.sights
  {
    hide Good;
    next := Moves(run, ExchangeFails);
    assert next.sights == run.sights;
  }

  lemma GetsToken(run: Run, cached: Option<Token>, now: nat, stance: Stance, lifetime: nat) returns (next: Run)
    requires Stands(run, cached, now, stance) && stance.place.Exchanging?
    ensures Stands(next, Some(Token(true, stance.place.started + lifetime)), now, To(stance, Ready))
    ensures next.first == run.first && next.sights == run.sights
  {
    hide Good;
    next := Moves(run, ExchangeGrants(lifetime));
    assert next.sights == run.sights;
  }

  // ----- sending the request

  lemma SendsRequest(run: Run, cached: Option<Token>, now: nat, stance: Stance) returns (next: Run)
    requires Stands(run, cached, now, stance) && stance.place == Ready && now < stance.deadline
    ensures Stands(next, cached, now, To(stance, Calling))
    ensures next.first == run.first && next.sights == run.sights + [Request(now)]
  {
    hide Good;
    var at := Ticks(run, cached, now, stance);
    next := Moves(at, Send);
  }

  lemma IsRefused(run: Run, cached: Option<Token>, now: nat, stance: Stance) returns (next: Run)
    requires Stands(run, cached, now, stance) && stance.place == Calling && cached.Some?
    ensures Stands(next, Some(cached.value.(valid := false)), now,
                   if stance.post || stance.refreshed then To(stance, Idle) else To(stance, Waiting).(refreshed := true))
    ensures next.first == run.first && next.sights == run.sights
  {
    hide Good;
    next := Moves(run, Receive(Unauthorised));
    assert next.sights == run.sights;
  }

  lemma IsAnswered(run: Run, cached: Option<Token>, now: nat, stance: Stance, answer: Answer) returns (next: Run)
    requires Stands(run, cached, now, stance) && stance.place == Calling && answer != Unauthorised
    ensures Stands(next, cached, now,
                   To(stance, if answer.Transient? && !stance.post && stance.retries != 2 then Deciding(answer.delay) else Idle))
    ensures next.first == run.first && next.sights == run.sights
  {
    hide Good;
    next := Moves(run, Receive(answer));
    assert next.sights == run.sights;
  }

  // ----- the backoff

  lemma ChecksBackoff(run: Run, cached: Option<Token>, now: nat, stance: Stance) returns (next: Run)
    requires Stands(run, cached, now, stance) && stance.place.Deciding?
    ensures Stands(next, cached, now,
                   To(stance, if now + stance.place.delay >= stance.deadline then Idle else Resting(stance.place.delay)))
    ensures next.first == run.first && next.sights == run.sights
  {
    hide Good;
    var at := Ticks(run, cached, now, stance);
    next := Moves(at, CheckBackoff);
    assert next.sights == run.sights;
  }

  lemma FallsAsleep(run: Run, cached: Option<Token>, now: nat, stance: Stance) returns (next: Run)
    requires Stands(run, cached, now, stance) && stance.place.Resting?
    ensures Stands(next, cached, now, To(stance, Sleeping(now + stance.place.delay)))
    ensures next.first == run.first && next.sights == run.sights + [Rest(now, now + stance.place.delay)]
  {
    hide Good;
    var at := Ticks(run, cached, now, stance);
    next := Moves(at, Sleep);
  }

  lemma WakesUp(run: Run, cached: Option<Token>, now: nat, stance: Stance) returns (next: Run)
    requires Stands(run, cached, now, stance) && stance.place.Sleeping? && now >= stance.place.target
    ensures Stands(next, cached, now, To(stance, Ready).(retries := stance.retries + 1))
    ensures next.first == run.first && next.sights == run.sights
  {
    hide Good;
    var at := Ticks(run, cached, now, stance);
    next := Moves(at, Wake);
    assert next.sights == run.sights;
  }
}
