/** The token protocol of src/Auth.cpp shared by any number of threads. Each step
    is one access to shared state: the mutex, the cached token, a token's flag,
    the clock, or the arrival of a response. Steps of different threads
    interleave in any order. */
module TokenProtocol {
  import opened Common

  /** An issued token. Tokens are told apart by their position. */
  datatype Token = Token(valid: bool, expires: nat)

  /** Where a thread stands in a request. */
  datatype Place =
    | Idle
    | Waiting                // for the mutex, in acquireToken
    | Locked                 // holds the mutex, has not looked at the cache
    | Fresh                  // saw a valid token, has not looked at the clock
    | Stale                  // will exchange
    | Dated(started: nat)    // knows when the exchange began, will send it
    | Exchanging(started: nat)
    | Ready                  // has a token, will send
    | Calling                // waits for the backend
    | Deciding(delay: nat)   // may send again after a backoff
    | Resting(delay: nat)    // the backoff fits, will read the clock and sleep
    | Sleeping(target: nat)

  /** The request a thread runs: its parameters, its locals, the token the server
      last refused it, and what it has sent so far. */
  datatype Thread = Thread(place: Place, post: bool, deadline: nat, token: nat, refused: Option<nat>, refreshed: bool, retries: nat,
                           calls: nat, exchanges: nat, sleeps: nat)

  /** attempts and failures count all exchanges sent and those that granted
      nothing. */
  datatype State = State(now: nat, tokens: seq<Token>, cached: Option<nat>, holder: Option<nat>, threads: seq<Thread>,
                         attempts: nat, failures: nat)

  datatype Answer = Unauthorised | Transient(delay: nat) | Other

  datatype Action =
    | Tick(later: nat)
    | Begin(post: bool, deadline: nat)
    | Lock
    | GiveUp                  // the deadline passed while waiting or before sending
    | LookAtFlag
    | LookAtClock
    | StartExchange
    | SendExchange
    | ExchangeFails
    | ExchangeGrants(lifetime: nat)
    | Send
    | Receive(answer: Answer)
    | CheckBackoff
    | Sleep
    | Wake

  function Initial(threads: nat): State {
    State(0, [], None, None, seq(threads, _ => Thread(Idle, false, 0, 0, None, false, 0, 0, 0, 0)), 0, 0)
  }

  predicate HasToken(place: Place) {
    place.Ready? || place.Calling? || place.Deciding? || place.Resting? || place.Sleeping?
  }

  predicate WellFormed(s: State) {
    && (s.cached.Some? ==> s.cached.value < |s.tokens|)
    && (forall t :: 0 <= t < |s.threads| && HasToken(s.threads[t].place) ==>
          s.threads[t].token < |s.tokens|)
  }

  function With(s: State, t: nat, thread: Thread): State
    requires t < |s.threads|
  {
    s.(threads := s.threads[t := thread])
  }

  predicate Live(s: State, token: nat) {
    token < |s.tokens| && s.tokens[token].valid && s.now < s.tokens[token].expires
  }

  predicate HoldsMutex(place: Place) {
    place.Locked? || place.Fresh? || place.Stale? || place.Dated? || place.Exchanging?
  }

  predicate InMutex(s: State, t: nat) {
    t < |s.threads| && HoldsMutex(s.threads[t].place)
  }

  /** acquireToken returns: the mutex is released and the thread has the token. */
  function Acquired(s: State, t: nat, token: nat): State
    requires t < |s.threads|
  {
    With(s, t, s.threads[t].(place := Ready, token := token)).(holder := None)
  }

  /** What thread t does next, None when the action is not possible there. */
  function Do(s: State, t: nat, action: Action): Option<State>
    requires t < |s.threads| && WellFormed(s)
  {
    var me := s.threads[t];
    match action
    case Tick(later) =>
      if later < s.now then None else Some(s.(now := later))
    case Begin(post, deadline) =>
      if me.place != Idle then None
      else Some(With(s, t, Thread(Waiting, post, deadline, 0, None, false, 0, 0, 0, 0)))
    case Lock =>
      if me.place != Waiting || s.holder != None then None
      else Some(With(s, t, me.(place := Locked)).(holder := Some(t)))
    case GiveUp =>
      if s.now < me.deadline then None
      else if me.place == Waiting || me.place == Ready || me.place.Deciding? then Some(With(s, t, me.(place := Idle)))
      else if me.place.Dated? then Some(With(s, t, me.(place := Idle)).(holder := None))
      else None
    case LookAtFlag =>
      if me.place != Locked then None
      else if s.cached == None || !s.tokens[s.cached.value].valid then Some(With(s, t, me.(place := Stale)))
      else Some(With(s, t, me.(place := Fresh)))
    case LookAtClock =>
      if me.place != Fresh || s.cached == None then None
      else if s.now >= s.tokens[s.cached.value].expires then Some(With(s, t, me.(place := Stale)))
      else Some(Acquired(s, t, s.cached.value))
    case StartExchange =>
      if me.place != Stale then None else Some(With(s, t, me.(place := Dated(s.now))))
    case SendExchange =>
      if !me.place.Dated? || s.now >= me.deadline then None
      else Some(With(s, t, me.(place := Exchanging(me.place.started), exchanges := me.exchanges + 1)).(attempts := s.attempts + 1))
    case ExchangeFails =>
      if !me.place.Exchanging? then None
      else Some(With(s, t, me.(place := Idle)).(holder := None, failures := s.failures + 1))
    case ExchangeGrants(lifetime) =>
      if !me.place.Exchanging? then None
      else
        var token := Token(true, me.place.started + lifetime);
        Some(Acquired(s, t, |s.tokens|).(tokens := s.tokens + [token], cached := Some(|s.tokens|)))
    case Send =>
      if me.place != Ready || s.now >= me.deadline then None
      else Some(With(s, t, me.(place := Calling, calls := me.calls + 1)))
    case Receive(Unauthorised) =>
      if me.place != Calling then None
      else
        var dead := s.tokens[me.token].(valid := false);
        var next := if me.post || me.refreshed then me.(place := Idle) else me.(place := Waiting, refreshed := true);
        Some(With(s, t, next.(refused := Some(me.token))).(tokens := s.tokens[me.token := dead]))
    case Receive(Transient(delay)) =>
      if me.place != Calling then None
      else if me.post || me.retries == 2 then Some(With(s, t, me.(place := Idle)))
      else Some(With(s, t, me.(place := Deciding(delay))))
    case Receive(Other) =>
      if me.place != Calling then None else Some(With(s, t, me.(place := Idle)))
    case CheckBackoff =>
      if !me.place.Deciding? then None
      else if s.now + me.place.delay >= me.deadline then Some(With(s, t, me.(place := Idle)))
      else Some(With(s, t, me.(place := Resting(me.place.delay))))
    case Sleep =>
      if !me.place.Resting? then None
      else Some(With(s, t, me.(place := Sleeping(s.now + me.place.delay), sleeps := me.sleeps + 1)))
    case Wake =>
      if !me.place.Sleeping? || s.now < me.place.target then None
      else Some(With(s, t, me.(place := Ready, retries := me.retries + 1)))
  }

  // ----- what every interleaving keeps

  ghost predicate Exclusive(s: State) {
    forall t :: 0 <= t < |s.threads| ==> (HoldsMutex(s.threads[t].place) <==> s.holder == Some(t))
  }

  predicate WillReplace(place: Place) {
    place.Stale? || place.Dated? || place.Exchanging?
  }

  /** A thread about to replace the cached token found it dead, and it stays so. */
  ghost predicate ReplacesDead(s: State) {
    forall t :: 0 <= t < |s.threads| && WillReplace(s.threads[t].place) ==>
      s.cached == None || !Live(s, s.cached.value)
  }

  ghost predicate OnlyCachedLives(s: State) {
    forall i :: 0 <= i < |s.tokens| && Live(s, i) ==> s.cached == Some(i)
  }

  /** Has sent its request since it last got a token or slept. */
  predicate HasCalled(place: Place) {
    place.Calling? || BacksOff(place)
  }

  predicate BacksOff(place: Place) {
    place.Deciding? || place.Resting? || place.Sleeping?
  }

  /** Is in acquireToken and has not asked for an exchange there. */
  predicate BeforeExchange(place: Place) {
    place.Waiting? || place.Locked? || place.Fresh? || place.Stale? || place.Dated?
  }

  /** What one request has sent, at any point in it. */
  predicate Bounded(me: Thread) {
    var again := if me.refreshed then 1 else 0;
    && me.retries <= 2 && (me.post ==> me.retries == 0 && !me.refreshed && me.sleeps == 0)
    && me.exchanges <= again + (if BeforeExchange(me.place) then 0 else 1)
    && (BacksOff(me.place) ==> me.retries < 2 && !me.post)
    && if me.place.Idle? then me.calls <= 1 + me.retries + again && me.sleeps <= me.retries
       else
         && me.calls == me.retries + again + (if HasCalled(me.place) then 1 else 0)
         && me.sleeps == me.retries + (if me.place.Sleeping? then 1 else 0)
  }

  ghost predicate AllBounded(s: State) {
    forall t :: 0 <= t < |s.threads| ==> Bounded(s.threads[t])
  }

  /** Every exchange granted a token, failed, or is the one in flight. */
  ghost predicate Accounted(s: State) {
    s.attempts == |s.tokens| + s.failures + if InFlight(s) then 1 else 0
  }

  predicate InFlight(s: State) {
    s.holder.Some? && s.holder.value < |s.threads| && s.threads[s.holder.value].place.Exchanging?
  }

  /** A token the server refused a request is invalid, and the request does not
      hold it any more. */
  predicate Renewed(s: State, me: Thread) {
    me.refused.Some? ==>
      && me.refused.value < |s.tokens| && !s.tokens[me.refused.value].valid
      && (me.place.Fresh? ==> s.cached.Some? && s.cached != me.refused)
      && (HasToken(me.place) ==> me.token != me.refused.value)
  }

  ghost predicate AllRenewed(s: State) {
    forall t :: 0 <= t < |s.threads| ==> Renewed(s, s.threads[t])
  }

  ghost predicate Inv(s: State) {
    && WellFormed(s) && Exclusive(s) && ReplacesDead(s) && OnlyCachedLives(s) && AllBounded(s) && Accounted(s)
    && AllRenewed(s)
  }

  lemma OthersUnchanged(s: State, t: nat, action: Action)
    requires WellFormed(s) && t < |s.threads| && Do(s, t, action).Some?
    ensures var r := Do(s, t, action).value;
      |r.threads| == |s.threads| && forall u :: 0 <= u < |s.threads| && u != t ==> r.threads[u] == s.threads[u]
  {
  }

  lemma StepWellFormed(s: State, t: nat, action: Action)
    requires WellFormed(s) && Exclusive(s) && t < |s.threads| && Do(s, t, action).Some?
    ensures WellFormed(Do(s, t, action).value)
  {
  }

  lemma StepExclusive(s: State, t: nat, action: Action)
    requires WellFormed(s) && Exclusive(s) && t < |s.threads| && Do(s, t, action).Some?
    ensures Exclusive(Do(s, t, action).value)
  {
    OthersUnchanged(s, t, action);
    OwnMutex(s, t, action);
    hide Do, WellFormed, HoldsMutex;
  }

  /** A thread takes the mutex when it is free, and gives up only its own. */
  lemma OwnMutex(s: State, t: nat, action: Action)
    requires WellFormed(s) && t < |s.threads| && Do(s, t, action).Some?
    requires HoldsMutex(s.threads[t].place) <==> s.holder == Some(t)
    ensures var r := Do(s, t, action).value;
      && t < |r.threads|
      && (HoldsMutex(r.threads[t].place) <==> r.holder == Some(t))
      && (r.holder == s.holder || (s.holder == None && r.holder == Some(t)) || (s.holder == Some(t) && r.holder == None))
  {
  }

  /** A token never comes back to life, and only a granted one is born. */
  lemma StepBirths(s: State, t: nat, action: Action)
    requires WellFormed(s) && t < |s.threads| && Do(s, t, action).Some?
    ensures var r := Do(s, t, action).value;
      && |s.tokens| <= |r.tokens|
      && (forall i :: 0 <= i < |s.tokens| && Live(r, i) ==> Live(s, i))
      && (|r.tokens| > |s.tokens| ==> s.threads[t].place.Exchanging? && r.cached == Some(|s.tokens|) && |r.tokens| == |s.tokens| + 1)
      && (|r.tokens| == |s.tokens| ==> r.cached == s.cached)
  {
  }

  lemma StepReplacesDead(s: State, t: nat, action: Action)
    requires WellFormed(s) && Exclusive(s) && ReplacesDead(s) && t < |s.threads| && Do(s, t, action).Some?
    ensures ReplacesDead(Do(s, t, action).value)
  {
    var r := Do(s, t, action).value;
    StepBirths(s, t, action);
    StepExclusive(s, t, action);
    forall u | 0 <= u < |r.threads| && WillReplace(r.threads[u].place)
      ensures r.cached == None || !Live(r, r.cached.value)
    {
      if u == t {
      } else {
        hide Do, Live;
        assert s.threads[u] == r.threads[u];
        assert s.holder == Some(u);
      }
    }
  }

  lemma StepOnlyCachedLives(s: State, t: nat, action: Action)
    requires WellFormed(s) && ReplacesDead(s) && OnlyCachedLives(s) && t < |s.threads| && Do(s, t, action).Some?
    ensures OnlyCachedLives(Do(s, t, action).value)
  {
    StepBirths(s, t, action);
    hide Do, Live;
  }

  lemma StepBounded(s: State, t: nat, action: Action)
    requires WellFormed(s) && AllBounded(s) && t < |s.threads| && Do(s, t, action).Some?
    ensures AllBounded(Do(s, t, action).value)
  {
    var r := Do(s, t, action).value;
    OthersUnchanged(s, t, action);
    assert Bounded(s.threads[t]);
    OwnBounded(s, t, action);
    hide Do, Bounded, WellFormed;
    forall u | 0 <= u < |r.threads| ensures Bounded(r.threads[u]) {
      assert Bounded(s.threads[u]);
    }
  }

  lemma OwnBounded(s: State, t: nat, action: Action)
    requires WellFormed(s) && t < |s.threads| && Do(s, t, action).Some? && Bounded(s.threads[t])
    ensures t < |Do(s, t, action).value.threads| && Bounded(Do(s, t, action).value.threads[t])
  {
    if Sends(action) {
      OwnSendsBounded(s, t, action);
    } else {
      OwnAcquiresBounded(s, t, action);
    }
    hide Do, Bounded, WellFormed;
  }

  predicate Sends(action: Action) {
    action.Send? || action.Receive? || action.CheckBackoff? || action.Sleep? || action.Wake?
  }

  lemma OwnSendsBounded(s: State, t: nat, action: Action)
    requires WellFormed(s) && t < |s.threads| && Sends(action) && Do(s, t, action).Some? && Bounded(s.threads[t])
    ensures t < |Do(s, t, action).value.threads| && Bounded(Do(s, t, action).value.threads[t])
  {
  }

  lemma OwnAcquiresBounded(s: State, t: nat, action: Action)
    requires WellFormed(s) && t < |s.threads| && !Sends(action) && Do(s, t, action).Some? && Bounded(s.threads[t])
    ensures t < |Do(s, t, action).value.threads| && Bounded(Do(s, t, action).value.threads[t])
  {
  }

  lemma StepAccounted(s: State, t: nat, action: Action)
    requires WellFormed(s) && Exclusive(s) && Accounted(s) && t < |s.threads| && Do(s, t, action).Some?
    ensures Accounted(Do(s, t, action).value)
  {
  }

  /** Tokens stay invalid, and nobody else replaces what the mutex holder saw. */
  lemma StepRenewed(s: State, t: nat, action: Action)
    requires WellFormed(s) && Exclusive(s) && AllRenewed(s) && t < |s.threads| && Do(s, t, action).Some?
    ensures AllRenewed(Do(s, t, action).value)
  {
    var r := Do(s, t, action).value;
    OthersUnchanged(s, t, action);
    hide Do, Renewed, Exclusive, WellFormed;
    forall u | 0 <= u < |r.threads| ensures Renewed(r, r.threads[u]) {
      assert Renewed(s, s.threads[u]);
      if u == t {
        OwnRenewed(s, t, action);
      } else {
        OtherRenewed(s, t, action, u);
      }
    }
  }

  lemma OwnRenewed(s: State, t: nat, action: Action)
    requires WellFormed(s) && t < |s.threads| && Do(s, t, action).Some? && Renewed(s, s.threads[t])
    ensures Renewed(Do(s, t, action).value, Do(s, t, action).value.threads[t])
  {
  }

  lemma OtherRenewed(s: State, t: nat, action: Action, u: nat)
    requires WellFormed(s) && Exclusive(s) && t < |s.threads| && u < |s.threads| && u != t && Do(s, t, action).Some?
    requires Renewed(s, s.threads[u])
    ensures Renewed(Do(s, t, action).value, s.threads[u])
  {
    StepFlags(s, t, action);
    var r := Do(s, t, action).value;
    if s.threads[u].place.Fresh? {
      assert s.holder == Some(u);
      assert !s.threads[t].place.Exchanging?;
      StepBirths(s, t, action);
    }
    hide Do;
  }

  lemma StepFlags(s: State, t: nat, action: Action)
    requires WellFormed(s) && t < |s.threads| && Do(s, t, action).Some?
    ensures var r := Do(s, t, action).value;
      |s.tokens| <= |r.tokens| && forall i :: 0 <= i < |s.tokens| && !s.tokens[i].valid ==> !r.tokens[i].valid
  {
  }

  lemma StepKeeps(s: State, t: nat, action: Action)
    requires Inv(s) && t < |s.threads| && Do(s, t, action).Some?
    ensures Inv(Do(s, t, action).value)
  {
    hide Do, WellFormed, Exclusive, ReplacesDead, OnlyCachedLives, AllBounded, Accounted, AllRenewed;
    StepWellFormed(s, t, action);
    StepExclusive(s, t, action);
    StepReplacesDead(s, t, action);
    StepOnlyCachedLives(s, t, action);
    StepBounded(s, t, action);
    StepAccounted(s, t, action);
    StepRenewed(s, t, action);
  }

  // ----- whole runs

  /** One thread's step in an interleaving. */
  datatype Step = Step(thread: nat, action: Action)

  function Next(s: State, step: Step): Option<State> {
    if step.thread < |s.threads| && WellFormed(s) then Do(s, step.thread, step.action) else None
  }

  /** The state an interleaving leads to. */
  function From(s: State, steps: seq<Step>): Option<State> {
    if steps == [] then Some(s)
    else
      match From(s, steps[..|steps| - 1])
      case None => None
      case Some(middle) => Next(middle, steps[|steps| - 1])
  }

  /** The state an interleaving of this many threads leads to from the start. */
  function After(threads: nat, steps: seq<Step>): Option<State> {
    From(Initial(threads), steps)
  }

  lemma {:induction false} FromKeeps(s: State, steps: seq<Step>)
    requires Inv(s) && From(s, steps).Some?
    ensures Inv(From(s, steps).value) && |From(s, steps).value.threads| == |s.threads|
  {
    hide Inv, Do;
    if steps != [] {
      var n := |steps| - 1;
      FromKeeps(s, steps[..n]);
      var middle := From(s, steps[..n]).value;
      StepKeeps(middle, steps[n].thread, steps[n].action);
      OthersUnchanged(middle, steps[n].thread, steps[n].action);
    }
  }

  lemma InitialGood(threads: nat)
    ensures Inv(Initial(threads)) && |Initial(threads).threads| == threads
  {
  }

  lemma RunsKeep(threads: nat, steps: seq<Step>)
    requires After(threads, steps).Some?
    ensures Inv(After(threads, steps).value) && |After(threads, steps).value.threads| == threads
  {
    hide Inv, From;
    InitialGood(threads);
    FromKeeps(Initial(threads), steps);
  }

  /** How many of the first n tokens are invalid or expired. */
  function Dead(s: State, n: nat): nat
    requires n <= |s.tokens|
  {
    if n == 0 then 0 else Dead(s, n - 1) + if Live(s, n - 1) then 0 else 1
  }

  lemma {:induction false} AllButOneDead(s: State, n: nat)
    requires n <= |s.tokens| && OnlyCachedLives(s)
    ensures Dead(s, n) == n - if s.cached.Some? && s.cached.value < n && Live(s, s.cached.value) then 1 else 0
  {
    hide Live;
    if n > 0 {
      AllButOneDead(s, n - 1);
    }
  }

  /** Over every interleaving, the exchanges that granted a token number exactly
      the tokens that died, plus one when the cached token lives; at most one
      exchange is in flight. */
  lemma ExchangesMatchDeaths(threads: nat, steps: seq<Step>)
    requires After(threads, steps).Some?
    ensures var s := After(threads, steps).value;
      && WellFormed(s)
      && |s.tokens| == Dead(s, |s.tokens|) + (if s.cached.Some? && Live(s, s.cached.value) then 1 else 0)
      && s.attempts == |s.tokens| + s.failures + (if InFlight(s) then 1 else 0)
      && (forall t: nat, u: nat :: InMutex(s, t) && InMutex(s, u) ==> t == u)
  {
    RunsKeep(threads, steps);
    var s := After(threads, steps).value;
    AllButOneDead(s, |s.tokens|);
    hide Live;
    forall t: nat, u: nat | InMutex(s, t) && InMutex(s, u)
      ensures t == u
    {
      assert s.holder == Some(t);
      assert s.holder == Some(u);
    }
  }

  /** Over every interleaving, the cached token is replaced only by the token just
      granted, and only when it is absent, refused or expired at that moment. */
  lemma ReplacedOnlyWhenDead(threads: nat, steps: seq<Step>, step: Step)
    requires After(threads, steps + [step]).Some?
    ensures (steps + [step])[..|steps|] == steps && After(threads, steps).Some?
    ensures var s, r := After(threads, steps).value, After(threads, steps + [step]).value;
      r.cached != s.cached ==>
        && (s.cached == None || !Live(s, s.cached.value))
        && step.action.ExchangeGrants? && r.cached == Some(|s.tokens|) && |r.tokens| == |s.tokens| + 1
  {
    assert (steps + [step])[..|steps|] == steps;
    var s := After(threads, steps).value;
    RunsKeep(threads, steps);
    StepBirths(s, step.thread, step.action);
    var r := After(threads, steps + [step]).value;
    if r.cached != s.cached {
      assert s.threads[step.thread].place.Exchanging?;
    }
  }

  /** In any state, a token's validity changes only when the server refuses a
      request that used that very token, however late; nothing but that flag
      changes, so a token cached meanwhile stays valid. */
  lemma RefusalHitsOwnToken(s: State, step: Step, i: nat)
    requires Next(s, step).Some? && i < |s.tokens|
    ensures var r := Next(s, step).value;
      && i < |r.tokens|
      && (r.tokens[i] != s.tokens[i] ==>
          && step.action == Receive(Unauthorised) && s.threads[step.thread].place == Calling
          && s.threads[step.thread].token == i
          && r.tokens[i] == s.tokens[i].(valid := false)
          && r.cached == s.cached && |r.tokens| == |s.tokens|
          && forall j :: 0 <= j < |s.tokens| && j != i ==> r.tokens[j] == s.tokens[j])
      && (step.action == Receive(Unauthorised) ==> !r.tokens[s.threads[step.thread].token].valid)
  {
  }

  /** An exchange that fails, or is given up, leaves the cache and every token as
      they were and frees the mutex for the next thread. */
  lemma FailureChangesNothing(s: State, step: Step)
    requires Next(s, step).Some? && Inv(s)
    requires step.action == ExchangeFails || step.action == GiveUp
    ensures var r := Next(s, step).value;
      && r.cached == s.cached && r.tokens == s.tokens
      && (HoldsMutex(s.threads[step.thread].place) ==> r.holder == None)
  {
  }

  /** Over every interleaving, each request stays within its bounds. */
  lemma RequestsBounded(threads: nat, steps: seq<Step>, t: nat)
    requires After(threads, steps).Some? && t < threads
    ensures var s := After(threads, steps).value;
      && |s.threads| == threads
      && var me := s.threads[t];
      && me.calls <= (if me.post then 1 else 4)
      && me.exchanges <= (if me.post then 1 else 2)
      && me.sleeps <= (if me.post then 0 else 2)
  {
    RunsKeep(threads, steps);
    assert Bounded(After(threads, steps).value.threads[t]);
  }

  /** Over every interleaving, a request never sends the token the server last
      refused it, and that token is invalid for everyone. */
  lemma RefusedNeverResent(threads: nat, steps: seq<Step>, t: nat)
    requires After(threads, steps).Some? && t < threads
    ensures var s := After(threads, steps).value;
      && |s.threads| == threads
      && var me := s.threads[t];
      me.refused.Some? ==>
        && me.refused.value < |s.tokens| && !s.tokens[me.refused.value].valid
        && (me.place.Calling? ==> me.token != me.refused.value)
  {
    RunsKeep(threads, steps);
    assert Renewed(After(threads, steps).value, After(threads, steps).value.threads[t]);
  }

  // ----- how long a token lives

  /** The server refuses a request that used this token. */
  predicate Refuses(s: State, step: Step, token: nat) {
    step.action == Receive(Unauthorised) && step.thread < |s.threads| && s.threads[step.thread].token == token
  }

  /** No request that used this token is refused during the run. */
  ghost predicate NeverRefused(s: State, steps: seq<Step>, token: nat) {
    forall i :: 0 <= i < |steps| ==> From(s, steps[..i]).Some? && !Refuses(From(s, steps[..i]).value, steps[i], token)
  }

  lemma NextFlag(s: State, step: Step, token: nat)
    requires Next(s, step).Some? && token < |s.tokens|
    ensures var r := Next(s, step).value;
      && token < |r.tokens| && r.tokens[token].expires == s.tokens[token].expires
      && (r.tokens[token].valid <==> s.tokens[token].valid && !Refuses(s, step, token))
  {
  }

  /** In any run from any state, a token stays valid exactly until a request that
      used it is refused. */
  lemma {:induction false} ValidUntilRefused(s: State, steps: seq<Step>, token: nat)
    requires From(s, steps).Some? && token < |s.tokens|
    ensures var r := From(s, steps).value;
      && token < |r.tokens| && r.tokens[token].expires == s.tokens[token].expires
      && (r.tokens[token].valid <==> s.tokens[token].valid && NeverRefused(s, steps, token))
  {
    hide Next, Refuses;
    if steps != [] {
      var n := |steps| - 1;
      var front := steps[..n];
      ValidUntilRefused(s, front, token);
      NextFlag(From(s, front).value, steps[n], token);
      assert forall i :: 0 <= i < n ==> front[..i] == steps[..i];
      if NeverRefused(s, front, token) && !Refuses(From(s, front).value, steps[n], token) {
        forall i | 0 <= i < |steps|
          ensures From(s, steps[..i]).Some? && !Refuses(From(s, steps[..i]).value, steps[i], token)
        {
          if i < n {
            assert front[..i] == steps[..i] && front[i] == steps[i];
          }
        }
      }
      if NeverRefused(s, steps, token) {
        assert forall i :: 0 <= i < n ==> front[i] == steps[i];
      }
    }
  }

  /** Over every interleaving, a live cached token lives on exactly until a request
      that used it is refused or it expires, and stays cached as long as it lives:
      late refusals of older tokens and failing exchanges do not touch it. */
  lemma LiveTokenStays(threads: nat, steps: seq<Step>, more: seq<Step>, token: nat)
    requires After(threads, steps).Some? && Live(After(threads, steps).value, token)
    requires From(After(threads, steps).value, more).Some?
    ensures var s := After(threads, steps).value; var r := From(s, more).value;
      && s.cached == Some(token)
      && (Live(r, token) <==> NeverRefused(s, more, token) && r.now < s.tokens[token].expires)
      && (Live(r, token) ==> r.cached == Some(token))
  {
    var s := After(threads, steps).value;
    RunsKeep(threads, steps);
    FromKeeps(s, more);
    ValidUntilRefused(s, more, token);
    hide From, NeverRefused, After;
  }

  /** In any run from any state, the cache and the number of tokens stay as they
      are unless an exchange grants a token. */
  lemma {:induction false} OnlyGrantsReplace(s: State, steps: seq<Step>)
    requires From(s, steps).Some?
    requires forall i :: 0 <= i < |steps| ==> !steps[i].action.ExchangeGrants?
    ensures var r := From(s, steps).value; r.cached == s.cached && |r.tokens| == |s.tokens|
  {
    hide Next;
    if steps != [] {
      var n := |steps| - 1;
      OnlyGrantsReplace(s, steps[..n]);
      NoGrant(From(s, steps[..n]).value, steps[n]);
    }
  }

  lemma NoGrant(s: State, step: Step)
    requires Next(s, step).Some? && !step.action.ExchangeGrants?
    ensures var r := Next(s, step).value; r.cached == s.cached && |r.tokens| == |s.tokens|
  {
  }
}
