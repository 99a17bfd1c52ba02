/** Authentication and the retry loop of src/Auth.cpp, as one thread runs them.
    Every request of a call shares one deadline. Times are in nanoseconds,
    timeouts and delays in milliseconds. */
module Auth {
  import opened Common
  import opened Http
  import opened JsonModel
  import P = TokenProtocol
  import R = TokenRuns

  const MILLISECOND: nat := 1_000_000
  const SECOND: nat := 1_000_000_000

  class Token {
    const bearer: string
    const expires: nat
    var valid: bool

    constructor (bearer: string, expires: nat)
      ensures this.bearer == bearer && this.expires == expires && valid
    {
      this.bearer := bearer;
      this.expires := expires;
      valid := true;
    }
  }

  /** What the outside world observes, with the clock reading that preceded it. */
  datatype Event =
    | Exchanged(reading: nat, timeout: nat, response: Response)
    | Called(token: Token, resource: string, post: bool, body: string, reading: nat, timeout: nat, response: Response)
    | Slept(reading: nat, target: nat)

  /** The clock, the network and sleep. Any answer can arrive at any time; the
      clock never goes back. When still, only the network and sleep take time. */
  class World {
    const still: bool
    var now: nat
    ghost var reading: nat
    ghost var log: seq<Event>

    constructor (still: bool, now: nat)
      ensures this.still == still && this.now == now && log == []
    {
      this.still := still;
      this.now := now;
      reading := now;
      log := [];
    }

    method Clock() returns (time: nat)
      modifies this`now, this`reading
      ensures time == now == reading && now >= old(now)
      ensures still ==> now == old(now)
    {
      Pass();
      time := now;
      reading := now;
    }

    /** Other work may take any time, unless the world is still. */
    method Pass()
      modifies this`now
      ensures now >= old(now)
      ensures still ==> now == old(now)
    {
      if !still {
        var later: nat :| later >= now;
        now := later;
      }
    }

    method Exchange(timeout: nat) returns (response: Response)
      modifies this`now, this`log
      ensures now >= old(now)
      ensures log == old(log) + [Exchanged(reading, timeout, response)]
    {
      response := *;
      var later: nat :| later >= now;
      now := later;
      log := log + [Exchanged(reading, timeout, response)];
    }

    method Call(token: Token, resource: string, post: bool, body: string, timeout: nat) returns (response: Response)
      modifies this`now, this`log
      ensures now >= old(now)
      ensures log == old(log) + [Called(token, resource, post, body, reading, timeout, response)]
    {
      response := *;
      var later: nat :| later >= now;
      now := later;
      log := log + [Called(token, resource, post, body, reading, timeout, response)];
    }

    method SleepUntil(target: nat)
      modifies this`now, this`log
      ensures now >= old(now) && now >= target
      ensures log == old(log) + [Slept(reading, target)]
    {
      var later: nat :| later >= now && later >= target;
      now := later;
      log := log + [Slept(reading, target)];
    }

    /** Waiting for a mutex that other threads hold ends at the deadline. */
    method TryLockUntil(deadline: nat) returns (locked: bool)
      modifies this`now
      ensures now >= old(now)
      ensures still ==> now == old(now)
      ensures locked || now >= deadline
    {
      Pass();
      locked := *;
      locked := locked || now < deadline;
    }
  }

  // ----- counting events

  ghost function Calls(events: seq<Event>): nat {
    if events == [] then 0 else Calls(events[..|events| - 1]) + (if events[|events| - 1].Called? then 1 else 0)
  }

  ghost function Exchanges(events: seq<Event>): nat {
    if events == [] then 0 else Exchanges(events[..|events| - 1]) + (if events[|events| - 1].Exchanged? then 1 else 0)
  }

  ghost function Sleeps(events: seq<Event>): nat {
    if events == [] then 0 else Sleeps(events[..|events| - 1]) + (if events[|events| - 1].Slept? then 1 else 0)
  }

  /** The calls that the server refused. */
  ghost function Refusals(events: seq<Event>): nat {
    if events == [] then 0 else Refusals(events[..|events| - 1]) + (if IsRefusal(events[|events| - 1]) then 1 else 0)
  }

  ghost predicate IsRefusal(event: Event) {
    event.Called? && Denied(event.response)
  }

  lemma CountsAppend(events: seq<Event>, event: Event)
    ensures Calls(events + [event]) == Calls(events) + if event.Called? then 1 else 0
    ensures Exchanges(events + [event]) == Exchanges(events) + if event.Exchanged? then 1 else 0
    ensures Sleeps(events + [event]) == Sleeps(events) + if event.Slept? then 1 else 0
    ensures Refusals(events + [event]) == Refusals(events) + if IsRefusal(event) then 1 else 0
  {
    assert (events + [event])[..|events|] == events;
  }

  // ----- as steps of the token protocol

  /** What an event is in the protocol. */
  ghost function Sight(event: Event): R.Sight {
    match event
    case Exchanged(reading, _, _) => R.Exchange(reading)
    case Called(_, _, _, _, reading, _, _) => R.Request(reading)
    case Slept(reading, target) => R.Rest(reading, target)
  }

  ghost function Seen(events: seq<Event>): seq<R.Sight> {
    if events == [] then [] else Seen(events[..|events| - 1]) + [Sight(events[|events| - 1])]
  }

  lemma SeenOne(event: Event)
    ensures Seen([event]) == [Sight(event)]
  {
    assert [event][..0] == [];
  }

  lemma {:induction false} SeenAppend(events: seq<Event>, more: seq<Event>)
    ensures Seen(events + more) == Seen(events) + Seen(more)
  {
    if more == [] {
      assert events + more == events;
    } else {
      var n := |more| - 1;
      SeenAppend(events, more[..n]);
      assert (events + more)[..|events| + n] == events + more[..n];
    }
  }

  lemma {:induction false} SeenCounts(events: seq<Event>)
    ensures R.Counted(Seen(events)) == (Exchanges(events), Calls(events), Sleeps(events))
  {
    if events != [] {
      var n := |events| - 1;
      SeenCounts(events[..n]);
      assert Seen(events)[..|Seen(events)| - 1] == Seen(events[..n]);
    }
  }

  /** How the protocol sees a response. */
  function Answer(response: Response, retries: nat): P.Answer {
    if Unauthorised(response) then P.Unauthorised
    else if !response.timedOut && Transient(response) then P.Transient(if retries < 2 then Delay(response, retries) * MILLISECOND else 0)
    else P.Other
  }

  /** Where a response takes the request that waited for it. */
  function After(response: Response, post: bool, deadline: nat, refreshed: bool, retries: nat): R.Stance
    requires retries <= 2
  {
    if Unauthorised(response) && !post && !refreshed then R.Stance(P.Waiting, post, deadline, true, retries)
    else if post || response.timedOut || !Transient(response) || retries == 2 then R.Stance(P.Idle, post, deadline, refreshed, retries)
    else R.Stance(P.Deciding(Delay(response, retries) * MILLISECOND), post, deadline, refreshed, retries)
  }

  // ----- the time budget

  /** Milliseconds, rounded up. */
  function CeilMilliseconds(time: nat): nat {
    (time + MILLISECOND - 1) / MILLISECOND
  }

  /** A request starts before the limit. Its timeout ends less than a millisecond
      after the limit, is no longer than the longest one, and as long as these two
      allow; it is never zero, which would mean none. In a still world no sleep lasts
      to the limit. */
  ghost predicate InBudget(event: Event, limit: nat, longest: nat, still: bool) {
    match event
    case Slept(reading, target) => reading < target && (still ==> target < limit)
    case _ =>
      && event.reading < limit && 0 < event.timeout <= longest && event.reading + event.timeout * MILLISECOND < limit + MILLISECOND
      && (event.timeout == longest || event.reading + event.timeout * MILLISECOND >= limit)
  }

  ghost predicate AllInBudget(events: seq<Event>, limit: nat, longest: nat, still: bool) {
    forall i :: 0 <= i < |events| ==> InBudget(events[i], limit, longest, still)
  }

  lemma Rounded(left: nat)
    requires left > 0
    ensures CeilMilliseconds(left) > 0
    ensures CeilMilliseconds(left) * MILLISECOND < left + MILLISECOND
    ensures forall delay: nat :: delay < CeilMilliseconds(left) ==> delay * MILLISECOND < left
    ensures forall delay: nat :: delay >= CeilMilliseconds(left) ==> delay * MILLISECOND >= left
  {
  }

  lemma BackoffFits(delay: nat, timeout: nat, now: nat, limit: nat)
    requires now < limit && delay < timeout <= CeilMilliseconds(limit - now)
    ensures now + delay * MILLISECOND < limit
  {
    Rounded(limit - now);
  }

  lemma BackoffDoesNotFit(delay: nat, requestTimeout: nat, started: nat, now: nat, limit: nat)
    requires started <= now < limit <= started + requestTimeout * MILLISECOND
    requires delay >= Min(requestTimeout, CeilMilliseconds(limit - now))
    ensures now + delay * MILLISECOND >= limit
  {
    Rounded(limit - now);
  }

  // ----- granting tokens

  datatype Grant = Grant(bearer: string, seconds: nat)

  predicate HasLineBreak(text: string) {
    '\r' in text || '\n' in text
  }

  /** The bearer and the lifetime in seconds that an exchange grants, the
      safety margin already deducted. */
  function Granted(parse: string -> Option<Json>, response: Response): Result<Grant> {
    if Answered(response, 400) then Err(PermissionDenied)
    else
      var _ :- CheckResponse(response);
      match parse(response.body)
      case None => Err(Fatal)
      case Some(data) =>
        var bearer :- TextAt(data, "access_token");
        var lifetime :- At(data, "expires_in");
        if !lifetime.Int? || bearer == "" || HasLineBreak(bearer) || lifetime.n <= 0 || lifetime.n > 86400 then Err(Fatal)
        else Ok(Grant(bearer, lifetime.n - Min(60, lifetime.n / 10)))
  }

  /** A token is granted exactly for a 200 response that names a bearer fit for a
      header and a lifetime of at most a day. It is given up a tenth of its lifetime
      early, or a minute if that is less. */
  lemma GrantedSafe(parse: string -> Option<Json>, response: Response)
    ensures Granted(parse, response).Ok? <==>
      && !response.timedOut && !response.failed && response.status == 200 && parse(response.body).Some?
      && var data := parse(response.body).value;
      && data.Obj? && "access_token" in data.fields && data.fields["access_token"].Str?
      && "expires_in" in data.fields && data.fields["expires_in"].Int? && 0 < data.fields["expires_in"].n <= 86400
      && var bearer := data.fields["access_token"].s; bearer != "" && '\r' !in bearer && '\n' !in bearer
    ensures Granted(parse, response).Ok? ==>
      var grant := Granted(parse, response).value; var data := parse(response.body).value; var seconds := data.fields["expires_in"].n;
      && grant.bearer == data.fields["access_token"].s
      && grant.seconds == seconds - if seconds < 600 then seconds / 10 else 60
    ensures Granted(parse, response).Err? ==>
      Granted(parse, response).error ==
      if response.timedOut then Timeout
      else if response.failed then Fatal
      else if response.status == 400 || response.status == 401 || response.status == 403 then PermissionDenied
      else if response.status == 404 then NotFound
      else Fatal
  {
  }

  // ----- the loop's decisions

  predicate Unauthorised(response: Response) {
    Answered(response, 401)
  }

  lemma NotBoth(response: Response)
    ensures !(Unauthorised(response) && Transient(response))
  {
  }

  /** The backoff before the next attempt: 100 ms doubled each time, or longer
      when the server asks for it. */
  function Delay(response: Response, retries: nat): (delay: nat)
    requires retries < 2
    ensures delay >= if retries == 0 then 100 else 200
  {
    Max(if retries == 0 then 100 else 200, if response.retryAfter.Some? then response.retryAfter.value else 0)
  }

  /** A failure that another attempt may mend, as the codes say. */
  ghost predicate MayPass(response: Response) {
    && !response.timedOut
    && if response.failed then response.transient
       else response.status == 429 || response.status == 500 || response.status == 502 || response.status == 503 || response.status == 504
  }

  ghost predicate Denied(response: Response) {
    !response.timedOut && !response.failed && response.status == 401
  }

  /** How many milliseconds to wait: 100 at first and 200 then, and at least as long
      as the server asks for. */
  ghost function Wait(response: Response, sleeps: nat): nat {
    var own := if sleeps == 0 then 100 else 200;
    match response.retryAfter
    case Some(asked) => if own < asked then asked else own
    case None => own
  }

  lemma DecisionsByCode(response: Response)
    ensures Unauthorised(response) <==> Denied(response)
    ensures !response.timedOut && Transient(response) <==> MayPass(response)
    ensures Delay(response, 0) == Wait(response, 0) && Delay(response, 1) == Wait(response, 1)
  {
  }

  /** Why the loop stops with this response after this many sleeps. */
  ghost predicate Final(post: bool, response: Response, sleeps: nat, now: nat, limit: nat) {
    post || !MayPass(response) || sleeps == 2 || (sleeps < 2 && now + Wait(response, sleeps) * MILLISECOND >= limit)
  }

  lemma IsFinal(post: bool, response: Response, sleeps: nat, now: nat, limit: nat)
    ensures post || response.timedOut || !Transient(response) || sleeps == 2 ==> Final(post, response, sleeps, now, limit)
    ensures sleeps < 2 && now + Delay(response, sleeps) * MILLISECOND >= limit ==> Final(post, response, sleeps, now, limit)
  {
    DecisionsByCode(response);
    hide Transient, Delay;
  }

  ghost function Last(events: seq<Event>): Event
    requires events != []
  {
    events[|events| - 1]
  }

  /** Every call is this request. */
  ghost predicate Sent(events: seq<Event>, resource: string, post: bool, body: string) {
    forall i :: 0 <= i < |events| && events[i].Called? ==>
      events[i].resource == resource && events[i].post == post && events[i].body == body
  }

  /** The tokens the server refused in the calls that used them. */
  ghost function Refused(events: seq<Event>): set<Token> {
    set i | 0 <= i < |events| && events[i].Called? && Denied(events[i].response) :: events[i].token
  }

  /** A sleep follows a transient failure and lasts as long as its backoff asks
      for; a refused token is not used again. */
  ghost predicate Follows(events: seq<Event>, event: Event) {
    && (event.Called? ==> event.token !in Refused(events))
    && (event.Slept? ==>
      && events != [] && Last(events).Called? && MayPass(Last(events).response)
      && Sleeps(events) < 2
      && event.target == event.reading + Wait(Last(events).response, Sleeps(events)) * MILLISECOND)
  }

  ghost predicate Paced(events: seq<Event>) {
    forall i :: 0 <= i < |events| ==> Follows(events[..i], events[i])
  }

  ghost predicate Tracked(events: seq<Event>, limit: nat, longest: nat, still: bool, resource: string, post: bool, body: string) {
    AllInBudget(events, limit, longest, still) && Sent(events, resource, post, body) && Paced(events)
  }

  lemma ExtendBudget(events: seq<Event>, event: Event, limit: nat, longest: nat, still: bool)
    requires AllInBudget(events, limit, longest, still) && InBudget(event, limit, longest, still)
    ensures AllInBudget(events + [event], limit, longest, still)
  {
    hide InBudget;
  }

  lemma ExtendSent(events: seq<Event>, event: Event, resource: string, post: bool, body: string)
    requires Sent(events, resource, post, body)
    requires event.Called? ==> event.resource == resource && event.post == post && event.body == body
    ensures Sent(events + [event], resource, post, body)
  {
  }

  lemma ExtendPaced(events: seq<Event>, event: Event)
    requires Paced(events) && Follows(events, event)
    ensures Paced(events + [event])
  {
    hide Follows;
    var more := events + [event];
    forall i | 0 <= i < |more| ensures Follows(more[..i], more[i]) {
      if i < |events| {
        assert more[..i] == events[..i];
      } else {
        assert more[..i] == events;
      }
    }
  }

  lemma ExtendRefused(events: seq<Event>, event: Event)
    ensures Refused(events + [event]) == Refused(events) + (if event.Called? && Denied(event.response) then {event.token} else {})
  {
    hide Denied;
    var more := events + [event];
    assert forall i :: 0 <= i < |events| ==> more[i] == events[i];
    assert more[|events|] == event;
    forall t | t in Refused(events) ensures t in Refused(more) {
      var i :| 0 <= i < |events| && events[i].Called? && Denied(events[i].response) && events[i].token == t;
      assert more[i] == events[i];
    }
  }

  /** What one more event adds to everything said of a list of events. */
  lemma Extend(events: seq<Event>, event: Event, limit: nat, longest: nat, still: bool, resource: string, post: bool, body: string)
    requires AllInBudget(events, limit, longest, still) && InBudget(event, limit, longest, still)
    requires Sent(events, resource, post, body) && Paced(events) && Follows(events, event)
    requires event.Called? ==> event.resource == resource && event.post == post && event.body == body
    ensures var more := events + [event];
      && Last(more) == event
      && AllInBudget(more, limit, longest, still) && Sent(more, resource, post, body) && Paced(more)
      && Refused(more) == Refused(events) + (if event.Called? && Denied(event.response) then {event.token} else {})
      && Calls(more) == Calls(events) + (if event.Called? then 1 else 0)
      && Exchanges(more) == Exchanges(events) + (if event.Exchanged? then 1 else 0)
      && Sleeps(more) == Sleeps(events) + (if event.Slept? then 1 else 0)
      && Refusals(more) == Refusals(events) + (if event.Called? && Denied(event.response) then 1 else 0)
  {
    hide AllInBudget, InBudget, Sent, Paced, Follows, Refused, Denied;
    CountsAppend(events, event);
    ExtendBudget(events, event, limit, longest, still);
    ExtendSent(events, event, resource, post, body);
    ExtendPaced(events, event);
    ExtendRefused(events, event);
  }

  /** The same for the exchange that acquiring a token may add. */
  lemma ExtendExchange(events: seq<Event>, more: seq<Event>, limit: nat, longest: nat, still: bool, resource: string, post: bool, body: string)
    requires |more| <= 1 && (more != [] ==> more[0].Exchanged?) && AllInBudget(more, limit, longest, still)
    requires AllInBudget(events, limit, longest, still) && Sent(events, resource, post, body) && Paced(events)
    ensures var all := events + more;
      && AllInBudget(all, limit, longest, still) && Sent(all, resource, post, body) && Paced(all)
      && Refused(all) == Refused(events) && Calls(all) == Calls(events) && Sleeps(all) == Sleeps(events)
      && Refusals(all) == Refusals(events)
      && Exchanges(all) == Exchanges(events) + |more|
      && (more != [] ==> all != [] && Last(all) == more[0])
  {
    hide Calls, Exchanges, Sleeps, Refusals, InBudget, Sent, Paced, Refused, Last;
    if more == [] {
      assert events + more == events;
    } else {
      assert InBudget(more[0], limit, longest, still);
      assert more == [more[0]];
      assert Follows(events, more[0]);
      Extend(events, more[0], limit, longest, still, resource, post, body);
    }
  }

  lemma NothingSeen()
    ensures Seen([]) == []
  {
  }

  lemma NoEvents(limit: nat, longest: nat, still: bool, resource: string, post: bool, body: string)
    ensures Tracked([], limit, longest, still, resource, post, body)
    ensures Refused([]) == {} && Calls([]) == 0 && Sleeps([]) == 0 && Exchanges([]) == 0 && Refusals([]) == 0
  {
  }

  class Auth {
    const world: World
    const parse: string -> Option<Json>
    const requestTimeout: nat
    var cachedToken: Token?
    ghost var issued: set<Token>

    constructor (world: World, parse: string -> Option<Json>, requestTimeout: nat)
      requires requestTimeout > 0
      ensures Valid() && fresh(issued) && this.world == world && this.parse == parse && this.requestTimeout == requestTimeout
      ensures cachedToken == null
    {
      this.world := world;
      this.parse := parse;
      this.requestTimeout := requestTimeout;
      cachedToken := null;
      issued := {};
    }

    ghost predicate Valid()
      reads this
    {
      && requestTimeout > 0
      && (cachedToken != null ==> cachedToken in issued)
    }

    /** The cached token as the protocol knows it. */
    ghost function Cached(): Option<P.Token>
      reads this, cachedToken
    {
      if cachedToken == null then None else Some(P.Token(cachedToken.valid, cachedToken.expires))
    }

    /** A protocol run from this state shows these events, and stands here with the
        cache as it is. */
    ghost predicate Mirrors(run: R.Run, first: P.State, events: seq<Event>, stance: R.Stance)
      reads this, cachedToken, world
    {
      run.first == first && run.sights == Seen(events) && R.Stands(run, Cached(), world.now, stance)
    }

    /** The run is over: it was one such request, and the thread is idle again. */
    ghost predicate Ended(run: R.Run, first: P.State, events: seq<Event>, post: bool, deadline: nat)
      reads this, cachedToken, world
    {
      && |run.last.threads| == 1
      && var stance := R.StanceOf(run.last.threads[0]);
      stance.place == P.Idle && stance.post == post && stance.deadline == deadline && Mirrors(run, first, events, stance)
    }

    lemma Ends(run: R.Run, first: P.State, events: seq<Event>, stance: R.Stance)
      requires Mirrors(run, first, events, stance) && stance.place == P.Idle
      ensures Ended(run, first, events, stance.post, stance.deadline)
    {
    }

    /** A call that ends so is a run of the protocol: its steps show the events of
        the call in order and at their times, count as many of each kind, and leave
        the cache as the call leaves it. */
    lemma IsProtocolRun(run: R.Run, first: P.State, events: seq<Event>, post: bool, deadline: nat)
      requires Ended(run, first, events, post, deadline)
      ensures P.Inv(run.last) && run.last.holder == None && R.CachedIn(run.last) == Cached()
      ensures exists steps :: P.From(first, steps) == Some(run.last) && R.Sights(first, steps) == Seen(events)
      ensures var me := run.last.threads[0];
        && me.place == P.Idle && me.post == post && me.deadline == deadline
        && me.exchanges == Exchanges(events) && me.calls == Calls(events) && me.sleeps == Sleeps(events)
    {
      hide P.Inv, P.From, R.Sights;
      SeenCounts(events);
    }

    method Remaining(deadline: nat) returns (r: Result<nat>)
      requires Valid()
      modifies world`now, world`reading
      ensures world.now == world.reading >= old(world.now)
      ensures world.still ==> world.now == old(world.now)
      ensures r == if world.now >= deadline then Err(Timeout)
                   else Ok(Min(requestTimeout, CeilMilliseconds(deadline - world.now)))
      ensures r.Ok? ==> 0 < r.value <= requestTimeout && world.now + r.value * MILLISECOND < deadline + MILLISECOND
      ensures r.Ok? ==> r.value == requestTimeout || world.now + r.value * MILLISECOND >= deadline
    {
      var now := world.Clock();
      if now >= deadline {
        return Err(Timeout);
      }
      Rounded(deadline - now);
      return Ok(Min(requestTimeout, CeilMilliseconds(deadline - now)));
    }

    /** Exchanges the API key for a token that expires as granted, counted from
        before the exchange. */
    method Refresh(deadline: nat, ghost run: R.Run, ghost stance: R.Stance)
      returns (r: Result<Token>, ghost events: seq<Event>, ghost next: R.Run)
      requires Valid()
      requires R.Stands(run, Cached(), world.now, stance) && stance.place == P.Stale && stance.deadline == deadline
      modifies world
      ensures world.log == old(world.log) + events
      ensures world.now >= old(world.now)
      ensures AllInBudget(events, deadline, requestTimeout, world.still)
      ensures events == [] ==> r == Err(Timeout) && world.now >= deadline
      ensures events != [] ==>
        && |events| == 1 && events[0].Exchanged? && events[0].reading >= old(world.now)
        && match Granted(parse, events[0].response)
           case Err(error) => r == Err(error)
           case Ok(grant) =>
             && r.Ok? && fresh(r.value) && r.value.valid && r.value.bearer == grant.bearer
             && old(world.now) + grant.seconds * SECOND <= r.value.expires <= events[0].reading + grant.seconds * SECOND
      ensures next.first == run.first && next.sights == run.sights + Seen(events)
      ensures R.Stands(next, if r.Ok? then Some(P.Token(r.value.valid, r.value.expires)) else Cached(), world.now,
                       R.To(stance, if r.Ok? then P.Ready else P.Idle))
    {
      hide R.Stands, Granted;
      ghost var cached := Cached();
      events := [];
      var started := world.Clock();
      R.Later(run, cached, old(world.now), started, stance);
      next := R.StartsExchange(run, cached, started, stance);
      ghost var dated := R.To(stance, P.Dated(started));
      var timeout := Remaining(deadline);
      R.Later(next, cached, started, world.now, dated);
      if timeout.Err? {
        next := R.GivesUp(next, cached, world.now, dated);
        return Err(timeout.error), [], next;
      }
      next := R.SendsExchange(next, cached, world.now, dated);
      ghost var exchanging := R.To(dated, P.Exchanging(started));
      var response := world.Exchange(timeout.value);
      R.Later(next, cached, world.reading, world.now, exchanging);
      events := [Exchanged(world.reading, timeout.value, response)];
      SeenOne(events[0]);
      var grant := Granted(parse, response);
      if grant.Err? {
        next := R.GetsNothing(next, cached, world.now, exchanging);
        return Err(grant.error), events, next;
      }
      var token := new Token(grant.value.bearer, started + grant.value.seconds * SECOND);
      next := R.GetsToken(next, cached, world.now, exchanging, grant.value.seconds * SECOND);
      return Ok(token), events, next;
    }

    /** Replaces the cached token only when it is absent, invalidated or expired,
        and only by a token just granted; a failure leaves it in place. */
    method AcquireToken(deadline: nat, ghost run: R.Run, ghost stance: R.Stance)
      returns (r: Result<Token>, ghost events: seq<Event>, ghost next: R.Run)
      requires Valid()
      requires R.Stands(run, Cached(), world.now, stance) && stance.place == P.Waiting && stance.deadline == deadline
      modifies this`cachedToken, this`issued, world
      ensures Valid() && old(issued) <= issued && fresh(issued - old(issued))
      ensures world.log == old(world.log) + events
      ensures world.now >= old(world.now)
      ensures AllInBudget(events, deadline, requestTimeout, world.still)
      ensures |events| <= 1 && (events != [] ==> events[0].Exchanged?)
      ensures r.Ok? ==> r.value == cachedToken && cachedToken.valid
      ensures r.Ok? && events == [] ==> cachedToken == old(cachedToken) && world.reading < cachedToken.expires
      ensures r.Ok? && events != [] ==> fresh(cachedToken) && cachedToken.valid && Granted(parse, events[0].response).Ok?
      ensures r.Err? ==> cachedToken == old(cachedToken)
      ensures r.Err? ==> if events == [] then r.error == Timeout && world.now >= deadline else Granted(parse, events[0].response) == Err(r.error)
      ensures events != [] ==> var cached := old(cachedToken);
        cached == null || !old(cachedToken.valid) || events[0].reading >= cached.expires
      ensures next.first == run.first && next.sights == run.sights + Seen(events)
      ensures R.Stands(next, Cached(), world.now, R.To(stance, if r.Ok? then P.Ready else P.Idle))
    {
      hide R.Stands, Granted;
      ghost var cached := Cached();
      events := [];
      var locked := world.TryLockUntil(deadline);
      R.Later(run, cached, old(world.now), world.now, stance);
      if !locked {
        next := R.GivesUp(run, cached, world.now, stance);
        return Err(Timeout), [], next;
      }
      next := R.LooksAtFlag(run, cached, world.now, stance);
      var stale := cachedToken == null || !cachedToken.valid;
      if !stale {
        ghost var before := world.now;
        var now := world.Clock();
        R.Later(next, cached, before, now, R.To(stance, P.Fresh));
        next := R.LooksAtClock(next, cached, now, R.To(stance, P.Fresh));
        stale := now >= cachedToken.expires;
      }
      if stale {
        var token;
        token, events, next := Refresh(deadline, next, R.To(stance, P.Stale));
        if token.Err? {
          return Err(token.error), events, next;
        }
        cachedToken := token.value;
        issued := issued + {token.value};
      }
      return Ok(cachedToken), events, next;
    }

    /** Acquiring a token as one step of a call. */
    method Authenticate(due: nat, ghost resource: string, ghost post: bool, ghost body: string, ghost earlier: seq<Event>, ghost before: seq<Event>,
                        ghost origin: P.State, ghost run: R.Run, ghost stance: R.Stance)
      returns (r: Result<Token>, ghost events: seq<Event>, ghost next: R.Run)
      requires Valid() && world.log == earlier + before
      requires Tracked(before, due, requestTimeout, world.still, resource, post, body)
      requires Mirrors(run, origin, before, stance) && stance.place == P.Waiting && stance.deadline == due
      modifies this`cachedToken, this`issued, world
      ensures Valid() && old(issued) <= issued && fresh(issued - old(issued))
      ensures world.log == earlier + events && world.now >= old(world.now)
      ensures Mirrors(next, origin, events, R.To(stance, if r.Ok? then P.Ready else P.Idle))
      ensures r.Ok? ==> r.value == cachedToken
      ensures Tracked(events, due, requestTimeout, world.still, resource, post, body)
      ensures Calls(events) == Calls(before) && Sleeps(events) == Sleeps(before) && Refused(events) == Refused(before)
      ensures Exchanges(events) <= Exchanges(before) + 1 && Refusals(events) == Refusals(before)
      ensures r.Ok? ==> r.value in issued && r.value.valid
      ensures r.Err? ==> Explained(events, r.error, world.now, due)
    {
      hide Calls, Exchanges, Sleeps, Refusals, AllInBudget, Sent, Paced, Refused, Last, Granted, Seen, R.Stands;
      ghost var more;
      r, more, next := AcquireToken(due, run, stance);
      SeenAppend(before, more);
      ExtendExchange(before, more, due, requestTimeout, world.still, resource, post, body);
      assert (earlier + before) + more == earlier + (before + more);
      events := before + more;
    }

    /** Why a call fails: no time is left, or an exchange granted nothing. */
    ghost predicate Explained(events: seq<Event>, error: Error, now: nat, due: nat) {
      || (error == Timeout && now >= due)
      || (events != [] && Last(events).Exchanged? && Granted(parse, Last(events).response) == Err(error))
    }

    /** One attempt, with whatever time remains. */
    method Transmit(token: Token, resource: string, post: bool, body: string, due: nat, ghost earlier: seq<Event>, ghost before: seq<Event>,
                    ghost origin: P.State, ghost run: R.Run, ghost stance: R.Stance)
      returns (r: Result<Response>, ghost events: seq<Event>, ghost next: R.Run)
      requires Valid() && token in issued && token !in Refused(before) && world.log == earlier + before
      requires Tracked(before, due, requestTimeout, world.still, resource, post, body)
      requires Mirrors(run, origin, before, stance) && stance.place == P.Ready && stance.deadline == due
      modifies world
      ensures world.now >= old(world.now)
      ensures Mirrors(next, origin, events, R.To(stance, if r.Ok? then P.Calling else P.Idle))
      ensures world.log == earlier + events
      ensures Tracked(events, due, requestTimeout, world.still, resource, post, body)
      ensures Exchanges(events) == Exchanges(before) && Sleeps(events) == Sleeps(before)
      ensures r.Err? ==> events == before && Explained(events, r.error, world.now, due)
      ensures r.Ok? ==> events != [] && Last(events).Called? && Last(events).response == r.value && Calls(events) == Calls(before) + 1
      ensures Refused(events) == Refused(before) + if r.Ok? && Denied(r.value) then {token} else {}
      ensures Refusals(events) == Refusals(before) + if r.Ok? && Denied(r.value) then 1 else 0
    {
      hide Calls, Exchanges, Sleeps, Refusals, AllInBudget, Sent, Paced, Refused, Last, Unauthorised, Denied, MayPass, Seen, R.Stands;
      ghost var cached := Cached();
      events := before;
      var timeout := Remaining(due);
      R.Later(run, cached, old(world.now), world.now, stance);
      if timeout.Err? {
        next := R.GivesUp(run, cached, world.now, stance);
        return Err(timeout.error), events, next;
      }
      next := R.SendsRequest(run, cached, world.now, stance);
      var response := world.Call(token, resource, post, body, timeout.value);
      R.Later(next, cached, world.reading, world.now, R.To(stance, P.Calling));
      DecisionsByCode(response);
      ghost var call := Called(token, resource, post, body, world.reading, timeout.value, response);
      Extend(before, call, due, requestTimeout, world.still, resource, post, body);
      events := before + [call];
      SeenAppend(before, [call]);
      SeenOne(call);
      return Ok(response), events, next;
    }

    /** Sleeps before the next attempt if the delay fits in what remains. */
    method Backoff(response: Response, retries: nat, due: nat, ghost started: nat,
                   ghost resource: string, ghost post: bool, ghost body: string, ghost earlier: seq<Event>, ghost before: seq<Event>,
                   ghost origin: P.State, ghost run: R.Run, ghost stance: R.Stance)
      returns (r: Result<bool>, ghost events: seq<Event>, ghost next: R.Run)
      requires Valid() && world.log == earlier + before && started <= world.now && due <= started + requestTimeout * MILLISECOND
      requires Tracked(before, due, requestTimeout, world.still, resource, post, body)
      requires before != [] && Last(before).Called? && Last(before).response == response
      requires Transient(response) && !response.timedOut && Sleeps(before) == retries < 2
      requires Mirrors(run, origin, before, stance) && stance.deadline == due && stance.retries == retries
      requires stance.place == P.Deciding(Delay(response, retries) * MILLISECOND)
      modifies world
      ensures world.now >= old(world.now)
      ensures Mirrors(next, origin, events,
                      if r == Ok(true) then R.To(stance, P.Ready).(retries := retries + 1) else R.To(stance, P.Idle))
      ensures world.log == earlier + events
      ensures Tracked(events, due, requestTimeout, world.still, resource, post, body)
      ensures Calls(events) == Calls(before) && Exchanges(events) == Exchanges(before) && Refused(events) == Refused(before)
      ensures Refusals(events) == Refusals(before)
      ensures r == Ok(true) ==> Sleeps(events) == Sleeps(before) + 1
      ensures r != Ok(true) ==> events == before
      ensures r == Ok(false) ==> world.now + Delay(response, retries) * MILLISECOND >= due
      ensures r.Err? ==> Explained(events, r.error, world.now, due)
    {
      hide Calls, Exchanges, Sleeps, Refusals, AllInBudget, Sent, Paced, Refused, Last, Unauthorised, Denied, MayPass, Transient, Delay, Wait,
          Seen, R.Stands, Mirrors;
      events := before;
      var delay := Delay(response, retries);
      r, next := CheckBackoff(delay, due, started, before, origin, run, stance);
      if r != Ok(true) {
        return r, events, next;
      }
      var target;
      target, next := Rest(delay, before, origin, next, R.To(stance, P.Resting(delay * MILLISECOND)));
      DecisionsByCode(response);
      ghost var sleep := Slept(world.reading, target);
      Extend(before, sleep, due, requestTimeout, world.still, resource, post, body);
      events := before + [sleep];
    }

    /** Does the delay fit in what remains? */
    method CheckBackoff(delay: nat, due: nat, ghost started: nat,
                        ghost events: seq<Event>, ghost origin: P.State, ghost run: R.Run, ghost stance: R.Stance)
      returns (r: Result<bool>, ghost next: R.Run)
      requires Valid() && started <= world.now && due <= started + requestTimeout * MILLISECOND
      requires Mirrors(run, origin, events, stance) && stance.deadline == due && stance.place == P.Deciding(delay * MILLISECOND)
      modifies world`now, world`reading
      ensures world.now >= old(world.now) && (world.still ==> world.now == old(world.now))
      ensures r.Err? ==> r == Err(Timeout) && world.now >= due
      ensures r.Ok? ==> (r.value <==> world.now + delay * MILLISECOND < due)
      ensures Mirrors(next, origin, events, R.To(stance, if r == Ok(true) then P.Resting(delay * MILLISECOND) else P.Idle))
    {
      hide Seen, R.Stands;
      var timeout := Remaining(due);
      R.Later(run, Cached(), old(world.now), world.now, stance);
      if timeout.Err? {
        next := R.GivesUp(run, Cached(), world.now, stance);
        return Err(timeout.error), next;
      }
      next := R.ChecksBackoff(run, Cached(), world.now, stance);
      if delay >= timeout.value {
        BackoffDoesNotFit(delay, requestTimeout, started, world.now, due);
        return Ok(false), next;
      }
      BackoffFits(delay, timeout.value, world.now, due);
      return Ok(true), next;
    }

    /** Sleeps as long as the delay, counted from another reading of the clock. */
    method Rest(delay: nat, ghost events: seq<Event>, ghost origin: P.State, ghost run: R.Run, ghost stance: R.Stance)
      returns (target: nat, ghost next: R.Run)
      requires Mirrors(run, origin, events, stance) && stance.place == P.Resting(delay * MILLISECOND)
      modifies world
      ensures world.now >= old(world.now) && world.reading >= old(world.now) && target == world.reading + delay * MILLISECOND
      ensures world.still ==> world.reading == old(world.now)
      ensures world.log == old(world.log) + [Slept(world.reading, target)]
      ensures Mirrors(next, origin, events + [Slept(world.reading, target)], R.To(stance, P.Ready).(retries := stance.retries + 1))
    {
      hide Seen, R.Stands;
      var now := world.Clock();
      R.Later(run, Cached(), old(world.now), now, stance);
      target := now + delay * MILLISECOND;
      next := R.FallsAsleep(run, Cached(), now, stance);
      world.SleepUntil(target);
      R.Later(next, Cached(), now, world.now, R.To(stance, P.Sleeping(target)));
      next := R.WakesUp(next, Cached(), world.now, R.To(stance, P.Sleeping(target)));
      SeenAppend(events, [Slept(world.reading, target)]);
      SeenOne(Slept(world.reading, target));
    }

    /** A response arrives; a refusal costs the token that was used its validity,
        and nothing else. */
    method Receive(response: Response, token: Token, ghost origin: P.State, ghost run: R.Run, ghost events: seq<Event>, ghost stance: R.Stance)
      returns (ghost next: R.Run)
      requires Mirrors(run, origin, events, stance) && stance.place == P.Calling && stance.retries <= 2 && token == cachedToken
      modifies token
      ensures token.valid == (old(token.valid) && !Denied(response))
      ensures Mirrors(next, origin, events, After(response, stance.post, stance.deadline, stance.refreshed, stance.retries))
    {
      NotBoth(response);
      DecisionsByCode(response);
      hide R.Stands, Delay, Unauthorised, Denied, Transient, Seen;
      if Unauthorised(response) {
        next := R.IsRefused(run, Cached(), world.now, stance);
        token.valid := false;
      } else {
        next := R.IsAnswered(run, Cached(), world.now, stance, Answer(response, stance.retries));
      }
    }

    /** One attempt and what its response does to the token. */
    method Attempt(token: Token, resource: string, post: bool, body: string, due: nat, refreshed: bool, retries: nat,
                   ghost earlier: seq<Event>, ghost before: seq<Event>, ghost origin: P.State, ghost run: R.Run)
      returns (r: Result<Response>, ghost events: seq<Event>, ghost next: R.Run)
      requires Valid() && token == cachedToken && token !in Refused(before) && world.log == earlier + before && retries <= 2
      requires Tracked(before, due, requestTimeout, world.still, resource, post, body)
      requires Mirrors(run, origin, before, R.Stance(P.Ready, post, due, refreshed, retries))
      modifies world, token
      ensures world.now >= old(world.now)
      ensures world.log == earlier + events
      ensures Mirrors(next, origin, events,
                      if r.Ok? then After(r.value, post, due, refreshed, retries) else R.Stance(P.Idle, post, due, refreshed, retries))
      ensures token.valid == (old(token.valid) && !(r.Ok? && Denied(r.value)))
      ensures Tracked(events, due, requestTimeout, world.still, resource, post, body)
      ensures Exchanges(events) == Exchanges(before) && Sleeps(events) == Sleeps(before)
      ensures r.Err? ==> events == before && Explained(events, r.error, world.now, due)
      ensures r.Ok? ==> events != [] && Last(events).Called? && Last(events).response == r.value && Calls(events) == Calls(before) + 1
      ensures Refused(events) == Refused(before) + if r.Ok? && Denied(r.value) then {token} else {}
      ensures Refusals(events) == Refusals(before) + if r.Ok? && Denied(r.value) then 1 else 0
    {
      hide Calls, Exchanges, Sleeps, Refusals, Refused, Last, Unauthorised, Denied, MayPass, Transient, Delay, Wait, Tracked, Explained, Seen,
          R.Stands, Mirrors;
      ghost var stance := R.Stance(P.Ready, post, due, refreshed, retries);
      r, events, next := Transmit(token, resource, post, body, due, earlier, before, origin, run, stance);
      if r.Ok? {
        next := Receive(r.value, token, origin, next, events, R.To(stance, P.Calling));
      }
    }

    /** The retry loop of a call that has its first token. */
    method Attempts(first: Token, resource: string, post: bool, body: string, due: nat, ghost started: nat,
                    ghost earlier: seq<Event>, ghost before: seq<Event>, ghost origin: P.State, ghost run: R.Run)
      returns (r: Result<Response>, ghost events: seq<Event>, ghost next: R.Run, ghost stance: R.Stance)
      requires Valid() && first == cachedToken && first in issued && world.log == earlier + before
      requires started <= world.now && due <= started + requestTimeout * MILLISECOND
      requires Tracked(before, due, requestTimeout, world.still, resource, post, body)
      requires Calls(before) == Sleeps(before) == Refusals(before) == 0 && Exchanges(before) <= 1 && Refused(before) == {}
      requires Mirrors(run, origin, before, R.Stance(P.Ready, post, due, false, 0))
      modifies this`cachedToken, this`issued, world, issued
      ensures Valid() && old(issued) <= issued && fresh(issued - old(issued))
      ensures world.log == earlier + events && world.now >= old(world.now)
      ensures Tracked(events, due, requestTimeout, world.still, resource, post, body)
      ensures Mirrors(next, origin, events, stance) && stance.place == P.Idle && stance.post == post && stance.deadline == due
      ensures Calls(events) <= if post then 1 else 4
      ensures Exchanges(events) <= if post then 1 else 2
      ensures Sleeps(events) <= if post then 0 else 2
      ensures r.Ok? ==> events != [] && Last(events).Called? && Last(events).response == r.value
      ensures r.Ok? ==> Final(post, r.value, Sleeps(events), world.now, due)
      ensures r.Ok? && !post && Denied(r.value) ==> Refusals(events) == 2
      ensures r.Err? ==> Explained(events, r.error, world.now, due)
      ensures Refused(events) <= issued && forall token :: token in Refused(events) ==> !token.valid
      ensures forall token :: token in old(issued) - Refused(events) ==> token.valid == old(token.valid)
    {
      hide Calls, Exchanges, Sleeps, Refusals, AllInBudget, Sent, Paced, Refused, Last, Granted, Unauthorised, Denied, MayPass, Transient, Delay,
          Wait, Tracked, Explained,
           Seen, R.Stands, Mirrors, Final;
      events := before;
      next := run;
      var token := first;
      var refreshed, retries := false, 0;
      while true
        invariant Valid() && token == cachedToken && token !in Refused(events) && old(issued) <= issued && fresh(issued - old(issued))
        invariant world.log == earlier + events && world.now >= old(world.now)
        invariant Mirrors(next, origin, events, R.Stance(P.Ready, post, due, refreshed, retries))
        invariant Tracked(events, due, requestTimeout, world.still, resource, post, body)
        invariant retries <= 2 && Sleeps(events) == retries && Calls(events) == retries + if refreshed then 1 else 0
        invariant Exchanges(events) <= 1 + if refreshed then 1 else 0
        invariant Refusals(events) == if refreshed then 1 else 0
        invariant post ==> Calls(events) == 0
        invariant Refused(events) <= issued && forall t :: t in Refused(events) ==> !t.valid
        invariant forall t :: t in old(issued) - Refused(events) ==> t.valid == old(t.valid)
        decreases 3 - retries - if refreshed then 1 else 0
      {
        var answer;
        answer, events, next := Attempt(token, resource, post, body, due, refreshed, retries, earlier, events, origin, next);
        stance := R.Stance(P.Idle, post, due, refreshed, retries);
        if answer.Err? {
          return answer, events, next, stance;
        }
        var response := answer.value;
        DecisionsByCode(response);
        if Unauthorised(response) && !post && !refreshed {
          refreshed := true;
          var acquired;
          stance := R.Stance(P.Waiting, post, due, true, retries);
          acquired, events, next := Authenticate(due, resource, post, body, earlier, events, origin, next, stance);
          if acquired.Err? {
            return Err(acquired.error), events, next, R.To(stance, P.Idle);
          }
          token := acquired.value;
          continue;
        }
        if post || response.timedOut || !Transient(response) || retries == 2 {
          IsFinal(post, response, retries, world.now, due);
          return answer, events, next, stance;
        }
        NotBoth(response);
        var rested;
        rested, events, next := Backoff(response, retries, due, started, resource, post, body, earlier, events, origin, next,
                                        R.To(stance, P.Deciding(Delay(response, retries) * MILLISECOND)));
        if rested.Err? {
          return Err(rested.error), events, next, stance;
        }
        if !rested.value {
          IsFinal(post, response, retries, world.now, due);
          return answer, events, next, stance;
        }
        retries := retries + 1;
      }
    }

    /** One call: authenticate, send, and for a GET refresh once and retry twice.
        A POST is sent at most once, whatever happens. The call starts when it first
        reads the clock; its limit is the caller's deadline, or one request timeout
        after that if this is earlier. It is a run of the token protocol. */
    method Request(resource: string, post: bool, body: string, deadline: nat)
      returns (r: Result<Response>, ghost events: seq<Event>, ghost started: nat, ghost limit: nat, ghost run: R.Run)
      requires Valid()
      modifies this`cachedToken, this`issued, world, issued
      ensures Valid() && old(issued) <= issued && fresh(issued - old(issued))
      ensures world.log == old(world.log) + events
      ensures old(world.now) <= started <= world.now && (world.still ==> started == old(world.now))
      ensures limit == Min(deadline, started + requestTimeout * MILLISECOND)
      ensures Calls(events) <= if post then 1 else 4
      ensures Exchanges(events) <= if post then 1 else 2
      ensures Sleeps(events) <= if post then 0 else 2
      ensures Tracked(events, limit, requestTimeout, world.still, resource, post, body)
      ensures Ended(run, R.Alone(started, old(Cached())), events, post, limit)
      ensures r.Ok? ==> events != [] && Last(events).Called? && Last(events).response == r.value
      ensures r.Ok? ==> Final(post, r.value, Sleeps(events), world.now, limit)
      ensures r.Ok? && !post && Denied(r.value) ==> Refusals(events) == 2
      ensures r.Err? ==> Explained(events, r.error, world.now, limit)
      ensures Refused(events) <= issued && forall token :: token in Refused(events) ==> !token.valid
      ensures forall token :: token in old(issued) - Refused(events) ==> token.valid == old(token.valid)
    {
      hide Calls, Exchanges, Sleeps, Refusals, Refused, Last, Tracked, Explained, Final, Denied, Seen, R.Stands;
      ghost var earlier := world.log;
      var start := world.Clock();
      var due := Min(deadline, start + requestTimeout * MILLISECOND);
      started, limit := start, due;
      NoEvents(due, requestTimeout, world.still, resource, post, body);
      NothingSeen();
      run := R.Begins(started, Cached(), post, due);
      ghost var stance := R.Stance(P.Waiting, post, due, false, 0);
      ghost var first := run.first;
      assert world.log == earlier + [];
      var acquired;
      acquired, events, run := Authenticate(due, resource, post, body, earlier, [], first, run, stance);
      if acquired.Err? {
        Ends(run, first, events, R.To(stance, P.Idle));
        return Err(acquired.error), events, started, limit, run;
      }
      r, events, run, stance := Attempts(acquired.value, resource, post, body, due, started, earlier, events, first, run);
      Ends(run, first, events, stance);
    }
  }
}
