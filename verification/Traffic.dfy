/** How many times a request really reaches the backend: each request an
    operation makes is sent at most once when it is a POST and at most four times
    when it is a GET. */
module Traffic {
  import opened Common
  import opened Http
  import opened JsonModel
  import opened Auth
  import opened JobSpec

  /** The sends to one resource. */
  ghost function Sends(events: seq<Event>, resource: string, post: bool): nat {
    if events == [] then 0
    else Sends(events[..|events| - 1], resource, post) + if IsSend(events[|events| - 1], resource, post) then 1 else 0
  }

  ghost predicate IsSend(event: Event, resource: string, post: bool) {
    event.Called? && event.resource == resource && event.post == post
  }

  /** The sends that these requests allow. */
  function Allowed(asks: seq<Ask>, resource: string, post: bool): nat {
    if asks == [] then 0
    else Allowed(asks[..|asks| - 1], resource, post)
         + if asks[|asks| - 1].resource != resource || asks[|asks| - 1].post != post then 0 else if post then 1 else 4
  }

  ghost predicate Carries(events: seq<Event>, asks: seq<Ask>) {
    && (asks == [] ==> events == [])
    && forall resource, post :: Sends(events, resource, post) <= Allowed(asks, resource, post)
  }

  lemma {:induction false} SendsAppend(events: seq<Event>, more: seq<Event>, resource: string, post: bool)
    ensures Sends(events + more, resource, post) == Sends(events, resource, post) + Sends(more, resource, post)
  {
    hide IsSend;
    if more == [] {
      assert events + more == events;
    } else {
      var n := |more| - 1;
      SendsAppend(events, more[..n], resource, post);
      assert (events + more)[..|events| + n] == events + more[..n];
    }
  }

  lemma {:induction false} AllowedAppend(asks: seq<Ask>, more: seq<Ask>, resource: string, post: bool)
    ensures Allowed(asks + more, resource, post) == Allowed(asks, resource, post) + Allowed(more, resource, post)
  {
    if more == [] {
      assert asks + more == asks;
    } else {
      var n := |more| - 1;
      AllowedAppend(asks, more[..n], resource, post);
      assert (asks + more)[..|asks| + n] == asks + more[..n];
    }
  }

  lemma CarriesAppend(events: seq<Event>, asks: seq<Ask>, more: seq<Event>, further: seq<Ask>)
    requires Carries(events, asks) && Carries(more, further)
    ensures Carries(events + more, asks + further)
  {
    hide Sends, Allowed;
    forall resource, post
      ensures Sends(events + more, resource, post) <= Allowed(asks + further, resource, post)
    {
      SendsAppend(events, more, resource, post);
      AllowedAppend(asks, further, resource, post);
    }
  }

  lemma NoTraffic()
    ensures Carries([], [])
  {
  }

  lemma {:induction false} SendsAreCalls(events: seq<Event>, ask: Ask, resource: string, post: bool)
    requires Sent(events, ask.resource, ask.post, ask.body)
    ensures Sends(events, resource, post) == if ask.resource == resource && ask.post == post then Calls(events) else 0
  {
    if events != [] {
      SendsAreCalls(events[..|events| - 1], ask, resource, post);
    }
  }

  /** The retry loop sends a request as often as it is allowed. */
  lemma RequestCarries(events: seq<Event>, ask: Ask)
    requires Sent(events, ask.resource, ask.post, ask.body)
    requires Calls(events) <= if ask.post then 1 else 4
    ensures Carries(events, [ask])
  {
    hide Sends, Calls, Sent;
    forall resource, post
      ensures Sends(events, resource, post) <= Allowed([ask], resource, post)
    {
      SendsAreCalls(events, ask, resource, post);
      assert [ask][..0] == [];
    }
  }

  // ----- replies

  /** A request that started then, with this deadline and timeout, has no time left. */
  ghost predicate Late(now: nat, started: nat, deadline: nat, timeout: nat) {
    now >= Min(deadline, started + timeout * MILLISECOND)
  }

  /** The reply to a request is the last response it got, or says that no time was
      left or that the last exchange granted no token. */
  ghost predicate Gets(parse: string -> Option<Json>, events: seq<Event>, ask: Ask, reply: Result<Response>, late: bool) {
    match reply
    case Ok(response) =>
      && events != []
      && var last := events[|events| - 1];
      last.Called? && last.resource == ask.resource && last.post == ask.post && last.body == ask.body && last.response == response
    case Err(error) =>
      || (error == Timeout && late)
      || (events != [] && events[|events| - 1].Exchanged? && Granted(parse, events[|events| - 1].response) == Err(error))
  }

  /** The answers to these requests are the replies that these events brought, one
      request after the other. */
  ghost predicate Replied(parse: string -> Option<Json>, events: seq<Event>, asks: seq<Ask>, answer: Answers, late: bool)
    decreases |asks|
  {
    if asks == [] then events == []
    else
      var n := |asks| - 1;
      exists k :: 0 <= k <= |events|
        && Replied(parse, events[..k], asks[..n], answer, late) && Gets(parse, events[k..], asks[n], answer(asks[n]), late)
  }

  lemma NoReplies(parse: string -> Option<Json>, answer: Answers, late: bool)
    ensures Replied(parse, [], [], answer, late)
  {
  }

  lemma RepliedNext(parse: string -> Option<Json>, events: seq<Event>, asks: seq<Ask>, answer: Answers, more: seq<Event>, ask: Ask, late: bool)
    requires Replied(parse, events, asks, answer, late) && Gets(parse, more, ask, answer(ask), late)
    ensures Replied(parse, events + more, asks + [ask], answer, late)
  {
    hide Gets;
    var all, k := events + more, |events|;
    assert (asks + [ask])[..|asks|] == asks && all[..k] == events && all[k..] == more;
  }

  lemma OneReply(parse: string -> Option<Json>, events: seq<Event>, ask: Ask, answer: Answers, late: bool)
    requires Gets(parse, events, ask, answer(ask), late)
    ensures Replied(parse, events, [ask], answer, late)
  {
    hide Gets;
    NoReplies(parse, answer, late);
    RepliedNext(parse, [], [], answer, events, ask, late);
    assert [] + events == events && [] + [ask] == [ask];
  }

  /** Replies stay what they are when it gets later, for any answers that agree. */
  lemma {:induction false} RepliedLater(parse: string -> Option<Json>, events: seq<Event>, asks: seq<Ask>, a: Answers, b: Answers, early: bool,
      late: bool)
    requires Replied(parse, events, asks, a, early) && (early ==> late) && forall i :: 0 <= i < |asks| ==> a(asks[i]) == b(asks[i])
    ensures Replied(parse, events, asks, b, late)
    decreases |asks|
  {
    if asks != [] {
      var n := |asks| - 1;
      var k :| 0 <= k <= |events|
        && Replied(parse, events[..k], asks[..n], a, early) && Gets(parse, events[k..], asks[n], a(asks[n]), early);
      RepliedLater(parse, events[..k], asks[..n], a, b, early, late);
    }
  }

  lemma GetsLater(parse: string -> Option<Json>, events: seq<Event>, ask: Ask, reply: Result<Response>, early: bool, late: bool)
    requires Gets(parse, events, ask, reply, early) && (early ==> late)
    ensures Gets(parse, events, ask, reply, late)
  {
  }

  lemma {:induction false} RepliedFirst(parse: string -> Option<Json>, events: seq<Event>, ask: Ask, answer: Answers,
                                        more: seq<Event>, asks: seq<Ask>, late: bool)
    requires Gets(parse, events, ask, answer(ask), late) && Replied(parse, more, asks, answer, late)
    ensures Replied(parse, events + more, [ask] + asks, answer, late)
    decreases |asks|
  {
    hide Gets;
    if asks == [] {
      OneReply(parse, events, ask, answer, late);
      assert events + more == events && [ask] + asks == [ask];
    } else {
      var n := |asks| - 1;
      var k :| 0 <= k <= |more| && Replied(parse, more[..k], asks[..n], answer, late) && Gets(parse, more[k..], asks[n], answer(asks[n]), late);
      RepliedFirst(parse, events, ask, answer, more[..k], asks[..n], late);
      RepliedNext(parse, events + more[..k], [ask] + asks[..n], answer, more[k..], asks[n], late);
      assert (events + more[..k]) + more[k..] == events + more && ([ask] + asks[..n]) + [asks[n]] == [ask] + asks;
    }
  }
}
