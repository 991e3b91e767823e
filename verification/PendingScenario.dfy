/**
 * A run in which everything is provided and Connect is still ignored: a dynamic challenge arrives while an
 * authentication is pending (src/client/core-client.hpp, src/client/openvpn3-service-client.cpp).
 */
module PendingScenario {
  import opened Outcomes
  import opened TextFilter
  import opened RequestQueue
  import opened CoreEvents
  import opened ClientSession
  import opened ConnectGate

  /** A profile that needs no login. */
  const AUTOLOGIN: Eval := Evaluated(true, "", false, false)

  /** A request for a reply, as it is recognised while an authentication is pending. */
  predicate AsksForReply(request: string) {
    KindOfInfo(request, true) == CrTextRequest && ParsedCrText(request).valid && ParsedCrText(request).response
  }

  /** Such requests exist, for every text without a colon. */
  lemma RequestExists(text: string)
    requires text != [] && ':' !in text
    ensures AsksForReply("CR_TEXT" + [':'] + ("R" + [':'] + text))
  {
    var request := "CR_TEXT" + [':'] + ("R" + [':'] + text);
    assert request[0] == 'C' && request[..8] == "CR_TEXT:";
    assert "OPEN_URL:"[0] == 'O' && "WEB_AUTH:"[0] == 'W';
    CrTextRoundTrip("R", text);
    assert text[0] in text;
  }

  function Text(value: Option<string>): string {
    if value.Some? then FilterCtrlChars(value.value, true) else ""
  }

  function PendingSlot(cr: CrText, reply: Option<string>): Slot {
    Slot(0, CREDENTIALS, CHALLENGE_AUTH_PENDING, "auth_pending", Text(reply), cr.challenge, cr.echo, reply.Some?)
  }

  function QuestionSlot(ch: Challenge, response: Option<string>): Slot {
    Slot(0, CREDENTIALS, CHALLENGE_DYNAMIC, "dynamic_challenge", Text(response), ch.text, !ch.echo, response.Some?)
  }

  function CookieSlot(cookie: Option<string>): Slot {
    Slot(1, CREDENTIALS, CHALLENGE_DYNAMIC, "dynamic_challenge_cookie", Text(cookie), "", true, cookie.Some?)
  }

  /** The queue once the pending authentication has been asked for. */
  function AskedOnce(cr: CrText): Queue {
    Queue([PendingSlot(cr, None)], map[106 := 1])
  }

  /** The queue once the challenge has arrived too. */
  function Challenged(cr: CrText, cookie: string, ch: Challenge, reply: Option<string>,
                      response: Option<string>): Queue {
    Queue([PendingSlot(cr, reply), QuestionSlot(ch, response), CookieSlot(Some(cookie))], map[106 := 1, 105 := 2])
  }

  function Waiting(dcCookie: string, status: Status, timeout: U32): Client {
    Client(dcCookie, false, status, true, timeout)
  }

  lemma StartsAtOnce(setup: Setup, observe: nat -> Status, accepted: bool)
    requires observe(0) == ConnInit
    ensures var s1 := Next(setup, NEW_SESSION, Register(true, true, AUTOLOGIN));
      Next(setup, s1, Connect(observe, AUTOLOGIN, accepted)) ==
        NEW_SESSION.(registered := true, content := true, vpnclient := Some(NEW_CLIENT), connects := 1)
  {
    var s1 := Next(setup, NEW_SESSION, Register(true, true, AUTOLOGIN));
    assert s1 == NEW_SESSION.(registered := true, content := true, vpnclient := Some(NEW_CLIENT));
    assert GateAfter(observe, 0) == Proceed;
  }

  /** The server asks for a reply within the session. */
  lemma ServerAsks(setup: Setup, s: Session, info: string, request: string)
    requires s.queue == EMPTY && s.vpnclient == Some(NEW_CLIENT)
    requires PendingTimeout(setup.atoi, info) != 0 && AsksForReply(request)
    ensures var t := Next(setup, s, Event(None, CoreEvents.AuthPending(info)));
      var timeout := PendingTimeout(setup.atoi, info);
      && t == s.(vpnclient := Some(Waiting("", ConnInit, timeout)))
      && Next(setup, t, Event(None, Info(request))) ==
           s.(vpnclient := Some(Waiting("", SessAuthChallenge, timeout)), queue := AskedOnce(ParsedCrText(request)))
  {
    var cr, timeout := ParsedCrText(request), PendingTimeout(setup.atoi, info);
    var t := Next(setup, s, Event(None, CoreEvents.AuthPending(info)));
    assert s.replies + [] == s.replies;
    assert t == s.(vpnclient := Some(Waiting("", ConnInit, timeout)));
    assert Added(EMPTY, CREDENTIALS, CHALLENGE_AUTH_PENDING, "auth_pending", cr.challenge, cr.echo) == AskedOnce(cr);
    var r := React(setup.atoi, true, t.vpnclient.value, EMPTY, Info(request));
    assert r == ReactToCrText(t.vpnclient.value, EMPTY, request);
    assert r.queue == AskedOnce(cr) && r.client == Waiting("", SessAuthChallenge, timeout);
  }

  lemma ChallengeIsStored(cr: CrText, cookie: string, ch: Challenge)
    ensures ChallengeStored(AskedOnce(cr), cookie, ch) == Ok(Challenged(cr, cookie, ch, None, None))
  {
    var q1 := Added(AskedOnce(cr), CREDENTIALS, CHALLENGE_DYNAMIC, "dynamic_challenge", ch.text, !ch.echo);
    assert q1 == Queue([PendingSlot(cr, None), QuestionSlot(ch, None)], map[106 := 1, 105 := 1]);
    var q2 := ChallengeQueued(AskedOnce(cr), cookie, ch);
    assert q2.slots == [PendingSlot(cr, None), QuestionSlot(ch, None), CookieSlot(None)];
    assert q2.reqids == map[106 := 1, 105 := 2];
    assert Pending(q2.slots[2], CREDENTIALS, CHALLENGE_DYNAMIC);
    assert FindId(q2.slots, CREDENTIALS, CHALLENGE_DYNAMIC, 1) == 2;
    assert q2.slots[2 := Filled(q2.slots[2], cookie)] == Challenged(cr, cookie, ch, None, None).slots;
  }

  /** The first pending authentication is the first slot, so the callback follows it alone. */
  lemma ForwardOf(cr: CrText, cookie: string, ch: Challenge, reply: Option<string>, response: Option<string>)
    ensures Forwarded(true, Challenged(cr, cookie, ch, reply, response)) ==
      if reply.Some? then Reply(Text(reply)) else Fails
  {
    var slots := Challenged(cr, cookie, ch, reply, response).slots;
    assert slots[..2][..1][..0] == [] && slots[..2][..1] == [slots[0]] && slots[..2] == [slots[0], slots[1]];
    assert Count(slots[..2][..1], CREDENTIALS, CHALLENGE_AUTH_PENDING) == 1;
    assert Count(slots[..2], CREDENTIALS, CHALLENGE_AUTH_PENDING) == 1;
    assert Count(slots, CREDENTIALS, CHALLENGE_AUTH_PENDING) == 1;
    assert FindName(slots, CREDENTIALS, CHALLENGE_AUTH_PENDING, "auth_pending") == 0;
  }

  lemma ChallengeReaction(c: Client, cr: CrText, cookie: string, ch: Challenge)
    ensures ReactToChallenge(true, c, AskedOnce(cr), cookie, ch) ==
            Reaction(c.(dcCookie := cookie), Challenged(cr, cookie, ch, None, None), [], true)
    ensures EventReplies(true, AskedOnce(cr), DynamicChallenge(cookie, Some(ch))) == []
  {
    ChallengeIsStored(cr, cookie, ch);
    ForwardOf(cr, cookie, ch, None, None);
  }

  /** The challenge arrives: it is stored, the handler throws, and the status stays. */
  lemma ChallengeArrives(setup: Setup, s: Session, cr: CrText, timeout: U32, cookie: string, ch: Challenge)
    requires s.queue == AskedOnce(cr) && s.vpnclient == Some(Waiting("", SessAuthChallenge, timeout))
    ensures React(setup.atoi, true, s.vpnclient.value, s.queue, DynamicChallenge(cookie, Some(ch))).threw
    ensures Next(setup, s, Event(None, DynamicChallenge(cookie, Some(ch)))) ==
            s.(vpnclient := Some(Waiting(cookie, SessAuthChallenge, timeout)),
              queue := Challenged(cr, cookie, ch, None, None),
               challenges := s.challenges + [(cookie, ch)])
  {
    var ev := DynamicChallenge(cookie, Some(ch));
    ChallengeReaction(s.vpnclient.value, cr, cookie, ch);
    assert React(setup.atoi, true, s.vpnclient.value, s.queue, ev) ==
      ReactToChallenge(true, s.vpnclient.value, s.queue, cookie, ch);
    assert s.replies + [] == s.replies;
  }

  lemma ValuesAreStored(cr: CrText, cookie: string, ch: Challenge, reply: string, response: string)
    ensures Updated(Challenged(cr, cookie, ch, None, None), CREDENTIALS, CHALLENGE_AUTH_PENDING, 0, reply)
            == Ok(Challenged(cr, cookie, ch, Some(reply), None))
    ensures Updated(Challenged(cr, cookie, ch, Some(reply), None), CREDENTIALS, CHALLENGE_DYNAMIC, 0, response)
            == Ok(Challenged(cr, cookie, ch, Some(reply), Some(response)))
  {
    var q, r := Challenged(cr, cookie, ch, None, None), Challenged(cr, cookie, ch, Some(reply), None);
    assert Pending(q.slots[0], CREDENTIALS, CHALLENGE_AUTH_PENDING);
    assert Pending(r.slots[1], CREDENTIALS, CHALLENGE_DYNAMIC);
    assert FindId(q.slots, CREDENTIALS, CHALLENGE_AUTH_PENDING, 0) == 0;
    assert FindId(r.slots, CREDENTIALS, CHALLENGE_DYNAMIC, 0) == 1;
    assert q.slots[0 := Filled(q.slots[0], reply)] == r.slots;
    assert r.slots[1 := Filled(r.slots[1], response)] == Challenged(cr, cookie, ch, Some(reply), Some(response)).slots;
  }

  /** A value is stored and the reply is sent. */
  lemma ValueIsProvided(setup: Setup, s: Session, group: Code, value: string, q: Queue, reply: string)
    requires s.vpnclient.Some? && s.vpnclient.value.runStatus == SessAuthChallenge && value != []
    requires Updated(s.queue, CREDENTIALS, group, 0, value) == Ok(q) && Forwarded(true, q) == Reply(reply)
    ensures Next(setup, s, Provide(CREDENTIALS, group, 0, value)) == s.(queue := q, replies := s.replies + [reply])
  {
    assert Entered(s) == s;
  }

  /** Both values are provided; the reply is sent twice. */
  lemma BothAreProvided(setup: Setup, s: Session, cr: CrText, timeout: U32, cookie: string, ch: Challenge,
                        reply: string, response: string)
    requires s.queue == Challenged(cr, cookie, ch, None, None)
    requires s.vpnclient == Some(Waiting(cookie, SessAuthChallenge, timeout))
    requires reply != [] && response != []
    ensures var t := Next(setup, s, Provide(CREDENTIALS, CHALLENGE_AUTH_PENDING, 0, reply));
      Next(setup, t, Provide(CREDENTIALS, CHALLENGE_DYNAMIC, 0, response)) ==
        s.(queue := Challenged(cr, cookie, ch, Some(reply), Some(response)),
           replies := s.replies + [Text(Some(reply))] + [Text(Some(reply))])
  {
    ValuesAreStored(cr, cookie, ch, reply, response);
    var q, r := Challenged(cr, cookie, ch, Some(reply), None), Challenged(cr, cookie, ch, Some(reply), Some(response));
    ForwardOf(cr, cookie, ch, Some(reply), None);
    ForwardOf(cr, cookie, ch, Some(reply), Some(response));
    ValueIsProvided(setup, s, CHALLENGE_AUTH_PENDING, reply, q, Text(Some(reply)));
    var t := s.(queue := q, replies := s.replies + [Text(Some(reply))]);
    ValueIsProvided(setup, t, CHALLENGE_DYNAMIC, response, r, Text(Some(reply)));
  }

  /**
   * The whole run: the client is started, an authentication is pending, a dynamic challenge arrives, both are
   * answered.  Nothing is missing, yet the next Connect call returns normally without doing anything.
   */
  lemma ConnectIgnoredWithNothingMissing(setup: Setup, ss: seq<Session>, steps: seq<Step>, info: string,
                                         request: string, cookie: string, ch: Challenge, reply: string,
                                         response: string)
    requires IsSessionRun(setup, ss, steps) && |steps| == 8
    requires steps[0] == Register(true, true, AUTOLOGIN)
    requires steps[1].Connect? && steps[1].observe(0) == ConnInit && steps[1].eval == AUTOLOGIN
    requires steps[2] == Event(None, CoreEvents.AuthPending(info)) && PendingTimeout(setup.atoi, info) != 0
    requires steps[3] == Event(None, Info(request)) && AsksForReply(request)
    requires steps[4] == Event(None, DynamicChallenge(cookie, Some(ch)))
    requires steps[5] == Provide(CREDENTIALS, CHALLENGE_AUTH_PENDING, 0, reply) && reply != []
    requires steps[6] == Provide(CREDENTIALS, CHALLENGE_DYNAMIC, 0, response) && response != []
    requires steps[7].Connect? && forall k: nat :: steps[7].observe(k) == SessAuthChallenge
    ensures ss[2].connects == 1 && AllDone(ss[7].queue.slots)
    ensures ss[8] == ss[7] && ss[8].connects == 1
    ensures ClientSession.Connected(setup, Entered(ss[7]), steps[7].observe, steps[7].eval, steps[7].accepted) ==
      (ss[7], Returned)
  {
    UpToRequest(setup, ss, steps, info, request);
    UpToAnswers(setup, ss, steps, ParsedCrText(request), PendingTimeout(setup.atoi, info), cookie, ch, reply, response);
    LastConnect(setup, ss[7], steps[7]);
    assert Follows(setup, ss, steps, 7);
  }

  lemma UpToRequest(setup: Setup, ss: seq<Session>, steps: seq<Step>, info: string, request: string)
    requires IsSessionRun(setup, ss, steps) && |steps| >= 4
    requires steps[0] == Register(true, true, AUTOLOGIN)
    requires steps[1].Connect? && steps[1].observe(0) == ConnInit && steps[1].eval == AUTOLOGIN
    requires steps[2] == Event(None, CoreEvents.AuthPending(info)) && PendingTimeout(setup.atoi, info) != 0
    requires steps[3] == Event(None, Info(request)) && AsksForReply(request)
    ensures ss[2].connects == 1
    ensures ss[4] == ss[2].(vpnclient := Some(Waiting("", SessAuthChallenge, PendingTimeout(setup.atoi, info))),
                            queue := AskedOnce(ParsedCrText(request)))
    ensures ss[4].registered
  {
    assert Follows(setup, ss, steps, 0) && Follows(setup, ss, steps, 1);
    StartsAtOnce(setup, steps[1].observe, steps[1].accepted);
    assert Follows(setup, ss, steps, 2) && Follows(setup, ss, steps, 3);
    ServerAsks(setup, ss[2], info, request);
  }

  lemma UpToAnswers(setup: Setup, ss: seq<Session>, steps: seq<Step>, cr: CrText, timeout: U32,
                    cookie: string, ch: Challenge, reply: string, response: string)
    requires IsSessionRun(setup, ss, steps) && |steps| >= 7
    requires ss[4].queue == AskedOnce(cr) && ss[4].vpnclient == Some(Waiting("", SessAuthChallenge, timeout))
    requires steps[4] == Event(None, DynamicChallenge(cookie, Some(ch)))
    requires steps[5] == Provide(CREDENTIALS, CHALLENGE_AUTH_PENDING, 0, reply) && reply != []
    requires steps[6] == Provide(CREDENTIALS, CHALLENGE_DYNAMIC, 0, response) && response != []
    ensures ss[7].queue == Challenged(cr, cookie, ch, Some(reply), Some(response))
    ensures ss[7].vpnclient == Some(Waiting(cookie, SessAuthChallenge, timeout))
    ensures ss[7].connects == ss[4].connects && ss[7].registered == ss[4].registered
  {
    assert Follows(setup, ss, steps, 4);
    ChallengeArrives(setup, ss[4], cr, timeout, cookie, ch);
    assert Follows(setup, ss, steps, 5) && Follows(setup, ss, steps, 6);
    BothAreProvided(setup, ss[5], cr, timeout, cookie, ch, reply, response);
  }

  lemma LastConnect(setup: Setup, s: Session, step: Step)
    requires step.Connect? && (forall k: nat :: step.observe(k) == SessAuthChallenge)
    requires s.registered && s.vpnclient.Some? && s.vpnclient.value.runStatus == SessAuthChallenge
    ensures Entered(s) == s && Next(setup, s, step) == s
    ensures ClientSession.Connected(setup, s, step.observe, step.eval, step.accepted) == (s, Returned)
  {
    ConnectOutcome(setup, s, step.observe, step.eval, step.accepted);
  }
}
