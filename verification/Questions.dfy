/**
 * What the user is asked for: which questions each step of a session adds to the queue
 * (src/client/openvpn3-service-client.cpp, src/client/core-client.hpp).
 */
module Questions {
  import opened Outcomes
  import opened RequestQueue
  import opened CoreEvents
  import opened EventStatuses
  import opened ClientSession
  import opened CredentialGroups

  /** A credential as the front-end presents it. */
  datatype Question = Question(group: Code, name: string, description: string, hidden: bool)

  function QuestionOf(s: Slot): Question {
    Question(s.group, s.name, s.description, s.hidden)
  }

  function QuestionsOf(slots: seq<Slot>): (r: seq<Question>)
    ensures |r| == |slots|
  {
    seq(|slots|, i requires 0 <= i < |slots| => QuestionOf(slots[i]))
  }

  const USER_NAME: Question := Question(USER_PASSWORD, "username", "Auth User name", false)
  const PASSWORD: Question := Question(USER_PASSWORD, "password", "Auth Password", true)
  const ONLY_PASSWORD: Question := Question(PASSWORD_ONLY, "password", "Auth Password", true)
  const PASSPHRASE: Question := Question(PK_PASSPHRASE, "pk_passphrase", "Private key passphrase", true)
  const PROXY_USER: Question := Question(HTTP_PROXY_CREDS, "http_proxy_user", "HTTP proxy username", false)
  const PROXY_PASSWORD: Question := Question(HTTP_PROXY_CREDS, "http_proxy_pass", "HTTP proxy password", true)
  const COOKIE: Question := Question(CHALLENGE_DYNAMIC, "dynamic_challenge_cookie", "", true)

  /** The slots from position `n` on are new: these questions, all of them credentials, without a value. */
  ghost predicate Asks(before: seq<Slot>, after: seq<Slot>, more: seq<Question>) {
    && QuestionsOf(after) == QuestionsOf(before) + more
    && forall i :: |before| <= i < |after| ==>
         after[i].kind == CREDENTIALS && (after[i].name != COOKIE.name ==> !after[i].provided && after[i].value == "")
  }

  lemma AddAsks(q: Queue, x: Question)
    ensures Asks(q.slots, Added(q, CREDENTIALS, x.group, x.name, x.description, x.hidden).slots, [x])
  {
    var after := Added(q, CREDENTIALS, x.group, x.name, x.description, x.hidden).slots;
    assert QuestionsOf(after) == QuestionsOf(q.slots) + [x];
  }

  lemma AsksTwice(a: seq<Slot>, b: seq<Slot>, c: seq<Slot>, x: seq<Question>, y: seq<Question>)
    requires Asks(a, b, x) && Asks(b, c, y) && |a| <= |b| <= |c|
    requires forall i :: |a| <= i < |b| ==> c[i] == b[i]
    ensures Asks(a, c, x + y)
  {
  }

  lemma AddsPair(q: Queue, x: Question, y: Question)
    ensures Asks(q.slots,
                 Added(Added(q, CREDENTIALS, x.group, x.name, x.description, x.hidden),
                       CREDENTIALS, y.group, y.name, y.description, y.hidden).slots, [x, y])
  {
    var r := Added(q, CREDENTIALS, x.group, x.name, x.description, x.hidden);
    AddAsks(q, x);
    AddAsks(r, y);
    AsksTwice(q.slots, r.slots, Added(r, CREDENTIALS, y.group, y.name, y.description, y.hidden).slots, [x], [y]);
    assert [x] + [y] == [x, y];
  }

  // ---------------------------------------------------------------- events

  /** What an event of the server makes the client ask. */
  function EventQuestions(c: Client, ev: CoreEvent): seq<Question> {
    if ev.ProxyNeedCreds? then [PROXY_USER, PROXY_PASSWORD]
    else if ev.DynamicChallenge? && ev.parsed.Some? then
      [Question(CHALLENGE_DYNAMIC, "dynamic_challenge", ev.parsed.value.text, !ev.parsed.value.echo), COOKIE]
    else if AsksForReply(ev, c.authPendingTimeout != 0) then
      [Question(CHALLENGE_AUTH_PENDING, "auth_pending", ParsedCrText(ev.text).challenge, ParsedCrText(ev.text).echo)]
    else []
  }

  lemma FillingAsksNothing(before: seq<Slot>, after: seq<Slot>, q: Queue, id: U32, cookie: string, more: seq<Question>)
    requires Asks(before, q.slots, more) && |before| <= |q.slots|
    requires var r := Updated(q, CREDENTIALS, CHALLENGE_DYNAMIC, id, cookie);
      r.Ok? && after == r.value.slots
    requires var i := FindId(q.slots, CREDENTIALS, CHALLENGE_DYNAMIC, id);
      |before| <= i < |q.slots| ==> q.slots[i].name == COOKIE.name
    ensures Asks(before, after, more)
  {
    assert forall i :: 0 <= i < |after| ==> QuestionOf(after[i]) == QuestionOf(q.slots[i]);
    assert QuestionsOf(after) == QuestionsOf(q.slots);
  }

  /** The cookie never goes into the slot of its own question: the two have different ids. */
  lemma CookieMissesQuestion(q: Queue, cookie: string, ch: Challenge)
    ensures var asked := Added(q, CREDENTIALS, CHALLENGE_DYNAMIC, "dynamic_challenge", ch.text, !ch.echo);
      FindId(ChallengeQueued(q, cookie, ch).slots, CREDENTIALS, CHALLENGE_DYNAMIC,
             Counter(asked, CREDENTIALS, CHALLENGE_DYNAMIC)) != |q.slots|
  {
    var asked := Added(q, CREDENTIALS, CHALLENGE_DYNAMIC, "dynamic_challenge", ch.text, !ch.echo);
    var id := Counter(asked, CREDENTIALS, CHALLENGE_DYNAMIC);
    var slots := ChallengeQueued(q, cookie, ch).slots;
    assert slots[|q.slots|].id == Counter(q, CREDENTIALS, CHALLENGE_DYNAMIC) != id;
  }

  lemma ChallengeAsks(installed: bool, c: Client, q: Queue, cookie: string, ch: Challenge)
    ensures Asks(q.slots, ReactToChallenge(installed, c, q, cookie, ch).queue.slots,
                 [Question(CHALLENGE_DYNAMIC, "dynamic_challenge", ch.text, !ch.echo), COOKIE])
  {
    var x := Question(CHALLENGE_DYNAMIC, "dynamic_challenge", ch.text, !ch.echo);
    AddsPair(q, x, COOKIE);
    CookieMissesQuestion(q, cookie, ch);
    var stored := ChallengeStored(q, cookie, ch);
    if stored.Ok? {
      var id := Counter(Added(q, CREDENTIALS, CHALLENGE_DYNAMIC, x.name, x.description, x.hidden),
                        CREDENTIALS, CHALLENGE_DYNAMIC);
      FillingAsksNothing(q.slots, stored.value.slots, ChallengeQueued(q, cookie, ch), id, cookie, [x, COOKIE]);
    }
  }

  lemma SameAsksNothing(slots: seq<Slot>)
    ensures Asks(slots, slots, [])
  {
  }

  /** An event asks exactly its own questions; a dynamic challenge does so also when it throws. */
  lemma EventAsks(atoi: string -> int, installed: bool, c: Client, q: Queue, ev: CoreEvent)
    ensures Asks(q.slots, React(atoi, installed, c, q, ev).queue.slots, EventQuestions(c, ev))
  {
    SameAsksNothing(q.slots);
    if ev.ProxyNeedCreds? {
      AddsPair(q, PROXY_USER, PROXY_PASSWORD);
    } else if ev.DynamicChallenge? {
      if ev.parsed.Some? {
        ChallengeAsks(installed, c, q, ev.cookie, ev.parsed.value);
      }
    } else if ev.Info? {
      InfoAsks(atoi, installed, c, q, ev.text);
    }
  }

  lemma InfoAsks(atoi: string -> int, installed: bool, c: Client, q: Queue, text: string)
    ensures Asks(q.slots, React(atoi, installed, c, q, Info(text)).queue.slots, EventQuestions(c, Info(text)))
  {
    var pending := c.authPendingTimeout != 0;
    SameAsksNothing(q.slots);
    KindByPrefix(text, pending);
    if KindOfInfo(text, pending) == CrTextRequest {
      assert React(atoi, installed, c, q, Info(text)) == ReactToCrText(c, q, text);
      var cr := ParsedCrText(text);
      AddAsks(q, Question(CHALLENGE_AUTH_PENDING, "auth_pending", cr.challenge, cr.echo));
    }
  }

  // ---------------------------------------------------------------- initialising a client

  predicate HasGroup(qs: seq<Question>, group: Code) {
    exists i :: 0 <= i < |qs| && qs[i].group == group
  }

  /** The questions of the login, unless they have been asked before. */
  function LoginQuestions(flow: AuthFlow, asked: seq<Question>): seq<Question> {
    if flow == PasswordOnly then (if HasGroup(asked, PASSWORD_ONLY) then [] else [ONLY_PASSWORD])
    else if HasGroup(asked, USER_PASSWORD) then [] else [USER_NAME, PASSWORD]
  }

  function StaticQuestions(text: string, echo: bool): seq<Question> {
    if text == [] then [] else [Question(CHALLENGE_STATIC, "static_challenge", text, !echo)]
  }

  /** What an evaluated profile makes the client ask without a certificate that logs in by itself. */
  function AccountQuestions(flow: AuthFlow, asked: seq<Question>, eval: Eval): seq<Question>
    requires eval.Evaluated?
  {
    if eval.autologin then []
    else LoginQuestions(flow, asked) + StaticQuestions(eval.staticChallenge, eval.staticEcho)
  }

  /** The passphrase is asked for last, when one is needed and none is known. */
  function ProfileQuestions(flow: AuthFlow, asked: seq<Question>, pk: string, eval: Eval): seq<Question>
    requires eval.Evaluated?
  {
    AccountQuestions(flow, asked, eval) + (if eval.pkPasswordRequired && pk == [] then [PASSPHRASE] else [])
  }

  /** All slots are credentials, and of the two login groups only the one of the flow is there, asked for once. */
  ghost predicate LoginOnce(flow: AuthFlow, slots: seq<Slot>) {
    && (forall i :: 0 <= i < |slots| ==> slots[i].kind == CREDENTIALS)
    && OnceOrNot(GroupOf(slots, USER_PASSWORD), if flow == UsernamePassword then [USER_NAME, PASSWORD] else [])
    && OnceOrNot(GroupOf(slots, PASSWORD_ONLY), if flow == PasswordOnly then [ONLY_PASSWORD] else [])
  }

  ghost predicate OnceOrNot(slots: seq<Slot>, qs: seq<Question>) {
    slots == [] || QuestionsOf(slots) == qs
  }

  lemma AskedIff(slots: seq<Slot>, reqids: map<nat, U32>, group: Code)
    requires forall i :: 0 <= i < |slots| ==> slots[i].kind == CREDENTIALS
    requires |GroupOf(slots, group)| <= 2
    ensures Asked(Queue(slots, reqids), group) <==> HasGroup(QuestionsOf(slots), group)
    ensures GroupOf(slots, group) == [] <==> !HasGroup(QuestionsOf(slots), group)
  {
    GroupCount(slots, group);
    CountIsPresence(slots, CREDENTIALS, group);
    if i :| 0 <= i < |slots| && slots[i].group == group {
      assert QuestionsOf(slots)[i].group == group;
    }
  }

  /** A new credential of another group does not touch the login. */
  lemma AddKeepsLogin(flow: AuthFlow, q: Queue, x: Question)
    requires LoginOnce(flow, q.slots) && x.group != USER_PASSWORD && x.group != PASSWORD_ONLY
    ensures LoginOnce(flow, Added(q, CREDENTIALS, x.group, x.name, x.description, x.hidden).slots)
  {
    var s := Added(q, CREDENTIALS, x.group, x.name, x.description, x.hidden).slots[|q.slots|];
    AddedGroup(q, s, USER_PASSWORD);
    AddedGroup(q, s, PASSWORD_ONLY);
  }

  lemma AddedGroup(q: Queue, s: Slot, group: Code)
    ensures GroupOf(q.slots + [s], group) ==
      GroupOf(q.slots, group) + (if InGroup(s, CREDENTIALS, group) then [s] else [])
  {
    GroupOfAppend(q.slots, [s], group);
    GroupOfOne(s, group);
  }

  lemma LoginAsks(flow: AuthFlow, q: Queue)
    requires LoginOnce(flow, q.slots)
    ensures Asks(q.slots, WithLogin(flow, q).slots, LoginQuestions(flow, QuestionsOf(q.slots)))
    ensures LoginOnce(flow, WithLogin(flow, q).slots)
  {
    SameAsksNothing(q.slots);
    if flow == PasswordOnly {
      OnlyPasswordAsks(q);
    } else {
      UserPasswordAsks(q);
    }
  }

  lemma OnlyPasswordAsks(q: Queue)
    requires LoginOnce(PasswordOnly, q.slots)
    ensures Asks(q.slots, WithLogin(PasswordOnly, q).slots, LoginQuestions(PasswordOnly, QuestionsOf(q.slots)))
    ensures LoginOnce(PasswordOnly, WithLogin(PasswordOnly, q).slots)
  {
    AskedIff(q.slots, q.reqids, PASSWORD_ONLY);
    SameAsksNothing(q.slots);
    AddAsks(q, ONLY_PASSWORD);
    var r := Added(q, CREDENTIALS, PASSWORD_ONLY, "password", "Auth Password", true);
    AddedGroup(q, r.slots[|q.slots|], PASSWORD_ONLY);
    AddedGroup(q, r.slots[|q.slots|], USER_PASSWORD);
  }

  lemma UserPasswordAsks(q: Queue)
    requires LoginOnce(UsernamePassword, q.slots)
    ensures Asks(q.slots, WithLogin(UsernamePassword, q).slots, LoginQuestions(UsernamePassword, QuestionsOf(q.slots)))
    ensures LoginOnce(UsernamePassword, WithLogin(UsernamePassword, q).slots)
  {
    AskedIff(q.slots, q.reqids, USER_PASSWORD);
    SameAsksNothing(q.slots);
    AddsPair(q, USER_NAME, PASSWORD);
    var r := Added(q, CREDENTIALS, USER_PASSWORD, "username", "Auth User name", false);
    var t := Added(r, CREDENTIALS, USER_PASSWORD, "password", "Auth Password", true);
    AddedGroup(q, r.slots[|q.slots|], PASSWORD_ONLY);
    AddedGroup(q, r.slots[|q.slots|], USER_PASSWORD);
    AddedGroup(r, t.slots[|r.slots|], PASSWORD_ONLY);
    AddedGroup(r, t.slots[|r.slots|], USER_PASSWORD);
  }

  lemma StaticAsks(flow: AuthFlow, q: Queue, text: string, echo: bool)
    requires LoginOnce(flow, q.slots)
    ensures var r := WithStaticChallenge(q, text, echo).slots;
      LoginOnce(flow, r) && Asks(q.slots, r, StaticQuestions(text, echo))
  {
    SameAsksNothing(q.slots);
    AddAsks(q, Question(CHALLENGE_STATIC, "static_challenge", text, !echo));
    AddKeepsLogin(flow, q, Question(CHALLENGE_STATIC, "static_challenge", text, !echo));
  }

  lemma AccountAsks(flow: AuthFlow, q: Queue, eval: Eval)
    requires LoginOnce(flow, q.slots) && eval.Evaluated? && !eval.autologin
    ensures var r := WithStaticChallenge(WithLogin(flow, q), eval.staticChallenge, eval.staticEcho).slots;
      LoginOnce(flow, r) && Asks(q.slots, r, AccountQuestions(flow, QuestionsOf(q.slots), eval))
  {
    var named := WithLogin(flow, q);
    LoginAsks(flow, q);
    StaticAsks(flow, named, eval.staticChallenge, eval.staticEcho);
    AsksTwice(q.slots, named.slots, WithStaticChallenge(named, eval.staticChallenge, eval.staticEcho).slots,
              LoginQuestions(flow, QuestionsOf(q.slots)), StaticQuestions(eval.staticChallenge, eval.staticEcho));
  }

  lemma PassphraseAsks(flow: AuthFlow, q: Queue, needed: bool)
    requires LoginOnce(flow, q.slots)
    ensures var r := WithPassphrase(q, needed).slots;
      LoginOnce(flow, r) && Asks(q.slots, r, if needed then [PASSPHRASE] else [])
  {
    SameAsksNothing(q.slots);
    AddAsks(q, PASSPHRASE);
    AddKeepsLogin(flow, q, PASSPHRASE);
  }

  lemma ProfileAsks(flow: AuthFlow, q: Queue, pk: string, eval: Eval)
    requires LoginOnce(flow, q.slots) && eval.Evaluated?
    ensures var r := QueueAfterEval(flow, q, pk, eval).slots;
      LoginOnce(flow, r) && Asks(q.slots, r, ProfileQuestions(flow, QuestionsOf(q.slots), pk, eval))
  {
    var login, needed := q, eval.pkPasswordRequired && pk == [];
    SameAsksNothing(q.slots);
    if !eval.autologin {
      AccountAsks(flow, q, eval);
      login := WithStaticChallenge(WithLogin(flow, q), eval.staticChallenge, eval.staticEcho);
    }
    PassphraseAsks(flow, login, needed);
    AsksTwice(q.slots, login.slots, WithPassphrase(login, needed).slots,
              AccountQuestions(flow, QuestionsOf(q.slots), eval), if needed then [PASSPHRASE] else []);
  }

  // ---------------------------------------------------------------- a whole session

  /** What initialising the client asks: nothing unless the profile is there and can be evaluated. */
  function ClientQuestions(setup: Setup, s: Session, eval: Eval): seq<Question> {
    if s.content && KeyPassword(s).Ok? && eval.Evaluated?
    then ProfileQuestions(setup.flow, QuestionsOf(s.queue.slots), KeyPassword(s).value, eval)
    else []
  }

  lemma ClientAsks(setup: Setup, s: Session, eval: Eval)
    requires LoginOnce(setup.flow, s.queue.slots)
    ensures var r := Initialized(setup, s, eval).0.queue.slots;
      LoginOnce(setup.flow, r) && Asks(s.queue.slots, r, ClientQuestions(setup, s, eval))
  {
    SameAsksNothing(s.queue.slots);
    if s.content && KeyPassword(s).Ok? && eval.Evaluated? {
      ProfileAsks(setup.flow, s.queue, KeyPassword(s).value, eval);
    }
  }

  /** The call gets as far as initialising a client. */
  predicate PassesGate(s: Session, step: Step)
    requires step.Connect?
  {
    s.registered && (Entered(s).vpnclient.Some? ==> GateAfter(step.observe, 0) == Proceed)
  }

  /** What one step of a session asks the user. */
  function StepQuestions(setup: Setup, s: Session, step: Step): seq<Question> {
    match step
    case Register(tokenMatches, fetched, eval) =>
      if s.registered || !tokenMatches then []
      else ClientQuestions(setup, s.(registered := true, content := fetched), eval)
    case Connect(observe, eval, _) =>
      if PassesGate(s, step) then ClientQuestions(setup, s, eval) else []
    case Provide(_, _, _, _) | OtherCall => []
    case Event(older, ev) =>
      if Affected(s, older).None? then [] else EventQuestions(Affected(s, older).value, ev)
  }

  lemma ShapeKeepsQuestions(flow: AuthFlow, a: seq<Slot>, b: seq<Slot>)
    requires LoginOnce(flow, a) && SameShape(a, b)
    ensures LoginOnce(flow, b) && Asks(a, b, [])
  {
    forall i | 0 <= i < |a| ensures QuestionOf(b[i]) == QuestionOf(a[i]) && b[i].kind == a[i].kind {
      assert b[i] == a[i].(value := b[i].value, provided := b[i].provided);
    }
    assert QuestionsOf(b) == QuestionsOf(a) + [];
    ShapeKeepsOnce(a, b, USER_PASSWORD, if flow == UsernamePassword then [USER_NAME, PASSWORD] else []);
    ShapeKeepsOnce(a, b, PASSWORD_ONLY, if flow == PasswordOnly then [ONLY_PASSWORD] else []);
  }

  lemma ShapeKeepsOnce(a: seq<Slot>, b: seq<Slot>, group: Code, qs: seq<Question>)
    requires SameShape(a, b) && OnceOrNot(GroupOf(a, group), qs)
    ensures OnceOrNot(GroupOf(b, group), qs)
  {
    GroupOfShape(a, b, group);
    assert |GroupOf(a, group)| == |QuestionsOf(GroupOf(a, group))| == |GroupOf(b, group)|;
  }

  lemma QuestionsCons(s: Slot, rest: seq<Slot>)
    ensures QuestionsOf([s] + rest) == [QuestionOf(s)] + QuestionsOf(rest)
  {
  }

  lemma {:induction false} GroupOfShape(a: seq<Slot>, b: seq<Slot>, group: Code)
    requires SameShape(a, b)
    ensures QuestionsOf(GroupOf(a, group)) == QuestionsOf(GroupOf(b, group))
  {
    if a != [] {
      var x, y := GroupOf(a[1..], group), GroupOf(b[1..], group);
      assert b[0] == a[0].(value := b[0].value, provided := b[0].provided);
      GroupOfShape(a[1..], b[1..], group);
      if InGroup(a[0], CREDENTIALS, group) {
        QuestionsCons(a[0], x);
        QuestionsCons(b[0], y);
      } else {
        assert GroupOf(a, group) == x && GroupOf(b, group) == y;
      }
    }
  }

  /** Questions of the server belong to its own groups. */
  lemma EventKeepsLogin(flow: AuthFlow, atoi: string -> int, installed: bool, c: Client, q: Queue, ev: CoreEvent)
    requires LoginOnce(flow, q.slots)
    ensures LoginOnce(flow, React(atoi, installed, c, q, ev).queue.slots)
  {
    if ev.ProxyNeedCreds? {
      AddKeepsLogin(flow, q, PROXY_USER);
      AddKeepsLogin(flow, Added(q, CREDENTIALS, HTTP_PROXY_CREDS, "http_proxy_user", "HTTP proxy username", false),
                    PROXY_PASSWORD);
    } else if ev.DynamicChallenge? {
      if ev.parsed.Some? {
        ChallengeKeepsLogin(flow, installed, c, q, ev.cookie, ev.parsed.value);
      }
    } else if ev.Info? {
      var cr := ParsedCrText(ev.text);
      AddKeepsLogin(flow, q, Question(CHALLENGE_AUTH_PENDING, "auth_pending", cr.challenge, cr.echo));
    }
  }

  lemma ChallengeKeepsLogin(flow: AuthFlow, installed: bool, c: Client, q: Queue, cookie: string, ch: Challenge)
    requires LoginOnce(flow, q.slots)
    ensures LoginOnce(flow, ReactToChallenge(installed, c, q, cookie, ch).queue.slots)
  {
    var x := Question(CHALLENGE_DYNAMIC, "dynamic_challenge", ch.text, !ch.echo);
    AddKeepsLogin(flow, q, x);
    AddKeepsLogin(flow, Added(q, CREDENTIALS, CHALLENGE_DYNAMIC, x.name, x.description, x.hidden), COOKIE);
    ShapeKeepsQuestions(flow, ChallengeQueued(q, cookie, ch).slots,
                        ReactToChallenge(installed, c, q, cookie, ch).queue.slots);
  }

  lemma StepAsks(setup: Setup, s: Session, step: Step)
    requires LoginOnce(setup.flow, s.queue.slots)
    ensures var t := Next(setup, s, step);
      LoginOnce(setup.flow, t.queue.slots) && Asks(s.queue.slots, t.queue.slots, StepQuestions(setup, s, step))
  {
    SameAsksNothing(s.queue.slots);
    match step {
      case Register(tokenMatches, fetched, eval) =>
        RegisterAsks(setup, s, step);
      case Connect(observe, eval, accepted) =>
        ConnectAsks(setup, s, step);
      case Provide(kind, group, id, value) =>
        ShapeKeepsQuestions(setup.flow, s.queue.slots, Next(setup, s, step).queue.slots);
      case OtherCall =>
      case Event(older, ev) =>
        if Affected(s, older).Some? {
          EventAsks(setup.atoi, s.vpnclient.Some?, Affected(s, older).value, s.queue, ev);
          EventKeepsLogin(setup.flow, setup.atoi, s.vpnclient.Some?, Affected(s, older).value, s.queue, ev);
        }
    }
  }

  lemma RegisterAsks(setup: Setup, s: Session, step: Step)
    requires LoginOnce(setup.flow, s.queue.slots) && step.Register?
    ensures var t := Next(setup, s, step);
      LoginOnce(setup.flow, t.queue.slots) && Asks(s.queue.slots, t.queue.slots, StepQuestions(setup, s, step))
  {
    SameAsksNothing(s.queue.slots);
    var e := Entered(s).(registered := true, content := step.fetched);
    ClientAsks(setup, e, step.eval);
    assert ClientQuestions(setup, e, step.eval) ==
           ClientQuestions(setup, s.(registered := true, content := step.fetched), step.eval);
  }

  lemma ConnectQueue(setup: Setup, s: Session, step: Step)
    requires step.Connect?
    ensures Next(setup, s, step).queue ==
      if PassesGate(s, step) then Initialized(setup, Entered(s), step.eval).0.queue else s.queue
  {
  }

  lemma ConnectAsks(setup: Setup, s: Session, step: Step)
    requires LoginOnce(setup.flow, s.queue.slots) && step.Connect?
    ensures var t := Next(setup, s, step);
      LoginOnce(setup.flow, t.queue.slots) && Asks(s.queue.slots, t.queue.slots, StepQuestions(setup, s, step))
  {
    ConnectQueue(setup, s, step);
    if PassesGate(s, step) {
      ClientAsks(setup, Entered(s), step.eval);
      EntryKeepsQuestions(setup, s, step.eval);
    } else {
      SameAsksNothing(s.queue.slots);
    }
  }

  lemma EntryKeepsQuestions(setup: Setup, s: Session, eval: Eval)
    ensures ClientQuestions(setup, Entered(s), eval) == ClientQuestions(setup, s, eval)
  {
  }

  /**
   * In every run the user is asked exactly what the steps ask, in their order; of the login group that the
   * authentication flow uses each question is there at most once, and none of the other login group.
   */
  lemma {:induction false} AskedInRun(setup: Setup, ss: seq<Session>, steps: seq<Step>, i: nat)
    requires IsSessionRun(setup, ss, steps) && i <= |steps|
    ensures LoginOnce(setup.flow, ss[i].queue.slots)
    ensures i > 0 ==> Asks(ss[i - 1].queue.slots, ss[i].queue.slots, StepQuestions(setup, ss[i - 1], steps[i - 1]))
  {
    if i > 0 {
      AskedInRun(setup, ss, steps, i - 1);
      assert Follows(setup, ss, steps, i - 1);
      NextAsks(setup, ss, steps, i - 1);
    }
  }

  lemma NextAsks(setup: Setup, ss: seq<Session>, steps: seq<Step>, i: nat)
    requires |ss| == |steps| + 1 && i < |steps| && Follows(setup, ss, steps, i)
    requires LoginOnce(setup.flow, ss[i].queue.slots)
    ensures LoginOnce(setup.flow, ss[i + 1].queue.slots)
    ensures Asks(ss[i].queue.slots, ss[i + 1].queue.slots, StepQuestions(setup, ss[i], steps[i]))
  {
    StepAsks(setup, ss[i], steps[i]);
  }
}
