/** Which values a started client gets as its credentials (src/client/openvpn3-service-client.cpp). */
module Credentials {
  import opened Outcomes
  import opened TextFilter
  import opened RequestQueue
  import opened CoreEvents
  import opened ClientSession
  import opened CredentialGroups
  import opened DynamicChallenges
  import opened AuthPending
  import opened Questions

  // ---------------------------------------------------------------- field by field

  /** The text of the first slot of this name, which is what a lookup by name finds. */
  function TextOf(q: Queue, group: Code, name: string): string {
    var i := FindName(q.slots, CREDENTIALS, group, name);
    if i < |q.slots| then q.slots[i].value else ""
  }

  predicate UserNameFlow(q: Queue) {
    Asked(q, USER_PASSWORD)
  }

  predicate PasswordFlow(q: Queue) {
    !Asked(q, USER_PASSWORD) && Asked(q, PASSWORD_ONLY)
  }

  /** What every field of the credentials is; a field whose group was not asked for keeps its value. */
  predicate HandedOver(setup: Setup, q: Queue, before: Creds, c: Creds) {
    && c.username == (if UserNameFlow(q) then TextOf(q, USER_PASSWORD, "username")
                      else if PasswordFlow(q) then setup.profileUsername else before.username)
    && c.password == (if UserNameFlow(q) && !Asked(q, CHALLENGE_DYNAMIC) then TextOf(q, USER_PASSWORD, "password")
                      else if PasswordFlow(q) then TextOf(q, PASSWORD_ONLY, "password") else before.password)
    && c.cookie == (if Asked(q, CHALLENGE_DYNAMIC) then TextOf(q, CHALLENGE_DYNAMIC, "dynamic_challenge_cookie")
                    else before.cookie)
    && c.response == (if Asked(q, CHALLENGE_DYNAMIC) then TextOf(q, CHALLENGE_DYNAMIC, "dynamic_challenge")
                      else if UserNameFlow(q) && Asked(q, CHALLENGE_STATIC)
                      then TextOf(q, CHALLENGE_STATIC, "static_challenge") else before.response)
    && c.proxyUser == (if Asked(q, HTTP_PROXY_CREDS) then TextOf(q, HTTP_PROXY_CREDS, "http_proxy_user")
                       else before.proxyUser)
    && c.proxyPass == (if Asked(q, HTTP_PROXY_CREDS) then TextOf(q, HTTP_PROXY_CREDS, "http_proxy_pass")
                       else before.proxyPass)
  }

  lemma FoundText(q: Queue, group: Code, name: string)
    ensures Response(q.slots, CREDENTIALS, group, name).Ok? ==>
      Response(q.slots, CREDENTIALS, group, name).value == TextOf(q, group, name)
  {
  }

  lemma LoginFields(setup: Setup, q: Queue, c: Creds)
    requires LoginCreds(setup, q, c).Ok?
    ensures var r := LoginCreds(setup, q, c).value;
      && r == c.(username := r.username, password := r.password, response := r.response)
      && r.username == (if UserNameFlow(q) then TextOf(q, USER_PASSWORD, "username")
                        else if PasswordFlow(q) then setup.profileUsername else c.username)
      && r.password == (if UserNameFlow(q) && !Asked(q, CHALLENGE_DYNAMIC) then TextOf(q, USER_PASSWORD, "password")
                        else if PasswordFlow(q) then TextOf(q, PASSWORD_ONLY, "password") else c.password)
      && r.response == (if UserNameFlow(q) && Asked(q, CHALLENGE_STATIC)
                        then TextOf(q, CHALLENGE_STATIC, "static_challenge") else c.response)
  {
    FoundText(q, USER_PASSWORD, "username");
    FoundText(q, USER_PASSWORD, "password");
    FoundText(q, PASSWORD_ONLY, "password");
    FoundText(q, CHALLENGE_STATIC, "static_challenge");
  }

  lemma ChallengeFields(q: Queue, c: Creds)
    requires ChallengeCreds(q, c).Ok?
    ensures ChallengeCreds(q, c).value ==
      if Asked(q, CHALLENGE_DYNAMIC)
      then c.(cookie := TextOf(q, CHALLENGE_DYNAMIC, "dynamic_challenge_cookie"),
              response := TextOf(q, CHALLENGE_DYNAMIC, "dynamic_challenge"))
      else c
  {
    FoundText(q, CHALLENGE_DYNAMIC, "dynamic_challenge_cookie");
    FoundText(q, CHALLENGE_DYNAMIC, "dynamic_challenge");
  }

  lemma ProxyFields(q: Queue, c: Creds)
    requires ProxyCreds(q, c).Ok?
    ensures ProxyCreds(q, c).value ==
      if Asked(q, HTTP_PROXY_CREDS)
      then c.(proxyUser := TextOf(q, HTTP_PROXY_CREDS, "http_proxy_user"),
              proxyPass := TextOf(q, HTTP_PROXY_CREDS, "http_proxy_pass"))
      else c
  {
    FoundText(q, HTTP_PROXY_CREDS, "http_proxy_user");
    FoundText(q, HTTP_PROXY_CREDS, "http_proxy_pass");
  }

  lemma AssembledFields(setup: Setup, q: Queue, c: Creds)
    requires AssembledCreds(setup, q, c).Ok?
    ensures HandedOver(setup, q, c, AssembledCreds(setup, q, c).value)
  {
    var c1 := LoginCreds(setup, q, c).value;
    LoginFields(setup, q, c);
    var c2 := ChallengeCreds(q, c1).value;
    ChallengeFields(q, c1);
    ProxyFields(q, c2);
  }

  // ---------------------------------------------------------------- where the texts come from

  /** Step `k` provides the value of slot `j`, which has none yet. */
  ghost predicate GivenAt(ss: seq<Session>, steps: seq<Step>, k: nat, j: nat, text: string)
    requires |ss| == |steps| + 1 && k < |steps|
  {
    && steps[k].Provide? && j < |ss[k].queue.slots| && !ss[k].queue.slots[j].provided
    && InGroup(ss[k].queue.slots[j], steps[k].kind, steps[k].group) && ss[k].queue.slots[j].id == steps[k].id
    && steps[k].value != "" && text == FilterCtrlChars(steps[k].value, true)
  }

  lemma CallsFillNothing(setup: Setup, s: Session, step: Step)
    requires step.Register? || step.Connect? || step.OtherCall?
    ensures s.queue.slots <= Next(setup, s, step).queue.slots
  {
  }

  lemma ChallengeFillsNothing(installed: bool, c: Client, q: Queue, cookie: string, ch: Challenge)
    requires Numbered(q) && |ReactToChallenge(installed, c, q, cookie, ch).queue.slots| <= TWO32
    ensures q.slots <= ReactToChallenge(installed, c, q, cookie, ch).queue.slots
  {
    ChallengeLength(installed, c, q, cookie, ch);
    ChallengeSlots(q, cookie, ch);
  }

  lemma EventFillsNothing(atoi: string -> int, installed: bool, c: Client, q: Queue, ev: CoreEvent)
    requires Numbered(q) && |React(atoi, installed, c, q, ev).queue.slots| <= TWO32
    ensures q.slots <= React(atoi, installed, c, q, ev).queue.slots
  {
    if ev.DynamicChallenge? {
      if ev.parsed.Some? {
        ChallengeFillsNothing(installed, c, q, ev.cookie, ev.parsed.value);
      }
    } else if ev.Info? {
      assert React(atoi, installed, c, q, ev).queue in {q, ReactToCrText(c, q, ev.text).queue};
    }
  }

  /** Of the slots that are there an event fills none, as long as no id wraps around. */
  lemma HappenedFillsNothing(setup: Setup, s: Session, step: Step)
    requires step.Event? && Numbered(s.queue) && |Next(setup, s, step).queue.slots| <= TWO32
    ensures s.queue.slots <= Next(setup, s, step).queue.slots
  {
    if Affected(s, step.older).Some? {
      EventFillsNothing(setup.atoi, s.vpnclient.Some?, Affected(s, step.older).value, s.queue, step.ev);
    }
  }

  /** A value comes in by a call of the front-end that names its slot. */
  lemma ValueComesIn(s: Session, step: Step, j: nat)
    requires step.Provide? && j < |s.queue.slots| && !s.queue.slots[j].provided
    requires Provided(Entered(s), step.kind, step.group, step.id, step.value).0.queue.slots[j].provided
    ensures InGroup(s.queue.slots[j], step.kind, step.group) && s.queue.slots[j].id == step.id && step.value != ""
    ensures Provided(Entered(s), step.kind, step.group, step.id, step.value).0.queue.slots[j].value ==
      FilterCtrlChars(step.value, true)
  {
    var q := s.queue;
    assert Updated(q, step.kind, step.group, step.id, step.value).Ok?;
    assert FindId(q.slots, step.kind, step.group, step.id) == j;
  }

  ghost predicate WasGiven(ss: seq<Session>, steps: seq<Step>, i: nat, j: nat, text: string)
    requires |ss| == |steps| + 1 && i <= |steps|
  {
    exists k: nat :: k < i && GivenAt(ss, steps, k, j, text)
  }

  lemma GivenBefore(setup: Setup, ss: seq<Session>, steps: seq<Step>, i: nat, j: nat, text: string)
    requires |ss| == |steps| + 1 && 0 < i <= |steps| && WasGiven(ss, steps, i - 1, j, text)
    ensures WasGiven(ss, steps, i, j, text)
  {
    var k: nat :| k < i - 1 && GivenAt(ss, steps, k, j, text);
    assert k < i;
  }

  /**
   * In every run each provided slot other than the cookie of a challenge has the filtered value that a call of the
   * front-end gave for that very slot.
   */
  lemma {:induction false} ValueWasGiven(setup: Setup, ss: seq<Session>, steps: seq<Step>, i: nat, j: nat)
    requires IsSessionRun(setup, ss, steps) && i <= |steps|
    requires forall k :: 0 <= k <= i ==> |ss[k].queue.slots| <= TWO32
    requires j < |ss[i].queue.slots| && ss[i].queue.slots[j].provided
    requires ss[i].queue.slots[j].name != "dynamic_challenge_cookie"
    ensures WasGiven(ss, steps, i, j, ss[i].queue.slots[j].value)
  {
    if i > 0 {
      RunGrows(setup, ss, steps, i - 1);
      NewSlotsAreOpen(setup, ss, steps, i, j);
      if ss[i - 1].queue.slots[j].provided {
        ValueWasGiven(setup, ss, steps, i - 1, j);
        GivenBefore(setup, ss, steps, i, j, ss[i].queue.slots[j].value);
      } else {
        GivenNow(setup, ss, steps, i - 1, j);
      }
    }
  }

  /** A slot that was just added has no value, unless it holds a cookie. */
  lemma NewSlotsAreOpen(setup: Setup, ss: seq<Session>, steps: seq<Step>, i: nat, j: nat)
    requires IsSessionRun(setup, ss, steps) && 0 < i <= |steps|
    requires j < |ss[i].queue.slots| && ss[i].queue.slots[j].provided
    requires ss[i].queue.slots[j].name != "dynamic_challenge_cookie"
    ensures j < |ss[i - 1].queue.slots|
  {
    AskedInRun(setup, ss, steps, i);
    assert COOKIE.name == "dynamic_challenge_cookie";
  }

  lemma RunGrows(setup: Setup, ss: seq<Session>, steps: seq<Step>, k: nat)
    requires IsSessionRun(setup, ss, steps) && k < |steps|
    ensures Grown(ss[k].queue.slots, ss[k + 1].queue.slots)
  {
    assert Follows(setup, ss, steps, k);
    StepGrows(setup, ss[k], steps[k]);
  }

  lemma GivenNow(setup: Setup, ss: seq<Session>, steps: seq<Step>, k: nat, j: nat)
    requires IsSessionRun(setup, ss, steps) && k < |steps|
    requires forall n :: 0 <= n <= k + 1 ==> |ss[n].queue.slots| <= TWO32
    requires j < |ss[k].queue.slots| <= |ss[k + 1].queue.slots|
    requires !ss[k].queue.slots[j].provided && ss[k + 1].queue.slots[j].provided
    ensures GivenAt(ss, steps, k, j, ss[k + 1].queue.slots[j].value)
    ensures WasGiven(ss, steps, k + 1, j, ss[k + 1].queue.slots[j].value)
  {
    assert Follows(setup, ss, steps, k);
    RunKeepsPairs(setup, ss, steps, k);
    ProvideFilled(setup, ss[k], steps[k], ss[k + 1], j);
    assert GivenAt(ss, steps, k, j, ss[k + 1].queue.slots[j].value);
  }

  lemma ProvideFilled(setup: Setup, s: Session, step: Step, t: Session, j: nat)
    requires t == Next(setup, s, step) && Numbered(s.queue) && |t.queue.slots| <= TWO32
    requires j < |s.queue.slots| <= |t.queue.slots| && !s.queue.slots[j].provided && t.queue.slots[j].provided
    ensures step.Provide? && InGroup(s.queue.slots[j], step.kind, step.group) && s.queue.slots[j].id == step.id
    ensures step.value != "" && t.queue.slots[j].value == FilterCtrlChars(step.value, true)
  {
    if step.Event? {
      HappenedFillsNothing(setup, s, step);
    } else if step.Provide? {
      ValueComesIn(s, step, j);
    } else {
      CallsFillNothing(setup, s, step);
    }
  }

  // ---------------------------------------------------------------- the credentials of a started client

  /** A Connect call that starts the client sets up a new client object and hands over what the queue holds. */
  lemma StartedWith(setup: Setup, s: Session, eval: Eval, accepted: bool)
    requires ConnectFrom(setup, s, eval, accepted).1 == Returned
    ensures var t := ConnectFrom(setup, s, eval, accepted).0;
      && t.vpnclient == Some(Client("", false, ConnInit, true, 0)) && t.connects == s.connects + 1
      && AllDone(t.queue.slots) && HandedOver(setup, t.queue, s.creds, t.creds)
      && t.pkPassword == (if Asked(s.queue, PK_PASSPHRASE) then TextOf(s.queue, PK_PASSPHRASE, "pk_passphrase")
                          else s.pkPassword)
  {
    var (t, ok) := Initialized(setup, s, eval);
    AssembledFields(setup, t.queue, t.creds);
    FoundText(s.queue, PK_PASSPHRASE, "pk_passphrase");
  }

  /** Something the Core library is given: a login, a challenge or proxy credentials. */
  ghost predicate HasCredentials(slots: seq<Slot>) {
    exists i :: 0 <= i < |slots| && slots[i].kind == CREDENTIALS
      && slots[i].group in {USER_PASSWORD, PASSWORD_ONLY, CHALLENGE_DYNAMIC, HTTP_PROXY_CREDS}
  }

  lemma CredentialsAreHandedOver(q: Queue)
    requires |q.slots| < TWO32
    ensures HandsOver(q) <==> HasCredentials(q.slots)
  {
    GroupIsAsked(q, USER_PASSWORD);
    GroupIsAsked(q, PASSWORD_ONLY);
    GroupIsAsked(q, CHALLENGE_DYNAMIC);
    GroupIsAsked(q, HTTP_PROXY_CREDS);
  }

  lemma GroupIsAsked(q: Queue, group: Code)
    requires |q.slots| < TWO32
    ensures Asked(q, group) <==> exists i :: 0 <= i < |q.slots| && InGroup(q.slots[i], CREDENTIALS, group)
  {
    CountIsPresence(q.slots, CREDENTIALS, group);
    CountWithinLength(q.slots, CREDENTIALS, group);
  }

  /**
   * When the Core library refuses, a Connect call that would have started the client throws exactly if there are
   * credentials to refuse; they have been read by then and no client is started.
   */
  lemma RefusedIff(setup: Setup, s: Session, eval: Eval)
    requires ConnectFrom(setup, s, eval, true).1 == Returned
    requires |ConnectFrom(setup, s, eval, true).0.queue.slots| < TWO32
    ensures var t, (u, reply) := ConnectFrom(setup, s, eval, true).0, ConnectFrom(setup, s, eval, false);
      && (reply == Threw <==> HasCredentials(t.queue.slots))
      && u == t.(connects := if reply == Threw then s.connects else s.connects + 1)
  {
    CredentialsAreHandedOver(ConnectFrom(setup, s, eval, true).0.queue);
  }

  /** A step that starts a client is a Connect call past the gate that returns normally. */
  lemma StartIsConnect(setup: Setup, s: Session, step: Step)
    requires step.Connect? && Next(setup, s, step).connects > s.connects
    ensures ConnectFrom(setup, Entered(s), step.eval, step.accepted) == (Next(setup, s, step), Returned)
  {
  }

  lemma StartedStep(setup: Setup, s: Session, step: Step, t: Session)
    requires t == Next(setup, s, step) && step.Connect? && t.connects > s.connects
    ensures t.vpnclient == Some(Client("", false, ConnInit, true, 0)) && t.connects == s.connects + 1
    ensures AllDone(t.queue.slots) && HandedOver(setup, t.queue, s.creds, t.creds)
  {
    StartIsConnect(setup, s, step);
    StartedWith(setup, Entered(s), step.eval, step.accepted);
  }

  lemma StartedAt(setup: Setup, ss: seq<Session>, steps: seq<Step>, i: nat)
    requires IsSessionRun(setup, ss, steps) && i < |steps| && steps[i].Connect? && ss[i + 1].connects > ss[i].connects
    ensures ss[i + 1].vpnclient == Some(Client("", false, ConnInit, true, 0))
    ensures AllDone(ss[i + 1].queue.slots) && HandedOver(setup, ss[i + 1].queue, ss[i].creds, ss[i + 1].creds)
  {
    assert Follows(setup, ss, steps, i);
    StartedStep(setup, ss[i], steps[i], ss[i + 1]);
  }

  lemma AskedTextExists(q: Queue, group: Code, name: string)
    requires Complete(q.slots) && AllDone(q.slots) && Asked(q, group) && name in Names(group)
    ensures FindName(q.slots, CREDENTIALS, group, name) < |q.slots|
  {
    AskedHasResponses(q, group);
    assert Response(q.slots, CREDENTIALS, group, name).Ok?;
  }

  /** Every text read back, except for a cookie, was given by the front-end in this run. */
  lemma AskedTextWasGiven(setup: Setup, ss: seq<Session>, steps: seq<Step>, i: nat, group: Code, name: string)
    requires IsSessionRun(setup, ss, steps) && i <= |steps|
    requires forall k :: 0 <= k <= i ==> |ss[k].queue.slots| < TWO32
    requires AllDone(ss[i].queue.slots) && Asked(ss[i].queue, group)
    requires name in Names(group) && name != "dynamic_challenge_cookie"
    ensures var q := ss[i].queue;
      var j := FindName(q.slots, CREDENTIALS, group, name);
      j < |q.slots| && WasGiven(ss, steps, i, j, TextOf(q, group, name))
  {
    RunComplete(setup, ss, steps, i);
    AskedTextExists(ss[i].queue, group, name);
    ValueWasGiven(setup, ss, steps, i, FindName(ss[i].queue.slots, CREDENTIALS, group, name));
  }

  /**
   * In every run a Connect call that starts the client hands over, field by field, what the first slot of that
   * name holds, and each such text but the cookie is the filtered value the front-end gave for that slot.
   */
  lemma StartedInRun(setup: Setup, ss: seq<Session>, steps: seq<Step>, i: nat, group: Code, name: string)
    requires IsSessionRun(setup, ss, steps) && i < |steps| && steps[i].Connect?
    requires ss[i + 1].connects > ss[i].connects
    requires forall k :: 0 <= k <= i + 1 ==> |ss[k].queue.slots| < TWO32
    ensures HandedOver(setup, ss[i + 1].queue, ss[i].creds, ss[i + 1].creds)
    ensures var q := ss[i + 1].queue;
      var j := FindName(q.slots, CREDENTIALS, group, name);
      Asked(q, group) && name in Names(group) && name != "dynamic_challenge_cookie" ==>
        j < |q.slots| && WasGiven(ss, steps, i + 1, j, TextOf(q, group, name))
  {
    StartedAt(setup, ss, steps, i);
    if Asked(ss[i + 1].queue, group) && name in Names(group) && name != "dynamic_challenge_cookie" {
      AskedTextWasGiven(setup, ss, steps, i + 1, group, name);
    }
  }
}
