/** The slots of one group of credentials over a session (src/client/openvpn3-service-client.cpp). */
module CredentialGroups {
  import opened Outcomes
  import opened RequestQueue
  import opened CoreEvents
  import opened ClientSession

  /** The slots of one group, in queue order. */
  function GroupOf(slots: seq<Slot>, group: Code): seq<Slot> {
    if slots == [] then []
    else (if InGroup(slots[0], CREDENTIALS, group) then [slots[0]] else []) + GroupOf(slots[1..], group)
  }

  lemma {:induction false} GroupOfAppend(a: seq<Slot>, b: seq<Slot>, group: Code)
    ensures GroupOf(a + b, group) == GroupOf(a, group) + GroupOf(b, group)
  {
    if a == [] {
      assert a + b == b;
    } else {
      GroupOfAppend(a[1..], b, group);
      assert (a + b)[0] == a[0] && (a + b)[1..] == a[1..] + b;
      var head := if InGroup(a[0], CREDENTIALS, group) then [a[0]] else [];
      var x, y := GroupOf(a[1..], group), GroupOf(b, group);
      assert head + (x + y) == (head + x) + y;
    }
  }

  /** A lookup by name only sees the slots of its group. */
  lemma {:induction false} ResponseInGroup(slots: seq<Slot>, group: Code, name: string)
    ensures Response(slots, CREDENTIALS, group, name) == Response(GroupOf(slots, group), CREDENTIALS, group, name)
  {
    if slots != [] {
      ResponseInGroup(slots[1..], group, name);
      ResponseStep(slots, group, name);
      var g, rest := GroupOf(slots, group), GroupOf(slots[1..], group);
      if InGroup(slots[0], CREDENTIALS, group) {
        assert g[0] == slots[0] && g[1..] == rest;
        ResponseStep(g, group, name);
      } else {
        assert g == rest;
      }
    }
  }

  lemma ResponseStep(slots: seq<Slot>, group: Code, name: string)
    requires slots != []
    ensures Response(slots, CREDENTIALS, group, name) ==
            if InGroup(slots[0], CREDENTIALS, group) && slots[0].name == name then ResponseAt(slots, 0)
            else Response(slots[1..], CREDENTIALS, group, name)
  {
  }

  /** Values are filled in, nothing provided is touched. */
  ghost predicate Progressed(a: seq<Slot>, b: seq<Slot>) {
    SameShape(a, b) && forall i :: 0 <= i < |a| && a[i].provided ==> b[i] == a[i]
  }

  lemma {:induction false} GroupOfProgressed(a: seq<Slot>, b: seq<Slot>, group: Code)
    requires Progressed(a, b)
    ensures Progressed(GroupOf(a, group), GroupOf(b, group))
  {
    if a != [] {
      assert b[0] == a[0].(value := b[0].value, provided := b[0].provided);
      GroupOfProgressed(a[1..], b[1..], group);
    }
  }

  lemma {:induction false} GroupCount(slots: seq<Slot>, group: Code)
    ensures |GroupOf(slots, group)| == Count(slots, CREDENTIALS, group)
  {
    if slots != [] {
      var init, last := slots[..|slots| - 1], slots[|slots| - 1];
      assert slots == init + [last];
      GroupCount(init, group);
      GroupOfAppend(init, [last], group);
      assert [last][1..] == [];
    }
  }

  lemma GroupOfOne(s: Slot, group: Code)
    ensures GroupOf([s], group) == if InGroup(s, CREDENTIALS, group) then [s] else []
  {
    assert [s][1..] == [];
  }

  /** The groups only events of the server ask for: no call of the backend adds to them. */
  predicate AskedByServer(group: Code) {
    group == CHALLENGE_DYNAMIC || group == CHALLENGE_AUTH_PENDING
  }

  /** A slot of another group leaves the watched one alone. */
  lemma AddOther(q: Queue, group: Code, name: string, description: string, hidden: bool, watch: Code)
    requires Numbered(q) && group < GROUPS && group != watch
    ensures var r := Added(q, CREDENTIALS, group, name, description, hidden);
      Numbered(r) && GroupOf(r.slots, watch) == GroupOf(q.slots, watch)
  {
    AddKeepsNumbering(q, CREDENTIALS, group, name, description, hidden);
    var s := Added(q, CREDENTIALS, group, name, description, hidden).slots[|q.slots|];
    GroupOfAppend(q.slots, [s], watch);
    GroupOfOne(s, watch);
  }

  lemma LoginKeepsGroup(flow: AuthFlow, q: Queue, watch: Code)
    requires Numbered(q) && AskedByServer(watch)
    ensures Numbered(WithLogin(flow, q)) && GroupOf(WithLogin(flow, q).slots, watch) == GroupOf(q.slots, watch)
  {
    AddOther(q, PASSWORD_ONLY, "password", "Auth Password", true, watch);
    AddOther(q, USER_PASSWORD, "username", "Auth User name", false, watch);
    AddOther(Added(q, CREDENTIALS, USER_PASSWORD, "username", "Auth User name", false),
             USER_PASSWORD, "password", "Auth Password", true, watch);
  }

  lemma StaticKeepsGroup(flow: AuthFlow, q: Queue, text: string, echo: bool, watch: Code)
    requires Numbered(q) && AskedByServer(watch)
    ensures var r := WithStaticChallenge(WithLogin(flow, q), text, echo);
      Numbered(r) && GroupOf(r.slots, watch) == GroupOf(q.slots, watch)
  {
    LoginKeepsGroup(flow, q, watch);
    AddOther(WithLogin(flow, q), CHALLENGE_STATIC, "static_challenge", text, !echo, watch);
  }

  lemma EvalKeepsGroup(flow: AuthFlow, q: Queue, pk: string, eval: Eval, watch: Code)
    requires Numbered(q) && eval.Evaluated? && AskedByServer(watch)
    ensures var r := QueueAfterEval(flow, q, pk, eval);
      Numbered(r) && GroupOf(r.slots, watch) == GroupOf(q.slots, watch)
  {
    var login := q;
    if !eval.autologin {
      StaticKeepsGroup(flow, q, eval.staticChallenge, eval.staticEcho, watch);
      login := WithStaticChallenge(WithLogin(flow, q), eval.staticChallenge, eval.staticEcho);
    }
    AddOther(login, PK_PASSPHRASE, "pk_passphrase", "Private key passphrase", true, watch);
  }

  lemma InitializedKeepsGroup(setup: Setup, s: Session, eval: Eval, watch: Code)
    requires Numbered(s.queue) && AskedByServer(watch)
    ensures var q := Initialized(setup, s, eval).0.queue;
      Numbered(q) && GroupOf(q.slots, watch) == GroupOf(s.queue.slots, watch)
  {
    if s.content && KeyPassword(s).Ok? && eval.Evaluated? {
      EvalKeepsGroup(setup.flow, s.queue, KeyPassword(s).value, eval, watch);
    }
  }

  /** Registration, Connect and the calls that only read leave the watched group alone. */
  lemma CallKeepsGroup(setup: Setup, s: Session, step: Step, watch: Code)
    requires Numbered(s.queue) && AskedByServer(watch) && (step.Register? || step.Connect? || step.OtherCall?)
    ensures var t := Next(setup, s, step);
      && Numbered(t.queue) && GroupOf(t.queue.slots, watch) == GroupOf(s.queue.slots, watch)
      && t.challenges == s.challenges && t.replies == s.replies
  {
    var e := Entered(s);
    if step.Register? {
      InitializedKeepsGroup(setup, e.(registered := true, content := step.fetched), step.eval, watch);
    } else if step.Connect? {
      InitializedKeepsGroup(setup, e, step.eval, watch);
    }
  }

  /** A provided value only fills slots in. */
  lemma ProvideFills(s: Session, kind: Code, group: Code, id: U32, value: string, watch: Code)
    requires Numbered(s.queue)
    ensures var q := Provided(s, kind, group, id, value).0.queue;
      && Numbered(q) && Progressed(GroupOf(s.queue.slots, watch), GroupOf(q.slots, watch))
  {
    var q := Provided(s, kind, group, id, value).0.queue;
    ShapeKeepsNumbering(s.queue, q.slots);
    assert q == s.queue.(slots := q.slots);
    GroupOfProgressed(s.queue.slots, q.slots, watch);
  }

  /** An update of the last slot of a queue. */
  lemma LastSlotFilled(q: Queue, value: string)
    requires Numbered(q) && 0 < |q.slots| <= TWO32 && !q.slots[|q.slots| - 1].provided
    ensures var n := |q.slots| - 1;
      var r := Updated(q, q.slots[n].kind, q.slots[n].group, q.slots[n].id, value);
      r.Ok? && Numbered(r.value) && r.value.slots == q.slots[..n] + [Filled(q.slots[n], value)]
  {
    var n := |q.slots| - 1;
    CountWithinLength(q.slots, q.slots[n].kind, q.slots[n].group);
    UpdateFillsNamedSlot(q, n, value);
    ShapeKeepsNumbering(q, q.slots[n := Filled(q.slots[n], value)]);
  }

  lemma ChallengeNumbered(q: Queue, cookie: string, ch: Challenge)
    requires Numbered(q)
    ensures Numbered(ChallengeQueued(q, cookie, ch))
  {
    AddKeepsNumbering(q, CREDENTIALS, CHALLENGE_DYNAMIC, "dynamic_challenge", ch.text, !ch.echo);
    AddKeepsNumbering(Added(q, CREDENTIALS, CHALLENGE_DYNAMIC, "dynamic_challenge", ch.text, !ch.echo),
                      CREDENTIALS, CHALLENGE_DYNAMIC, "dynamic_challenge_cookie", "", true);
  }

  /** The queue after a challenge: its question is pending, its cookie is filled in. */
  lemma ChallengeSlots(q: Queue, cookie: string, ch: Challenge)
    requires Numbered(q) && |q.slots| + 2 <= TWO32
    ensures var r := ChallengeStored(q, cookie, ch);
      var n := |q.slots|;
      var q2 := ChallengeQueued(q, cookie, ch);
      && r.Ok? && Numbered(r.value)
      && r.value.slots == q.slots + [q2.slots[n], Filled(q2.slots[n + 1], cookie)]
  {
    ChallengeNumbered(q, cookie, ch);
    LastSlotFilled(ChallengeQueued(q, cookie, ch), cookie);
  }
}
