/**
 * Which dynamic challenge a Connect call answers (src/client/core-client.hpp,
 * src/client/openvpn3-service-client.cpp).
 */
module DynamicChallenges {
  import opened Outcomes
  import opened TextFilter
  import opened RequestQueue
  import opened CoreEvents
  import opened ClientSession
  import opened CredentialGroups

  /** The slots of the dynamic challenges received: for each its question, then its cookie, already filled in. */
  ghost predicate Paired(g: seq<Slot>, challenges: seq<(string, Challenge)>) {
    && |g| == 2 * |challenges|
    && forall k :: 0 <= k < |challenges| ==>
         && InGroup(g[2 * k], CREDENTIALS, CHALLENGE_DYNAMIC) && InGroup(g[2 * k + 1], CREDENTIALS, CHALLENGE_DYNAMIC)
         && g[2 * k].name == "dynamic_challenge" && g[2 * k].description == challenges[k].1.text
         && g[2 * k + 1].name == "dynamic_challenge_cookie" && g[2 * k + 1].provided
         && g[2 * k + 1].value == FilterCtrlChars(challenges[k].0, true)
  }

  lemma PairedProgressed(a: seq<Slot>, b: seq<Slot>, challenges: seq<(string, Challenge)>)
    requires Paired(a, challenges) && Progressed(a, b)
    ensures Paired(b, challenges)
  {
    forall k | 0 <= k < |challenges|
      ensures b[2 * k] == a[2 * k].(value := b[2 * k].value, provided := b[2 * k].provided)
      ensures b[2 * k + 1] == a[2 * k + 1]
    {
    }
  }

  lemma PairedAppend(g: seq<Slot>, challenges: seq<(string, Challenge)>, s: Slot, t: Slot, cookie: string,
                     ch: Challenge)
    requires Paired(g, challenges)
    requires InGroup(s, CREDENTIALS, CHALLENGE_DYNAMIC) && InGroup(t, CREDENTIALS, CHALLENGE_DYNAMIC)
    requires s.name == "dynamic_challenge" && s.description == ch.text
    requires t.name == "dynamic_challenge_cookie" && t.provided && t.value == FilterCtrlChars(cookie, true)
    ensures Paired(g + [s, t], challenges + [(cookie, ch)])
  {
  }

  ghost predicate PairedSession(s: Session) {
    Numbered(s.queue) && Paired(GroupOf(s.queue.slots, CHALLENGE_DYNAMIC), s.challenges)
  }

  lemma GroupOfPair(s: Slot, t: Slot)
    requires InGroup(s, CREDENTIALS, CHALLENGE_DYNAMIC) && InGroup(t, CREDENTIALS, CHALLENGE_DYNAMIC)
    ensures GroupOf([s, t], CHALLENGE_DYNAMIC) == [s, t]
  {
    GroupOfAppend([s], [t], CHALLENGE_DYNAMIC);
    GroupOfOne(s, CHALLENGE_DYNAMIC);
    GroupOfOne(t, CHALLENGE_DYNAMIC);
    assert [s] + [t] == [s, t];
  }

  lemma ChallengePairs(q: Queue, challenges: seq<(string, Challenge)>, cookie: string, ch: Challenge)
    requires Numbered(q) && |q.slots| + 2 <= TWO32
    requires Paired(GroupOf(q.slots, CHALLENGE_DYNAMIC), challenges)
    ensures var r := ChallengeStored(q, cookie, ch);
      && r.Ok? && Numbered(r.value)
      && Paired(GroupOf(r.value.slots, CHALLENGE_DYNAMIC), challenges + [(cookie, ch)])
  {
    ChallengeSlots(q, cookie, ch);
    var n, q2 := |q.slots|, ChallengeQueued(q, cookie, ch);
    var s, t := q2.slots[n], Filled(q2.slots[n + 1], cookie);
    GroupOfAppend(q.slots, [s, t], CHALLENGE_DYNAMIC);
    GroupOfPair(s, t);
    PairedAppend(GroupOf(q.slots, CHALLENGE_DYNAMIC), challenges, s, t, cookie, ch);
  }

  lemma OtherEventKeepsChallenges(setup: Setup, installed: bool, c: Client, q: Queue, ev: CoreEvent)
    requires Numbered(q) && !(ev.DynamicChallenge? && ev.parsed.Some?)
    ensures var r := React(setup.atoi, installed, c, q, ev).queue;
      Numbered(r) && GroupOf(r.slots, CHALLENGE_DYNAMIC) == GroupOf(q.slots, CHALLENGE_DYNAMIC)
  {
    if ev.ProxyNeedCreds? {
      AddOther(q, HTTP_PROXY_CREDS, "http_proxy_user", "HTTP proxy username", false, CHALLENGE_DYNAMIC);
      AddOther(Added(q, CREDENTIALS, HTTP_PROXY_CREDS, "http_proxy_user", "HTTP proxy username", false),
               HTTP_PROXY_CREDS, "http_proxy_pass", "HTTP proxy password", true, CHALLENGE_DYNAMIC);
    } else if ev.Info? {
      var cr := ParsedCrText(ev.text);
      AddOther(q, CHALLENGE_AUTH_PENDING, "auth_pending", cr.challenge, cr.echo, CHALLENGE_DYNAMIC);
    }
  }

  lemma ChallengeLength(installed: bool, c: Client, q: Queue, cookie: string, ch: Challenge)
    ensures |ReactToChallenge(installed, c, q, cookie, ch).queue.slots| == |q.slots| + 2
  {
    assert |ChallengeQueued(q, cookie, ch).slots| == |q.slots| + 2;
  }

  lemma ChallengeEventPairs(installed: bool, c: Client, q: Queue, challenges: seq<(string, Challenge)>,
                            cookie: string, ch: Challenge)
    requires Numbered(q) && Paired(GroupOf(q.slots, CHALLENGE_DYNAMIC), challenges)
    requires |ReactToChallenge(installed, c, q, cookie, ch).queue.slots| <= TWO32
    ensures var r := ReactToChallenge(installed, c, q, cookie, ch).queue;
      Numbered(r) && Paired(GroupOf(r.slots, CHALLENGE_DYNAMIC), challenges + [(cookie, ch)])
  {
    ChallengeLength(installed, c, q, cookie, ch);
    ChallengePairs(q, challenges, cookie, ch);
  }

  lemma EventKeepsPairs(setup: Setup, s: Session, older: Option<Client>, ev: CoreEvent)
    requires PairedSession(s) && |Happened(setup, s, older, ev).queue.slots| <= TWO32
    ensures PairedSession(Happened(setup, s, older, ev))
  {
    if Affected(s, older).Some? {
      var c, installed := Affected(s, older).value, s.vpnclient.Some?;
      if ev.DynamicChallenge? && ev.parsed.Some? {
        ChallengeEventPairs(installed, c, s.queue, s.challenges, ev.cookie, ev.parsed.value);
      } else {
        OtherEventKeepsChallenges(setup, installed, c, s.queue, ev);
      }
    }
  }

  lemma StepKeepsPairs(setup: Setup, s: Session, step: Step)
    requires PairedSession(s) && |Next(setup, s, step).queue.slots| <= TWO32
    ensures PairedSession(Next(setup, s, step))
  {
    if step.Event? {
      EventKeepsPairs(setup, s, step.older, step.ev);
    } else if step.Provide? {
      var e := Entered(s);
      ProvideFills(e, step.kind, step.group, step.id, step.value, CHALLENGE_DYNAMIC);
      PairedProgressed(GroupOf(s.queue.slots, CHALLENGE_DYNAMIC),
                       GroupOf(Next(setup, s, step).queue.slots, CHALLENGE_DYNAMIC), s.challenges);
    } else {
      CallKeepsGroup(setup, s, step, CHALLENGE_DYNAMIC);
    }
  }

  lemma NextKeepsPairs(setup: Setup, ss: seq<Session>, steps: seq<Step>, i: nat)
    requires |ss| == |steps| + 1 && i < |steps| && Follows(setup, ss, steps, i)
    requires PairedSession(ss[i]) && |ss[i + 1].queue.slots| <= TWO32
    ensures PairedSession(ss[i + 1])
  {
    StepKeepsPairs(setup, ss[i], steps[i]);
  }

  lemma {:induction false} RunKeepsPairs(setup: Setup, ss: seq<Session>, steps: seq<Step>, i: nat)
    requires IsSessionRun(setup, ss, steps) && i <= |steps|
    requires forall j :: 0 <= j <= i ==> |ss[j].queue.slots| <= TWO32
    ensures PairedSession(ss[i])
  {
    if i > 0 {
      RunKeepsPairs(setup, ss, steps, i - 1);
      NextKeepsPairs(setup, ss, steps, i - 1);
    } else {
      assert Numbered(EMPTY);
    }
  }

  /**
   * The cookie and the response a Connect call hands over belong to the same server challenge, however
   * many arrived: always to the first one, even when the server has sent newer ones since.
   */
  lemma SameChallenge(setup: Setup, ss: seq<Session>, steps: seq<Step>, i: nat, c: Creds)
    requires IsSessionRun(setup, ss, steps) && i <= |steps|
    requires forall j :: 0 <= j <= i ==> |ss[j].queue.slots| < TWO32
    requires ss[i].challenges != [] && ChallengeCreds(ss[i].queue, c).Ok?
    ensures var g := GroupOf(ss[i].queue.slots, CHALLENGE_DYNAMIC);
      && |g| >= 2 && g[0].provided && g[0].description == ss[i].challenges[0].1.text
      && ChallengeCreds(ss[i].queue, c).value ==
           c.(cookie := FilterCtrlChars(ss[i].challenges[0].0, true), response := g[0].value)
  {
    RunKeepsPairs(setup, ss, steps, i);
    ReadsFirstPair(ss[i].queue, ss[i].challenges, c);
  }

  lemma ReadsFirstPair(q: Queue, challenges: seq<(string, Challenge)>, c: Creds)
    requires Paired(GroupOf(q.slots, CHALLENGE_DYNAMIC), challenges) && challenges != [] && |q.slots| < TWO32
    requires ChallengeCreds(q, c).Ok?
    ensures var g := GroupOf(q.slots, CHALLENGE_DYNAMIC);
      && g[0].provided && g[0].description == challenges[0].1.text
      && ChallengeCreds(q, c).value == c.(cookie := FilterCtrlChars(challenges[0].0, true), response := g[0].value)
  {
    GroupCount(q.slots, CHALLENGE_DYNAMIC);
    CountWithinLength(q.slots, CREDENTIALS, CHALLENGE_DYNAMIC);
    ResponseInGroup(q.slots, CHALLENGE_DYNAMIC, "dynamic_challenge");
    ResponseInGroup(q.slots, CHALLENGE_DYNAMIC, "dynamic_challenge_cookie");
    FirstPair(GroupOf(q.slots, CHALLENGE_DYNAMIC), challenges);
  }

  /** A lookup in the challenges' slots finds the first challenge. */
  lemma FirstPair(g: seq<Slot>, challenges: seq<(string, Challenge)>)
    requires Paired(g, challenges) && challenges != []
    ensures Response(g, CREDENTIALS, CHALLENGE_DYNAMIC, "dynamic_challenge") == ResponseAt(g, 0)
    ensures Response(g, CREDENTIALS, CHALLENGE_DYNAMIC, "dynamic_challenge_cookie") ==
      Ok(FilterCtrlChars(challenges[0].0, true))
    ensures g[0].description == challenges[0].1.text
  {
    var k := 0;
    assert g[2 * k].name == "dynamic_challenge" && g[2 * k + 1].name == "dynamic_challenge_cookie";
    assert "dynamic_challenge" != "dynamic_challenge_cookie" by {
      assert |"dynamic_challenge"| != |"dynamic_challenge_cookie"|;
    }
    ResponseStep(g, CHALLENGE_DYNAMIC, "dynamic_challenge");
    ResponseStep(g, CHALLENGE_DYNAMIC, "dynamic_challenge_cookie");
    ResponseStep(g[1..], CHALLENGE_DYNAMIC, "dynamic_challenge_cookie");
  }
}
