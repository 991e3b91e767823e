/** Which event sends which status, for one event and over every sequence of them (src/client/core-client.hpp). */
module EventStatuses {
  import opened Outcomes
  import opened RequestQueue
  import opened CoreEvents
  import opened EventRuns

  // ---------------------------------------------------------------- INFO texts

  /** The user is sent to a web page. */
  predicate SendsToUrl(text: string) {
    "OPEN_URL:" <= text || ("WEB_AUTH:" <= text && ':' in text[9..])
  }

  predicate RequestsText(text: string, pending: bool) {
    pending && "CR_TEXT:" <= text
  }

  lemma PrefixesDiffer(text: string)
    ensures "CR_TEXT:" <= text ==> !("OPEN_URL:" <= text) && !("WEB_AUTH:" <= text)
    ensures "OPEN_URL:" <= text ==> !("WEB_AUTH:" <= text)
  {
    assert "CR_TEXT:"[0] == 'C' && "OPEN_URL:"[0] == 'O' && "WEB_AUTH:"[0] == 'W';
  }

  lemma KindByPrefix(text: string, pending: bool)
    ensures KindOfInfo(text, pending) == OpenUrl <==> SendsToUrl(text)
    ensures KindOfInfo(text, pending) == CrTextRequest <==> RequestsText(text, pending)
  {
    PrefixesDiffer(text);
  }

  // ---------------------------------------------------------------- one event

  predicate ReportsFailure(ev: CoreEvent) {
    match ev
    case CompressError | TunSetupFailed | TunIfaceCreate | TunIfaceDisabled | CertVerifyFail | TlsVersionMin
       | TlsSigAlg | TlsAlertMisc | ProxyError | ClientHalt => true
    case _ => false
  }

  /** A request for a text that cannot be read; one that asks for a reply. */
  predicate Unreadable(ev: CoreEvent, pending: bool) {
    ev.Info? && RequestsText(ev.text, pending) && !ParsedCrText(ev.text).valid
  }

  predicate AsksForReply(ev: CoreEvent, pending: bool) {
    ev.Info? && RequestsText(ev.text, pending) && ParsedCrText(ev.text).valid && ParsedCrText(ev.text).response
  }

  /**
   * The event sends this status, told from the event, the flags and status of the client, and whether the event
   * throws.
   */
  predicate Announces(c: Client, ev: CoreEvent, threw: bool, status: Status) {
    match status
    case ConnConnecting => ev.Connecting? && c.runStatus != ConnReconnecting
    case ConnConnected => ev.Connected?
    case ConnReconnecting => ev.Reconnecting? && !c.initialConnection
    case ConnDisconnecting => ev.ConnectionTimeout? || ev.InactiveTimeout?
    case ConnDisconnected =>
      ev.Disconnected? && !c.failedSignalSent && c.runStatus != ConnAuthFailed && c.runStatus != CfgRequireUser
    case ConnFailed => ReportsFailure(ev)
    case ConnAuthFailed => ev.AuthFailed? || Unreadable(ev, c.authPendingTimeout != 0)
    case SessAuthUrl => ev.Info? && SendsToUrl(ev.text)
    case CfgRequireUser =>
      ev.ProxyNeedCreds? || AsksForReply(ev, c.authPendingTimeout != 0)
        || (ev.DynamicChallenge? && ev.parsed.Some? && !threw)
    case ConnInit | SessAuthChallenge => false
  }

  /** Exactly then the status is sent. */
  lemma SentIff(atoi: string -> int, installed: bool, c: Client, q: Queue, ev: CoreEvent, status: Status)
    ensures var r := React(atoi, installed, c, q, ev);
      status in r.sent <==> Announces(c, ev, r.threw, status)
  {
    if ev.Info? {
      InfoSends(atoi, installed, c, q, ev.text, status);
    } else if ev.DynamicChallenge? {
      ChallengeSends(atoi, installed, c, q, ev, status);
    }
  }

  lemma InfoSends(atoi: string -> int, installed: bool, c: Client, q: Queue, text: string, status: Status)
    ensures var r := React(atoi, installed, c, q, Info(text));
      status in r.sent <==> Announces(c, Info(text), r.threw, status)
  {
    var pending := c.authPendingTimeout != 0;
    KindByPrefix(text, pending);
    PrefixesDiffer(text);
    if KindOfInfo(text, pending) == CrTextRequest {
      assert React(atoi, installed, c, q, Info(text)) == ReactToCrText(c, q, text);
    }
  }

  lemma ChallengeSends(atoi: string -> int, installed: bool, c: Client, q: Queue, ev: CoreEvent, status: Status)
    requires ev.DynamicChallenge?
    ensures var r := React(atoi, installed, c, q, ev);
      status in r.sent <==> Announces(c, ev, r.threw, status)
  {
    var r := React(atoi, installed, c, q, ev);
    assert r.sent == if ev.parsed.Some? && !r.threw then [CfgRequireUser] else [];
  }

  /** Nothing but a dynamic challenge throws. */
  lemma OnlyChallengesThrow(atoi: string -> int, installed: bool, c: Client, q: Queue, ev: CoreEvent)
    ensures React(atoi, installed, c, q, ev).threw ==> ev.DynamicChallenge? && ev.parsed.Some?
  {
    if ev.Info? && KindOfInfo(ev.text, c.authPendingTimeout != 0) == CrTextRequest {
      assert React(atoi, installed, c, q, ev) == ReactToCrText(c, q, ev.text);
    }
  }

  // ---------------------------------------------------------------- over a run

  /** The last status sent before event `i`; a new client has sent none. */
  function LastSent(t: Trace, i: nat): Option<Status>
    requires i <= |t.sent|
  {
    var last := LastSender(t.sent[..i]);
    if last.Some? then Some(t.sent[..i][last.value][0]) else None
  }

  /** The same told from the events alone and what they sent before. */
  ghost predicate AnnouncedAt(atoi: string -> int, t: Trace, i: nat, status: Status)
    requires Shaped(t) && i < |t.events|
  {
    var ev, pending := t.events[i], LastTimeout(atoi, t.events[..i]) != 0;
    match status
    case ConnConnecting => ev.Connecting? && LastSent(t, i) != Some(ConnReconnecting)
    case ConnConnected => ev.Connected?
    case ConnReconnecting => ev.Reconnecting? && exists j :: 0 <= j < i && t.events[j].Connected?
    case ConnDisconnecting => ev.ConnectionTimeout? || ev.InactiveTimeout?
    case ConnDisconnected =>
      ev.Disconnected? && !WaitsForUser(t, i) && forall j :: 0 <= j < i ==> !FlagsAt(atoi, t.events, j)
    case ConnFailed => ReportsFailure(ev)
    case ConnAuthFailed => ev.AuthFailed? || Unreadable(ev, pending)
    case SessAuthUrl => ev.Info? && SendsToUrl(ev.text)
    case CfgRequireUser =>
      ev.ProxyNeedCreds? || AsksForReply(ev, pending)
        || (ev.DynamicChallenge? && ev.parsed.Some? && !ReactionAt(atoi, t, i).threw)
    case ConnInit | SessAuthChallenge => false
  }

  lemma ReconnectingIsLastSent(atoi: string -> int, t: Trace, i: nat)
    requires IsEventRun(atoi, t) && i <= |t.events|
    ensures t.clients[i].runStatus == ConnReconnecting <==> LastSent(t, i) == Some(ConnReconnecting)
  {
    StatusIsLastSent(atoi, t, i);
  }

  /** In every run of one client object each status is sent at exactly these events. */
  lemma SentInRun(atoi: string -> int, t: Trace, i: nat, status: Status)
    requires IsEventRun(atoi, t) && i < |t.events|
    ensures status in t.sent[i] <==> AnnouncedAt(atoi, t, i, status)
  {
    EveryEvent(atoi, t);
    TimeoutIsLast(atoi, t, i);
    SentIff(atoi, t.installed[i], t.clients[i], t.queues[i], t.events[i], status);
    if status == ConnConnecting {
      ReconnectingIsLastSent(atoi, t, i);
    } else if status == ConnReconnecting {
      InitialUntilConnected(atoi, t, i);
    } else if status == ConnDisconnected {
      DisconnectSentIff(atoi, t, i);
    }
  }

  lemma DisconnectSentIff(atoi: string -> int, t: Trace, i: nat)
    requires IsEventRun(atoi, t) && i < |t.events|
    ensures ConnDisconnected in t.sent[i] <==> AnnouncedAt(atoi, t, i, ConnDisconnected)
  {
    SentIff(atoi, t.installed[i], t.clients[i], t.queues[i], t.events[i], ConnDisconnected);
    if t.events[i].Disconnected? {
      DisconnectIsSent(atoi, t, i);
    }
  }

  /** A connected status is sent exactly at the CONNECTED events, and then it is the run status. */
  lemma ConnectedAt(atoi: string -> int, t: Trace, i: nat)
    requires IsEventRun(atoi, t) && i < |t.events|
    ensures ConnConnected in t.sent[i] <==> t.events[i].Connected?
    ensures t.clients[i + 1].runStatus == ConnConnected <==>
      t.events[i].Connected? || (t.sent[i] == [] && t.clients[i].runStatus == ConnConnected)
  {
    EveryEvent(atoi, t);
    SentInRun(atoi, t, i, ConnConnected);
    assert Possible(atoi, t.clients[i], t.events[i], t.clients[i + 1], t.sent[i]);
    if t.sent[i] != [] {
      assert t.sent[i] == [t.sent[i][0]];
    }
  }
}
