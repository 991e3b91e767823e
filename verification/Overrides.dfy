/** Configuration overrides: their schema and what the VPN client makes of them
    (src/configmgr/overrides.hpp, src/client/openvpn3-service-client.cpp). */
module Overrides {
  import opened Outcomes

  datatype Value = Text(text: string) | Flag(flag: bool)

  datatype Override = Override(key: string, value: Value)

  const TEXT_KEYS: set<string> := {
    "server-override", "port-override", "proto-override", "ipv6", "log-level", "dns-scope",
    "allow-compression", "tls-version-min", "tls-cert-profile", "proxy-host", "proxy-port",
    "proxy-username", "proxy-password", "enterprise-profile", "automatic-restart", "connection-timeout"}

  const FLAG_KEYS: set<string> := {
    "persist-tun", "dns-fallback-google", "dns-setup-disabled", "dns-sync-lookup", "auth-fail-retry",
    "enable-legacy-algorithms", "proxy-auth-cleartext"}

  /** The alternative the schema table holds for a key. */
  datatype Kind = TextKind | FlagKind

  function SchemaKind(key: string): Option<Kind> {
    if key in TEXT_KEYS then Some(TextKind)
    else if key in FLAG_KEYS then Some(FlagKind)
    else None
  }

  function KindOf(v: Value): Kind {
    if v.Text? then TextKind else FlagKind
  }

  /** Which keys there are and which alternative each holds; `SCHEMA` is the real table. */
  type Schema = string -> Option<Kind>

  const SCHEMA: Schema := (key: string) => SchemaKind(key)

  predicate InSchema(schema: Schema, ov: Override) {
    schema(ov.key) == Some(KindOf(ov.value))
  }

  ghost predicate UniqueKeys(list: seq<Override>) {
    forall i, j :: 0 <= i < j < |list| ==> list[i].key != list[j].key
  }

  ghost predicate WellTyped(schema: Schema, list: seq<Override>) {
    forall i :: 0 <= i < |list| ==> InSchema(schema, list[i])
  }

  // ---------------------------------------------------------------- the client side

  /** The client settings an override is stored in. */
  datatype Setting =
    | ServerOverride | PortOverride | ProtoOverride | AllowUnusedAddrFamilies | LogLevel
    | GoogleDnsFallback | IgnoreDnsCfg | DnsScope | SynchronousDnsLookup | RetryOnAuthFailed
    | CompressionMode | EnableNonPreferredDCAlgorithms | TlsVersionMinOverride | TlsCertProfileOverride
    | TunPersist | ProxyHost | ProxyPort | ProxyUsername | ProxyPassword | ProxyAllowCleartextAuth
    | EnterpriseId | AutomaticRestart | ConnTimeout

  datatype SettingValue = STextValue(text: string) | SFlagValue(flag: bool) | SNumberValue(number: int)

  type Settings = map<Setting, SettingValue>

  /** C library number conversions; `stoi` may throw. */
  datatype Numbers = Numbers(atoi: string -> int, stoi: string -> Option<int>)

  /** Keys about the server and the log. */
  function RemoteTarget(key: string): Option<Setting> {
    if key == "server-override" then Some(ServerOverride)
    else if key == "port-override" then Some(PortOverride)
    else if key == "proto-override" then Some(ProtoOverride)
    else if key == "ipv6" then Some(AllowUnusedAddrFamilies)
    else if key == "log-level" then Some(LogLevel)
    else None
  }

  /** Keys about name resolution. */
  function ResolverTarget(key: string): Option<Setting> {
    if key == "dns-fallback-google" then Some(GoogleDnsFallback)
    else if key == "dns-setup-disabled" then Some(IgnoreDnsCfg)
    else if key == "dns-scope" then Some(DnsScope)
    else if key == "dns-sync-lookup" then Some(SynchronousDnsLookup)
    else None
  }

  /** Keys about authentication, TLS and the tunnel. */
  function TunnelTarget(key: string): Option<Setting> {
    if key == "auth-fail-retry" then Some(RetryOnAuthFailed)
    else if key == "allow-compression" then Some(CompressionMode)
    else if key == "enable-legacy-algorithms" then Some(EnableNonPreferredDCAlgorithms)
    else if key == "tls-version-min" then Some(TlsVersionMinOverride)
    else if key == "tls-cert-profile" then Some(TlsCertProfileOverride)
    else if key == "persist-tun" then Some(TunPersist)
    else None
  }

  /** Keys about the HTTP proxy. */
  function ProxyTarget(key: string): Option<Setting> {
    if key == "proxy-host" then Some(ProxyHost)
    else if key == "proxy-port" then Some(ProxyPort)
    else if key == "proxy-username" then Some(ProxyUsername)
    else if key == "proxy-password" then Some(ProxyPassword)
    else if key == "proxy-auth-cleartext" then Some(ProxyAllowCleartextAuth)
    else None
  }

  /** Keys about the session. */
  function SessionTarget(key: string): Option<Setting> {
    if key == "enterprise-profile" then Some(EnterpriseId)
    else if key == "automatic-restart" then Some(AutomaticRestart)
    else if key == "connection-timeout" then Some(ConnTimeout)
    else None
  }

  /** The dispatch on the key; every comparison is exact, so the order of the groups does not matter. */
  function Target(key: string): Option<Setting> {
    if RemoteTarget(key).Some? then RemoteTarget(key)
    else if ResolverTarget(key).Some? then ResolverTarget(key)
    else if TunnelTarget(key).Some? then TunnelTarget(key)
    else if ProxyTarget(key).Some? then ProxyTarget(key)
    else SessionTarget(key)
  }

  /** The alternative `std::get` asks for when the setting is assigned. */
  function Wanted(s: Setting): Kind {
    match s
    case GoogleDnsFallback | IgnoreDnsCfg | SynchronousDnsLookup | RetryOnAuthFailed
       | EnableNonPreferredDCAlgorithms | TunPersist | ProxyAllowCleartextAuth => FlagKind
    case _ => TextKind
  }

  /**
   * What one override does: assign a setting, nothing, or throw.  Every failure to read the connection
   * timeout is caught.
   */
  datatype Effect = Assign(setting: Setting, value: SettingValue) | Ignore | Throw

  function EffectOf(num: Numbers, ov: Override): Effect {
    match Target(ov.key)
    case None => Ignore
    case Some(setting) =>
      if KindOf(ov.value) != Wanted(setting) then (if setting == ConnTimeout then Ignore else Throw)
      else if setting == LogLevel then
        var level := num.atoi(ov.value.text);
        if 0 <= level <= 6 then Assign(LogLevel, SNumberValue(level)) else Throw
      else if setting == DnsScope then
        if ov.value.text == "global" || ov.value.text == "tunnel" then Assign(DnsScope, STextValue(ov.value.text))
        else Ignore
      else if setting == ConnTimeout then
        match num.stoi(ov.value.text)
        case Some(n) => Assign(ConnTimeout, SNumberValue(n))
        case None => Ignore
      else if ov.value.Text? then Assign(setting, STextValue(ov.value.text))
      else Assign(setting, SFlagValue(ov.value.flag))
  }

  /** The key a setting belongs to. */
  function KeyOf(s: Setting): string {
    match s
    case ServerOverride => "server-override"
    case PortOverride => "port-override"
    case ProtoOverride => "proto-override"
    case AllowUnusedAddrFamilies => "ipv6"
    case LogLevel => "log-level"
    case GoogleDnsFallback => "dns-fallback-google"
    case IgnoreDnsCfg => "dns-setup-disabled"
    case DnsScope => "dns-scope"
    case SynchronousDnsLookup => "dns-sync-lookup"
    case RetryOnAuthFailed => "auth-fail-retry"
    case CompressionMode => "allow-compression"
    case EnableNonPreferredDCAlgorithms => "enable-legacy-algorithms"
    case TlsVersionMinOverride => "tls-version-min"
    case TlsCertProfileOverride => "tls-cert-profile"
    case TunPersist => "persist-tun"
    case ProxyHost => "proxy-host"
    case ProxyPort => "proxy-port"
    case ProxyUsername => "proxy-username"
    case ProxyPassword => "proxy-password"
    case ProxyAllowCleartextAuth => "proxy-auth-cleartext"
    case EnterpriseId => "enterprise-profile"
    case AutomaticRestart => "automatic-restart"
    case ConnTimeout => "connection-timeout"
  }

  lemma RemoteTargetIsInvertible(key: string)
    requires RemoteTarget(key).Some?
    ensures KeyOf(RemoteTarget(key).value) == key
  {
  }

  lemma ResolverTargetIsInvertible(key: string)
    requires ResolverTarget(key).Some?
    ensures KeyOf(ResolverTarget(key).value) == key
  {
  }

  lemma TunnelTargetIsInvertible(key: string)
    requires TunnelTarget(key).Some?
    ensures KeyOf(TunnelTarget(key).value) == key
  {
  }

  lemma ProxyTargetIsInvertible(key: string)
    requires ProxyTarget(key).Some?
    ensures KeyOf(ProxyTarget(key).value) == key
  {
  }

  lemma SessionTargetIsInvertible(key: string)
    requires SessionTarget(key).Some?
    ensures KeyOf(SessionTarget(key).value) == key
  {
  }

  /** `KeyOf` inverts the dispatch, so different keys never share a setting. */
  lemma TargetIsInvertible(key: string)
    requires Target(key).Some?
    ensures KeyOf(Target(key).value) == key
  {
    if RemoteTarget(key).Some? {
      RemoteTargetIsInvertible(key);
    } else if ResolverTarget(key).Some? {
      ResolverTargetIsInvertible(key);
    } else if TunnelTarget(key).Some? {
      TunnelTargetIsInvertible(key);
    } else if ProxyTarget(key).Some? {
      ProxyTargetIsInvertible(key);
    } else {
      SessionTargetIsInvertible(key);
    }
  }

  lemma RemoteKey(s: Setting)
    requires s in {ServerOverride, PortOverride, ProtoOverride, AllowUnusedAddrFamilies, LogLevel}
    ensures RemoteTarget(KeyOf(s)) == Some(s)
  {
  }

  lemma ResolverKey(s: Setting)
    requires s in {GoogleDnsFallback, IgnoreDnsCfg, DnsScope, SynchronousDnsLookup}
    ensures RemoteTarget(KeyOf(s)).None? && ResolverTarget(KeyOf(s)) == Some(s)
  {
  }

  lemma TunnelKey(s: Setting)
    requires s in {RetryOnAuthFailed, CompressionMode, EnableNonPreferredDCAlgorithms, TlsVersionMinOverride,
                   TlsCertProfileOverride, TunPersist}
    ensures RemoteTarget(KeyOf(s)).None? && ResolverTarget(KeyOf(s)).None? && TunnelTarget(KeyOf(s)) == Some(s)
  {
  }

  lemma ProxyKey(s: Setting)
    requires s in {ProxyHost, ProxyPort, ProxyUsername, ProxyPassword, ProxyAllowCleartextAuth}
    ensures RemoteTarget(KeyOf(s)).None? && ResolverTarget(KeyOf(s)).None? && TunnelTarget(KeyOf(s)).None?
    ensures ProxyTarget(KeyOf(s)) == Some(s)
  {
  }

  lemma SessionKey(s: Setting)
    requires s in {EnterpriseId, AutomaticRestart, ConnTimeout}
    ensures RemoteTarget(KeyOf(s)).None? && ResolverTarget(KeyOf(s)).None? && TunnelTarget(KeyOf(s)).None?
    ensures ProxyTarget(KeyOf(s)).None? && SessionTarget(KeyOf(s)) == Some(s)
  {
  }

  /** Every setting has a key that is dispatched to it. */
  lemma KeyIsDispatched(s: Setting)
    ensures Target(KeyOf(s)) == Some(s)
  {
    if s in {ServerOverride, PortOverride, ProtoOverride, AllowUnusedAddrFamilies, LogLevel} {
      RemoteKey(s);
    } else if s in {GoogleDnsFallback, IgnoreDnsCfg, DnsScope, SynchronousDnsLookup} {
      ResolverKey(s);
    } else if s in {ProxyHost, ProxyPort, ProxyUsername, ProxyPassword, ProxyAllowCleartextAuth} {
      ProxyKey(s);
    } else if s in {EnterpriseId, AutomaticRestart, ConnTimeout} {
      SessionKey(s);
    } else {
      TunnelKey(s);
    }
  }

  /** Every key of the schema is dispatched, and with the schema's own alternative. */
  lemma DispatchMatchesSchema(key: string)
    requires SchemaKind(key).Some?
    ensures Target(key).Some? && Wanted(Target(key).value) == SchemaKind(key).value
  {
  }

  /** No `std::get` fails on schema typed overrides; only a log level outside 0-6 can throw. */
  lemma OnlyLogLevelThrows(num: Numbers, ov: Override)
    requires InSchema(SCHEMA, ov)
    ensures EffectOf(num, ov) == Throw <==> ov.key == "log-level" && !(0 <= num.atoi(ov.value.text) <= 6)
  {
    DispatchMatchesSchema(ov.key);
  }

  /**
   * The overrides with a known key the client throws on: a value of the wrong alternative, unless it is the
   * connection timeout, and a log level outside 0-6.
   */
  predicate Offends(num: Numbers, ov: Override) {
    if SchemaKind(ov.key) != Some(KindOf(ov.value)) then ov.key != "connection-timeout"
    else ov.key == "log-level" && ov.value.Text? && !(0 <= num.atoi(ov.value.text) <= 6)
  }

  lemma LevelIsText()
    ensures SchemaKind("log-level") == Some(TextKind)
  {
  }

  lemma ThrowsIff(num: Numbers, ov: Override)
    requires SchemaKind(ov.key).Some?
    ensures EffectOf(num, ov) == Throw <==> Offends(num, ov)
  {
    LevelIsText();
    DispatchMatchesSchema(ov.key);
    TargetIsInvertible(ov.key);
  }

  // ---------------------------------------------------------------- a list of overrides

  datatype Applied = Applied(settings: Settings, completed: bool)

  /** All overrides in list order, up to the first one that throws. */
  function ApplyAll(eff: Override -> Effect, start: Settings, list: seq<Override>): Applied {
    if list == [] then Applied(start, true)
    else
      var before := ApplyAll(eff, start, list[..|list| - 1]);
      if !before.completed then before
      else
        match eff(list[|list| - 1])
        case Assign(s, v) => Applied(before.settings[s := v], true)
        case Ignore => before
        case Throw => Applied(before.settings, false)
  }

  function ClientEffect(num: Numbers): Override -> Effect {
    (ov: Override) => EffectOf(num, ov)
  }

  lemma {:induction false} ThrowStops(eff: Override -> Effect, start: Settings, list: seq<Override>, n: nat)
    requires n <= |list| && !ApplyAll(eff, start, list[..n]).completed
    ensures ApplyAll(eff, start, list) == ApplyAll(eff, start, list[..n])
    decreases |list| - n
  {
    if n == |list| {
      assert list[..n] == list;
    } else {
      assert list[..n + 1][..n] == list[..n];
      ThrowStops(eff, start, list, n + 1);
    }
  }

  ghost predicate NeverThrows(eff: Override -> Effect, list: seq<Override>) {
    forall i :: 0 <= i < |list| ==> eff(list[i]) != Throw
  }

  /** A setting is only ever assigned by one key. */
  ghost predicate OneKeyPerSetting(eff: Override -> Effect) {
    forall a, b :: eff(a).Assign? && eff(b).Assign? && eff(a).setting == eff(b).setting ==> a.key == b.key
  }

  lemma AssignedByKey(num: Numbers, ov: Override)
    requires EffectOf(num, ov).Assign?
    ensures KeyOf(EffectOf(num, ov).setting) == ov.key
  {
    TargetIsInvertible(ov.key);
  }

  lemma ClientHasOneKeyPerSetting(num: Numbers)
    ensures OneKeyPerSetting(ClientEffect(num))
  {
    var eff := ClientEffect(num);
    forall a | eff(a).Assign? ensures a.key == KeyOf(eff(a).setting) {
      AssignedByKey(num, a);
    }
  }

  lemma {:induction false} ApplyCompletes(eff: Override -> Effect, start: Settings, list: seq<Override>)
    requires NeverThrows(eff, list)
    ensures ApplyAll(eff, start, list).completed
  {
    if list != [] {
      ApplyCompletes(eff, start, list[..|list| - 1]);
    }
  }

  /** The loop runs to its end if and only if no override throws. */
  lemma {:induction false} CompletesIff(eff: Override -> Effect, start: Settings, list: seq<Override>)
    ensures ApplyAll(eff, start, list).completed <==> NeverThrows(eff, list)
  {
    if list != [] {
      var init, last := list[..|list| - 1], list[|list| - 1];
      CompletesIff(eff, start, init);
      assert NeverThrows(eff, list) <==> NeverThrows(eff, init) && eff(last) != Throw;
    }
  }

  /** Some override of the list assigns `v` to `s`. */
  ghost predicate Assigns(eff: Override -> Effect, list: seq<Override>, s: Setting, v: SettingValue) {
    exists i :: 0 <= i < |list| && eff(list[i]) == Assign(s, v)
  }

  lemma AssignsSnoc(eff: Override -> Effect, init: seq<Override>, last: Override, s: Setting)
    ensures forall v :: Assigns(eff, init + [last], s, v) <==> Assigns(eff, init, s, v) || eff(last) == Assign(s, v)
  {
    var list := init + [last];
    forall v ensures Assigns(eff, list, s, v) <==> Assigns(eff, init, s, v) || eff(last) == Assign(s, v) {
      if i :| 0 <= i < |init| && eff(init[i]) == Assign(s, v) {
        assert eff(list[i]) == Assign(s, v);
      }
      assert list[|init|] == last;
    }
  }

  /** The outcome without reference to the order: what is assigned, and the start value elsewhere. */
  lemma {:induction false} SettingsByKey(eff: Override -> Effect, start: Settings, list: seq<Override>, s: Setting)
    requires UniqueKeys(list) && OneKeyPerSetting(eff) && NeverThrows(eff, list)
    ensures
      var r := ApplyAll(eff, start, list).settings;
      && (forall v :: Assigns(eff, list, s, v) ==> s in r && r[s] == v)
      && ((forall v :: !Assigns(eff, list, s, v)) ==> (s in r <==> s in start) && (s in r ==> r[s] == start[s]))
  {
    if list != [] {
      var init, last := list[..|list| - 1], list[|list| - 1];
      assert list == init + [last];
      SettingsByKey(eff, start, init, s);
      SettingAfter(eff, start, list, s);
      AssignsSnoc(eff, init, last, s);
      if eff(last).Assign? && eff(last).setting == s {
        NoOtherAssigns(eff, init, last, s);
      }
    }
  }

  /** The last override of the list decides a setting, or leaves it as the others did. */
  lemma SettingAfter(eff: Override -> Effect, start: Settings, list: seq<Override>, s: Setting)
    requires NeverThrows(eff, list) && list != []
    ensures
      var last := list[|list| - 1];
      var r0, r := ApplyAll(eff, start, list[..|list| - 1]).settings, ApplyAll(eff, start, list).settings;
      if eff(last).Assign? && eff(last).setting == s then s in r && r[s] == eff(last).value
      else (s in r <==> s in r0) && (s in r ==> r[s] == r0[s])
  {
    ApplyCompletes(eff, start, list[..|list| - 1]);
  }

  /** With unique keys no other override assigns the setting of the last one. */
  lemma NoOtherAssigns(eff: Override -> Effect, init: seq<Override>, last: Override, s: Setting)
    requires UniqueKeys(init + [last]) && OneKeyPerSetting(eff) && eff(last).Assign? && eff(last).setting == s
    ensures forall v :: !Assigns(eff, init, s, v)
  {
    var list := init + [last];
    assert list[|init|] == last;
    forall i | 0 <= i < |init| ensures !(eff(init[i]).Assign? && eff(init[i]).setting == s) {
      assert init[i] == list[i];
    }
  }

  ghost predicate SameOverrides(a: seq<Override>, b: seq<Override>) {
    forall ov :: ov in a <==> ov in b
  }

  lemma AssignsBySet(eff: Override -> Effect, a: seq<Override>, b: seq<Override>, s: Setting, v: SettingValue)
    requires SameOverrides(a, b) && Assigns(eff, a, s, v)
    ensures Assigns(eff, b, s, v)
  {
    var i :| 0 <= i < |a| && eff(a[i]) == Assign(s, v);
    assert a[i] in b;
    var j :| 0 <= j < |b| && b[j] == a[i];
    assert eff(b[j]) == Assign(s, v);
  }

  lemma SettingAgrees(eff: Override -> Effect, start: Settings, a: seq<Override>, b: seq<Override>, s: Setting)
    requires UniqueKeys(a) && UniqueKeys(b) && SameOverrides(a, b) && OneKeyPerSetting(eff)
    requires NeverThrows(eff, a) && NeverThrows(eff, b)
    ensures
      var ra, rb := ApplyAll(eff, start, a).settings, ApplyAll(eff, start, b).settings;
      (s in ra <==> s in rb) && (s in ra ==> ra[s] == rb[s])
  {
    SettingsByKey(eff, start, a, s);
    SettingsByKey(eff, start, b, s);
    forall v ensures Assigns(eff, a, s, v) <==> Assigns(eff, b, s, v) {
      if Assigns(eff, a, s, v) {
        AssignsBySet(eff, a, b, s, v);
      } else if Assigns(eff, b, s, v) {
        AssignsBySet(eff, b, a, s, v);
      }
    }
  }

  ghost predicate LevelsInRange(num: Numbers, list: seq<Override>) {
    forall i :: 0 <= i < |list| && list[i].key == "log-level" && list[i].value.Text? ==>
      0 <= num.atoi(list[i].value.text) <= 6
  }

  lemma NothingThrows(num: Numbers, list: seq<Override>)
    requires WellTyped(SCHEMA, list) && LevelsInRange(num, list)
    ensures NeverThrows(ClientEffect(num), list)
  {
    forall i | 0 <= i < |list| ensures EffectOf(num, list[i]) != Throw {
      OnlyLogLevelThrows(num, list[i]);
    }
  }

  lemma SameOverridesKeep(num: Numbers, a: seq<Override>, b: seq<Override>)
    requires SameOverrides(a, b) && WellTyped(SCHEMA, a) && LevelsInRange(num, a)
    ensures WellTyped(SCHEMA, b) && LevelsInRange(num, b)
  {
    forall i | 0 <= i < |b| ensures b[i] in a {
      assert b[i] in b;
    }
  }

  /** The order in which a reload puts the overrides does not reach the client settings. */
  lemma OrderIsIrrelevant(num: Numbers, start: Settings, a: seq<Override>, b: seq<Override>)
    requires UniqueKeys(a) && UniqueKeys(b) && SameOverrides(a, b)
    requires WellTyped(SCHEMA, a) && LevelsInRange(num, a)
    ensures ApplyAll(ClientEffect(num), start, a) == ApplyAll(ClientEffect(num), start, b)
    ensures ApplyAll(ClientEffect(num), start, a).completed
  {
    var eff := ClientEffect(num);
    SameOverridesKeep(num, a, b);
    NothingThrows(num, a);
    NothingThrows(num, b);
    ApplyCompletes(eff, start, a);
    ApplyCompletes(eff, start, b);
    ClientHasOneKeyPerSetting(num);
    var ra, rb := ApplyAll(eff, start, a).settings, ApplyAll(eff, start, b).settings;
    forall s ensures (s in ra <==> s in rb) && (s in ra ==> ra[s] == rb[s]) {
      SettingAgrees(eff, start, a, b, s);
    }
    assert ra == rb;
  }

  // ---------------------------------------------------------------- whose value a setting has

  predicate Unchanged(a: Settings, b: Settings, s: Setting) {
    (s in a <==> s in b) && (s in a && s in b ==> a[s] == b[s])
  }

  /**
   * The setting has the value its override carries: the flag or the text itself, the number of a log level or a
   * timeout, and for a name resolution scope only one of the two known ones.
   */
  predicate HasOwnValue(num: Numbers, start: Settings, ov: Override, s: Setting, r: Settings) {
    if ov.value.Flag? then s in r && r[s] == SFlagValue(ov.value.flag)
    else if s == LogLevel then s in r && r[s] == SNumberValue(num.atoi(ov.value.text))
    else if s == ConnTimeout then
      if num.stoi(ov.value.text).Some? then s in r && r[s] == SNumberValue(num.stoi(ov.value.text).value)
      else Unchanged(start, r, s)
    else if s == DnsScope && ov.value.text != "global" && ov.value.text != "tunnel" then Unchanged(start, r, s)
    else s in r && r[s] == STextValue(ov.value.text)
  }

  ghost predicate OwnValueAt(num: Numbers, start: Settings, list: seq<Override>, r: Settings, s: Setting) {
    && (forall ov :: ov in list && ov.key == KeyOf(s) ==> HasOwnValue(num, start, ov, s, r))
    && ((forall ov :: ov in list ==> ov.key != KeyOf(s)) ==> Unchanged(start, r, s))
  }

  ghost predicate OwnValues(num: Numbers, start: Settings, list: seq<Override>, r: Settings) {
    forall s :: OwnValueAt(num, start, list, r, s)
  }

  /** What an override does to a setting. */
  ghost predicate Decides(e: Effect, start: Settings, s: Setting, r: Settings) {
    if e.Assign? && e.setting == s then s in r && r[s] == e.value else Unchanged(start, r, s)
  }

  /** The overrides of the list with this key give the setting their own value, and no others reach it. */
  ghost predicate Owns(eff: Override -> Effect, num: Numbers, list: seq<Override>, key: string, s: Setting) {
    && (forall ov :: eff(ov).Assign? && eff(ov).setting == s ==> ov.key == key)
    && forall ov, start, r :: ov in list && ov.key == key ==>
         (HasOwnValue(num, start, ov, s, r) <==> Decides(eff(ov), start, s, r))
  }

  /** With unique keys the override of a key decides its setting, and without one the start value stays. */
  lemma DecidedByKey(eff: Override -> Effect, start: Settings, list: seq<Override>, key: string, s: Setting)
    requires UniqueKeys(list) && OneKeyPerSetting(eff) && NeverThrows(eff, list)
    requires forall ov :: eff(ov).Assign? && eff(ov).setting == s ==> ov.key == key
    ensures var r := ApplyAll(eff, start, list).settings;
      && (forall ov :: ov in list && ov.key == key ==> Decides(eff(ov), start, s, r))
      && ((forall ov :: ov in list ==> ov.key != key) ==> Unchanged(start, r, s))
  {
    var r := ApplyAll(eff, start, list).settings;
    SettingsByKey(eff, start, list, s);
    forall ov | ov in list && ov.key == key ensures Decides(eff(ov), start, s, r) {
      var k :| 0 <= k < |list| && list[k] == ov;
      if eff(ov).Assign? && eff(ov).setting == s {
        assert Assigns(eff, list, s, eff(ov).value);
      } else {
        assert forall v :: !Assigns(eff, list, s, v);
      }
    }
    if forall ov :: ov in list ==> ov.key != key {
      forall v ensures !Assigns(eff, list, s, v) {
        if i :| 0 <= i < |list| && eff(list[i]) == Assign(s, v) {
          assert list[i] in list;
        }
      }
    }
  }

  lemma OwnedValue(eff: Override -> Effect, num: Numbers, start: Settings, list: seq<Override>, key: string, s: Setting)
    requires UniqueKeys(list) && OneKeyPerSetting(eff) && NeverThrows(eff, list) && Owns(eff, num, list, key, s)
    ensures var r := ApplyAll(eff, start, list).settings;
      && (forall ov :: ov in list && ov.key == key ==> HasOwnValue(num, start, ov, s, r))
      && ((forall ov :: ov in list ==> ov.key != key) ==> Unchanged(start, r, s))
  {
    DecidedByKey(eff, start, list, key, s);
    var r := ApplyAll(eff, start, list).settings;
    forall ov | ov in list && ov.key == key ensures HasOwnValue(num, start, ov, s, r) {
      assert Decides(eff(ov), start, s, r);
    }
  }

  lemma OwnEffect(num: Numbers, ov: Override, s: Setting, start: Settings, r: Settings)
    requires Target(ov.key) == Some(s) && Wanted(s) == KindOf(ov.value)
    requires s == LogLevel ==> 0 <= num.atoi(ov.value.text) <= 6
    ensures HasOwnValue(num, start, ov, s, r) <==> Decides(EffectOf(num, ov), start, s, r)
  {
  }

  lemma ClientOwns(num: Numbers, list: seq<Override>, s: Setting)
    requires WellTyped(SCHEMA, list) && LevelsInRange(num, list)
    ensures Owns(ClientEffect(num), num, list, KeyOf(s), s)
  {
    forall ov | EffectOf(num, ov).Assign? && EffectOf(num, ov).setting == s ensures ov.key == KeyOf(s) {
      AssignedByKey(num, ov);
    }
    forall ov, start, r | ov in list && ov.key == KeyOf(s)
      ensures HasOwnValue(num, start, ov, s, r) <==> Decides(EffectOf(num, ov), start, s, r)
    {
      OwnedTarget(num, list, ov, s);
      OwnEffect(num, ov, s, start, r);
    }
  }

  lemma OwnedTarget(num: Numbers, list: seq<Override>, ov: Override, s: Setting)
    requires WellTyped(SCHEMA, list) && LevelsInRange(num, list) && ov in list && ov.key == KeyOf(s)
    ensures Target(ov.key) == Some(s) && Wanted(s) == KindOf(ov.value)
    ensures s == LogLevel ==> 0 <= num.atoi(ov.value.text) <= 6
  {
    var k :| 0 <= k < |list| && list[k] == ov;
    KeyIsDispatched(s);
    DispatchMatchesSchema(ov.key);
  }

  lemma TakesItsOwn(num: Numbers, start: Settings, list: seq<Override>, s: Setting)
    requires UniqueKeys(list) && WellTyped(SCHEMA, list) && LevelsInRange(num, list)
    ensures OwnValueAt(num, start, list, ApplyAll(ClientEffect(num), start, list).settings, s)
  {
    NothingThrows(num, list);
    ClientHasOneKeyPerSetting(num);
    ClientOwns(num, list, s);
    OwnedValue(ClientEffect(num), num, start, list, KeyOf(s), s);
  }

  /** The list any run hands to the client, with log levels it accepts. */
  ghost predicate Regular(num: Numbers, list: seq<Override>) {
    UniqueKeys(list) && WellTyped(SCHEMA, list) && LevelsInRange(num, list)
  }

  /** Every setting has the value of its own override, or its start value. */
  lemma EachTakesItsOwn(num: Numbers, start: Settings, list: seq<Override>)
    requires Regular(num, list)
    ensures var r := ApplyAll(ClientEffect(num), start, list);
      r.completed && OwnValues(num, start, list, r.settings)
  {
    NothingThrows(num, list);
    ApplyCompletes(ClientEffect(num), start, list);
    forall s ensures OwnValueAt(num, start, list, ApplyAll(ClientEffect(num), start, list).settings, s) {
      TakesItsOwn(num, start, list, s);
    }
  }

  /**
   * The loop of the client.  Of schema typed overrides with log levels in range every setting takes the value of
   * its own override, or keeps its start value.
   */
  method SetOverrides(num: Numbers, start: Settings, list: seq<Override>) returns (settings: Settings, completed: bool)
    ensures Applied(settings, completed) == ApplyAll(ClientEffect(num), start, list)
    ensures Regular(num, list) ==> completed && OwnValues(num, start, list, settings)
  {
    settings, completed := ApplyOverrides(ClientEffect(num), start, list);
    if Regular(num, list) {
      EachTakesItsOwn(num, start, list);
    }
  }

  method ApplyOverrides(eff: Override -> Effect, start: Settings, list: seq<Override>)
    returns (settings: Settings, completed: bool)
    ensures Applied(settings, completed) == ApplyAll(eff, start, list)
  {
    settings := start;
    for i := 0 to |list|
      invariant ApplyAll(eff, start, list[..i]) == Applied(settings, true)
    {
      assert list[..i + 1][..i] == list[..i];
      match eff(list[i]) {
        case Assign(s, v) => settings := settings[s := v];
        case Ignore =>
        case Throw =>
          ThrowStops(eff, start, list, i + 1);
          return settings, false;
      }
    }
    assert list[..|list|] == list;
    completed := true;
  }

  /** With a log level out of range the order decides which of the other overrides take effect. */
  lemma OrderMattersOnBadLevel(num: Numbers)
    requires num.atoi("9") == 9
    ensures
      var level, proxy := Override("log-level", Text("9")), Override("proxy-host", Text("p"));
      ApplyAll(ClientEffect(num), map[], [level, proxy]) != ApplyAll(ClientEffect(num), map[], [proxy, level])
  {
    var level, proxy := Override("log-level", Text("9")), Override("proxy-host", Text("p"));
    var eff := ClientEffect(num);
    assert eff(level) == Throw;
    assert eff(proxy) == Assign(ProxyHost, STextValue("p"));
    assert [level, proxy][..1] == [level] && [proxy, level][..1] == [proxy];
    assert ApplyAll(eff, map[], [level]) == Applied(map[], false);
    assert ApplyAll(eff, map[], [proxy]).settings == map[ProxyHost := STextValue("p")];
    assert ProxyHost in ApplyAll(eff, map[], [proxy, level]).settings;
  }
}
