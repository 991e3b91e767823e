/**
 * What the client makes of overrides that were loaded from any file
 * (src/configmgr/configmgr-configuration.cpp, src/client/openvpn3-service-client.cpp).
 */
module LoadedOverrides {
  import opened Outcomes
  import opened Json
  import opened TextFilter
  import opened AccessControl
  import opened Overrides
  import opened ConfigProfile
  import opened ConfigRuns

  lemma TidyCompletesIff(ctx: Context, num: Numbers, start: Settings, list: seq<Override>)
    requires ctx.schema == SCHEMA && Tidy(ctx, list)
    ensures ApplyAll(ClientEffect(num), start, list).completed <==>
            forall k :: 0 <= k < |list| ==> !Offends(num, list[k])
  {
    CompletesIff(ClientEffect(num), start, list);
    forall k | 0 <= k < |list| ensures ClientEffect(num)(list[k]) == Throw <==> Offends(num, list[k]) {
      ThrowsIff(num, list[k]);
    }
  }

  /**
   * In every run, from any imported profile and whatever the file holds, the client takes all overrides of a
   * configuration if and only if none of them has a value of the wrong alternative, the connection timeout
   * excepted, or a log level outside 0-6.
   */
  lemma ClientTakesOverridesIff(ctx: Context, vpnUser: Uid, ws: seq<World>, evs: seq<Event>, i: nat,
                                num: Numbers, start: Settings)
    requires IsRun(ctx, vpnUser, ws, evs) && OrderlyWorld(ctx, ws[0]) && i <= |evs| && ws[i].Live?
    requires ctx.schema == SCHEMA
    ensures var list := ws[i].p.overrides;
      ApplyAll(ClientEffect(num), start, list).completed <==> forall k :: 0 <= k < |list| ==> !Offends(num, list[k])
  {
    RunIsOrderly(ctx, vpnUser, ws, evs, i);
    TidyCompletesIff(ctx, num, start, ws[i].p.overrides);
  }

  /** Such values do come in: the reload takes a flag or a text for any known key. */
  lemma AnyValueIsLoaded(ctx: Context, key: string, j: Json)
    requires ctx.schema == SCHEMA && SchemaKind(key).Some? && (j.JBool? || j.JString?)
    ensures var v := if j.JBool? then Flag(j.flag) else Text(FilterCtrlChars(j.text, true));
      && LoadOverrides(ctx, map[key := j], [key]) == Ok([Override(key, v)])
      && (SchemaKind(key) != Some(KindOf(v)) && key != "connection-timeout" ==>
            forall num :: Offends(num, Override(key, v)))
  {
    var v := if j.JBool? then Flag(j.flag) else Text(FilterCtrlChars(j.text, true));
    assert [key][..0] == [] && At(map[key := j], key) == j;
    assert LoadOverrides(ctx, map[key := j], []) == Ok([]);
    assert RemoveOverride([], key) + [Override(key, v)] == [Override(key, v)];
    assert LoadOverride(ctx, [], key, j) == Ok([Override(key, v)]);
  }
}
