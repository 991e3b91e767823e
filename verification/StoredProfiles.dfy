/** What the real option tables mean for a stored profile (src/common/core-extensions.hpp). */
module StoredProfiles {
  import opened Outcomes
  import opened Json
  import opened OptionJson
  import opened OptionTables
  import opened Lists

  const REPEATED: set<string> := {"remote", "route", "route-ipv6", "pull-filter", "peer-fingerprint"}

  const INLINE: set<string> := {
    "auth-user-pass", "ca", "cert", "dh", "extra-certs", "http-proxy-user-pass", "key", "pkcs12", "tls-auth",
    "tls-crypt", "tls-crypt-v2"}

  lemma SmallIsNoMeta(name: string)
    requires name != "" && 'a' <= name[0] <= 'z'
    ensures !IsMeta(name)
  {
    if IsMeta(name) {
      MetaIsCapital(name);
    }
  }

  lemma Classified(name: string)
    ensures NeedsArray(name) <==> name in REPEATED || name == "connection"
    ensures IsTag(name) <==> name in INLINE || name == "connection"
  {
  }

  lemma RepeatedIsPlain(name: string)
    requires name in REPEATED
    ensures NeedsArray(name) && !IsTag(name) && !IsMeta(name)
  {
    SmallIsNoMeta(name);
  }

  lemma ReloadedOccurrences(syntax: Syntax, opts: seq<Opt>, order: seq<string>, name: string)
    requires Enumerates(order, ExportedNames(syntax, opts)) && !syntax.isMeta(name)
    ensures Occurrences(Canonical(syntax, opts, order), name) == NormalAll(syntax, Surviving(syntax, opts, name))
  {
    CanonicalOccurrences(syntax, opts, order, name);
    OccurrencesElements(opts, name);
    var occ := Occurrences(opts, name);
    if occ != [] {
      assert occ[0] in occ;
      assert name in ExportedNames(syntax, opts);
    }
  }

  /** A plain option that may be repeated keeps all its lines, in order. */
  lemma AllSurvive(syntax: Syntax, opts: seq<Opt>, order: seq<string>, name: string)
    requires syntax.needsArray(name) && !syntax.isTag(name) && !syntax.isMeta(name)
    requires Enumerates(order, ExportedNames(syntax, opts))
    ensures Occurrences(Canonical(syntax, opts, order), name) == Occurrences(opts, name)
  {
    ReloadedOccurrences(syntax, opts, order, name);
    OccurrencesElements(opts, name);
    var occ := Occurrences(opts, name);
    forall i | 0 <= i < |occ| ensures Normal(syntax, occ[i]) == occ[i] {
      assert occ[i] in occ;
    }
  }

  /** One that is an inline block too keeps all its blocks, rendered. */
  lemma AllBlocksSurvive(syntax: Syntax, opts: seq<Opt>, order: seq<string>, name: string, i: nat)
    requires syntax.needsArray(name) && syntax.isTag(name) && !syntax.isMeta(name)
    requires Enumerates(order, ExportedNames(syntax, opts))
    ensures var occ, left := Occurrences(opts, name), Occurrences(Canonical(syntax, opts, order), name);
      |left| == |occ| && (i < |occ| ==> left[i] == Opt(name, [syntax.render(occ[i].args)]))
  {
    ReloadedOccurrences(syntax, opts, order, name);
    OccurrencesElements(opts, name);
    var occ := Occurrences(opts, name);
    if i < |occ| {
      assert occ[i] in occ;
    }
  }

  lemma ConnectionIsBlock()
    ensures NeedsArray("connection") && IsTag("connection") && !IsMeta("connection")
  {
    SmallIsNoMeta("connection");
  }

  lemma OneSurvives(syntax: Syntax, opts: seq<Opt>, order: seq<string>, name: string)
    requires !syntax.needsArray(name) && !syntax.isMeta(name)
    requires Enumerates(order, ExportedNames(syntax, opts))
    ensures var occ := Occurrences(opts, name);
      Occurrences(Canonical(syntax, opts, order), name) ==
        if occ == [] then []
        else [Opt(name, if syntax.isTag(name) then [syntax.render(occ[|occ| - 1].args)] else occ[|occ| - 1].args)]
  {
    ReloadedOccurrences(syntax, opts, order, name);
    OccurrencesElements(opts, name);
    var occ := Occurrences(opts, name);
    if occ != [] {
      assert occ[|occ| - 1] in occ;
      assert NormalAll(syntax, [occ[|occ| - 1]]) == [Normal(syntax, occ[|occ| - 1])];
    }
  }

  lemma StoredAll(syntax: Syntax, opts: seq<Opt>, name: string, i: nat)
    requires syntax.needsArray(name) && !syntax.isTag(name) && !syntax.isMeta(name) && i < |Occurrences(opts, name)|
    ensures var data, occ := Exported(syntax, opts), Occurrences(opts, name);
      && data.JObject? && name in data.members && data.members[name].JArray?
      && |data.members[name].items| == |occ|
      && data.members[name].items[i] == if occ[i].args == [] then JNull else Strings(occ[i].args)
  {
    var occ := Occurrences(opts, name);
    MemberPresent(syntax, opts, name);
    OccurrencesElements(opts, name);
    assert occ[i] in occ && occ[0] in occ;
  }

  lemma StoredOne(syntax: Syntax, opts: seq<Opt>, name: string)
    requires !syntax.needsArray(name) && !syntax.isMeta(name) && Occurrences(opts, name) != []
    ensures var data, occ := Exported(syntax, opts), Occurrences(opts, name);
      var last := occ[|occ| - 1];
      && data.JObject? && name in data.members
      && data.members[name] ==
           if syntax.isTag(name) then JArray([JString(syntax.render(last.args))])
           else if last.args == [] then JNull else Strings(last.args)
  {
    var occ := Occurrences(opts, name);
    MemberPresent(syntax, opts, name);
    OccurrencesElements(opts, name);
    assert occ[0] in occ && occ[|occ| - 1] in occ;
  }

  // ---------------------------------------------------------------- with the real tables

  /** Every line of these options survives a save and reload, with its arguments and in order. */
  lemma RepeatedLinesSurvive(parseLine: string -> Result<Opt>, render: seq<string> -> string, opts: seq<Opt>,
                             order: seq<string>, name: string)
    requires name in REPEATED
    requires Enumerates(order, ExportedNames(OpenVpnSyntax(parseLine, render), opts))
    ensures Occurrences(Canonical(OpenVpnSyntax(parseLine, render), opts, order), name) == Occurrences(opts, name)
  {
    RepeatedIsPlain(name);
    AllSurvive(OpenVpnSyntax(parseLine, render), opts, order, name);
  }

  /** So does every connection block, rendered. */
  lemma ConnectionBlocksSurvive(parseLine: string -> Result<Opt>, render: seq<string> -> string, opts: seq<Opt>,
                                order: seq<string>, i: nat)
    requires Enumerates(order, ExportedNames(OpenVpnSyntax(parseLine, render), opts))
    ensures var occ := Occurrences(opts, "connection");
      var left := Occurrences(Canonical(OpenVpnSyntax(parseLine, render), opts, order), "connection");
      && |left| == |occ|
      && (i < |occ| ==> left[i] == Opt("connection", [render(occ[i].args)]))
  {
    ConnectionIsBlock();
    AllBlocksSurvive(OpenVpnSyntax(parseLine, render), opts, order, "connection", i);
  }

  /** Of an inline file the last one survives, rendered; of any other option the arguments of its last line. */
  lemma LastLineSurvives(parseLine: string -> Result<Opt>, render: seq<string> -> string, opts: seq<Opt>,
                         order: seq<string>, name: string)
    requires name !in REPEATED && name != "connection" && !IsMeta(name)
    requires Enumerates(order, ExportedNames(OpenVpnSyntax(parseLine, render), opts))
    ensures var occ := Occurrences(opts, name);
      Occurrences(Canonical(OpenVpnSyntax(parseLine, render), opts, order), name) ==
        if occ == [] then []
        else [Opt(name, if name in INLINE then [render(occ[|occ| - 1].args)] else occ[|occ| - 1].args)]
  {
    Classified(name);
    OneSurvives(OpenVpnSyntax(parseLine, render), opts, order, name);
  }

  /** Lines that may be repeated are stored as an array with one array of arguments per line, or null. */
  lemma StoredAsLines(parseLine: string -> Result<Opt>, render: seq<string> -> string, opts: seq<Opt>, name: string,
                      i: nat)
    requires name in REPEATED && i < |Occurrences(opts, name)|
    ensures var data, occ := Exported(OpenVpnSyntax(parseLine, render), opts), Occurrences(opts, name);
      && data.JObject? && name in data.members && data.members[name].JArray?
      && |data.members[name].items| == |occ|
      && data.members[name].items[i] == if occ[i].args == [] then JNull else Strings(occ[i].args)
  {
    RepeatedIsPlain(name);
    StoredAll(OpenVpnSyntax(parseLine, render), opts, name, i);
  }

  /** Any other option is stored as the arguments of its last line, an inline file as one text. */
  lemma StoredAsLastLine(parseLine: string -> Result<Opt>, render: seq<string> -> string, opts: seq<Opt>, name: string)
    requires name !in REPEATED && name != "connection" && !IsMeta(name) && Occurrences(opts, name) != []
    ensures var data, occ := Exported(OpenVpnSyntax(parseLine, render), opts), Occurrences(opts, name);
      var last := occ[|occ| - 1];
      && data.JObject? && name in data.members
      && data.members[name] ==
           if name in INLINE then JArray([JString(render(last.args))])
           else if last.args == [] then JNull else Strings(last.args)
  {
    Classified(name);
    StoredOne(OpenVpnSyntax(parseLine, render), opts, name);
  }
}
