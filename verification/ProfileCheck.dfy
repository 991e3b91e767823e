/**
 * The validity check of a profile and how it fares across save and reload
 * (src/configmgr/configmgr-configuration.cpp).
 */
module ProfileCheck {
  import opened Outcomes
  import opened OptionJson
  import OptionTables

  datatype Verdict = Accepted | ServerLocked | Missing(options: seq<string>)

  predicate LocksServer(o: Opt) {
    o.name == "setenv" && |o.args| > 0 && o.args[0] == "GENERIC_CONFIG"
  }

  predicate Present(opts: seq<Opt>, name: string) {
    exists o :: o in opts && o.name == name
  }

  predicate HasRequired(opts: seq<Opt>) {
    && (Present(opts, "client") || Present(opts, "tls-client"))
    && Present(opts, "dev")
    && (Present(opts, "remote") || Present(opts, "connection"))
    && Present(opts, "ca")
  }

  /** What the profile check promises to accept. */
  predicate ValidProfile(opts: seq<Opt>) {
    HasRequired(opts) && forall o :: o in opts ==> !LocksServer(o)
  }

  /** `Option::get(index, 32)`: throws when the element is missing or too long. */
  function GetElement(o: Opt, index: nat): Result<string> {
    var tokens := [o.name] + o.args;
    if index >= |tokens| then Err("no such element")
    else if |tokens[index]| > 32 then Err("element too long")
    else Ok(tokens[index])
  }

  /** What the check takes an option for; an option whose name cannot be read is skipped. */
  datatype Role = Setenv | Remote | Connection | Ca | Dev | Client | Other

  function RoleOf(o: Opt): Role {
    var name := GetElement(o, 0);
    if name.Err? then Other
    else if name.value == "setenv" then Setenv
    else if name.value == "remote" then Remote
    else if name.value == "connection" then Connection
    else if name.value == "ca" then Ca
    else if name.value == "dev" then Dev
    else if name.value == "client" || name.value == "tls-client" then Client
    else Other
  }

  ghost predicate Seen(opts: seq<Opt>, role: Role) {
    exists o :: o in opts && RoleOf(o) == role
  }

  lemma RoleIsName(o: Opt)
    ensures RoleOf(o) == Setenv <==> o.name == "setenv"
    ensures RoleOf(o) == Remote <==> o.name == "remote"
    ensures RoleOf(o) == Connection <==> o.name == "connection"
    ensures RoleOf(o) == Ca <==> o.name == "ca"
    ensures RoleOf(o) == Dev <==> o.name == "dev"
    ensures RoleOf(o) == Client <==> o.name == "client" || o.name == "tls-client"
    ensures LocksServer(o) <==> RoleOf(o) == Setenv && GetElement(o, 1) == Ok("GENERIC_CONFIG")
  {
    assert ([o.name] + o.args)[0] == o.name;
    assert |o.args| > 0 ==> ([o.name] + o.args)[1] == o.args[0];
  }

  lemma SeenIsPresent(opts: seq<Opt>)
    ensures Seen(opts, Client) <==> Present(opts, "client") || Present(opts, "tls-client")
    ensures Seen(opts, Dev) <==> Present(opts, "dev")
    ensures Seen(opts, Remote) <==> Present(opts, "remote")
    ensures Seen(opts, Connection) <==> Present(opts, "connection")
    ensures Seen(opts, Ca) <==> Present(opts, "ca")
  {
    forall o | o in opts
      ensures RoleOf(o) == Client <==> o.name == "client" || o.name == "tls-client"
      ensures RoleOf(o) == Dev <==> o.name == "dev"
      ensures RoleOf(o) == Remote <==> o.name == "remote"
      ensures RoleOf(o) == Connection <==> o.name == "connection"
      ensures RoleOf(o) == Ca <==> o.name == "ca"
    {
      RoleIsName(o);
    }
  }

  /** The scan of `validate_profile`, up to the first option that locks the profile. */
  method Scan(options: seq<Opt>)
    returns (locked: bool, client: bool, dev: bool, remote: bool, connection: bool, ca: bool)
    ensures locked <==> exists o :: o in options && LocksServer(o)
    ensures !locked ==>
      && (client <==> Seen(options, Client)) && (dev <==> Seen(options, Dev)) && (ca <==> Seen(options, Ca))
      && (remote <==> Seen(options, Remote)) && (connection <==> Seen(options, Connection))
  {
    locked, client, remote, connection, ca, dev := false, false, false, false, false, false;
    for i := 0 to |options|
      invariant !locked && forall o :: o in options[..i] ==> !LocksServer(o)
      invariant client <==> Seen(options[..i], Client)
      invariant remote <==> Seen(options[..i], Remote)
      invariant connection <==> Seen(options[..i], Connection)
      invariant ca <==> Seen(options[..i], Ca)
      invariant dev <==> Seen(options[..i], Dev)
    {
      var opt := options[i];
      SeenSnoc(options, i);
      RoleIsName(opt);
      match RoleOf(opt) {
        case Setenv =>
          if GetElement(opt, 1) == Ok("GENERIC_CONFIG") {
            assert opt in options;
            locked := true;
            return;
          }
        case Remote => remote := true;
        case Connection => connection := true;
        case Ca => ca := true;
        case Dev => dev := true;
        case Client => client := true;
        case Other =>
      }
    }
    assert options[..|options|] == options;
  }

  lemma SeenSnoc(options: seq<Opt>, i: nat)
    requires i < |options|
    ensures forall o :: o in options[..i + 1] <==> o in options[..i] || o == options[i]
    ensures forall r :: Seen(options[..i + 1], r) <==> Seen(options[..i], r) || RoleOf(options[i]) == r
  {
    var before, o := options[..i], options[i];
    assert options[..i + 1] == before + [o];
    forall r ensures Seen(before + [o], r) <==> Seen(before, r) || RoleOf(o) == r {
      SeenOneMore(before, o, r);
    }
  }

  lemma SeenOneMore(before: seq<Opt>, o: Opt, role: Role)
    ensures Seen(before + [o], role) <==> Seen(before, role) || RoleOf(o) == role
  {
    assert o in before + [o];
    if x :| x in before && RoleOf(x) == role {
      assert x in before + [o];
    }
  }

  /** What the rejection of a profile lists. */
  function MissingOptions(opts: seq<Opt>): seq<string> {
    (if Present(opts, "ca") then [] else ["--ca"])
    + (if Present(opts, "client") || Present(opts, "tls-client") then [] else ["--client or --tls-client"])
    + (if Present(opts, "dev") then [] else ["--dev"])
    + (if Present(opts, "remote") || Present(opts, "connection") then [] else ["--remote"])
  }

  /** Nothing is missing of exactly the profiles with all required options. */
  lemma RequiredIffNothingMissing(opts: seq<Opt>)
    ensures HasRequired(opts) <==> MissingOptions(opts) == []
  {
    var missing := MissingOptions(opts);
    if !Present(opts, "ca") {
      assert missing[0] == "--ca";
    } else if !Present(opts, "client") && !Present(opts, "tls-client") {
      assert missing[0] == "--client or --tls-client";
    } else if !Present(opts, "dev") {
      assert missing[0] == "--dev";
    } else if !Present(opts, "remote") && !Present(opts, "connection") {
      assert missing[0] == "--remote";
    }
  }

  method ValidateProfile(options: seq<Opt>) returns (v: Verdict)
    ensures v.Accepted? <==> ValidProfile(options)
    ensures v.ServerLocked? <==> exists o :: o in options && LocksServer(o)
    ensures v.Missing? ==> v.options == MissingOptions(options) != []
    ensures v.Accepted? ==> MissingOptions(options) == []
  {
    var locked, client, dev, remote, connection, ca := Scan(options);
    SeenIsPresent(options);
    RequiredIffNothingMissing(options);
    if locked {
      return ServerLocked;
    }
    if !client || !dev || !(remote || connection) || !ca {
      return Missing((if ca then [] else ["--ca"])
                     + (if client then [] else ["--client or --tls-client"])
                     + (if dev then [] else ["--dev"])
                     + (if remote || connection then [] else ["--remote"]));
    }
    v := Accepted;
  }

  // ---------------------------------------------------------------- across save and reload

  /** The names the check looks at are ordinary: none is filtered, and `setenv` is stored once, untouched. */
  ghost predicate OrdinaryNames(syntax: Syntax) {
    && (forall n :: n in {"client", "tls-client", "dev", "remote", "connection", "ca", "setenv"} ==> !syntax.isMeta(n))
    && !syntax.isTag("setenv") && !syntax.needsArray("setenv")
  }

  lemma TablesAreOrdinary(parseLine: string -> Result<Opt>, render: seq<string> -> string)
    ensures OrdinaryNames(OptionTables.OpenVpnSyntax(parseLine, render))
  {
    var syntax := OptionTables.OpenVpnSyntax(parseLine, render);
    forall n | n in {"client", "tls-client", "dev", "remote", "connection", "ca", "setenv"} ensures !syntax.isMeta(n) {
      if OptionTables.IsMeta(n) {
        OptionTables.MetaIsCapital(n);
      }
    }
  }

  lemma PresentAfterReload(syntax: Syntax, opts: seq<Opt>, order: seq<string>, name: string)
    requires Enumerates(order, ExportedNames(syntax, opts)) && !syntax.isMeta(name)
    ensures Present(Canonical(syntax, opts, order), name) <==> Present(opts, name)
  {
    CanonicalNames(syntax, opts, order);
    assert forall l: seq<Opt> :: Present(l, name) <==> name in ExportedNames(syntax, l);
  }

  /** The last `setenv` option, the only one that survives. */
  predicate LastSetenvLocks(opts: seq<Opt>) {
    var occ := Occurrences(opts, "setenv");
    occ != [] && LocksServer(occ[|occ| - 1])
  }

  /** Only `setenv` options can lock. */
  lemma LockIsSetenv(list: seq<Opt>)
    ensures (exists o :: o in list && LocksServer(o)) <==>
      exists o :: o in Occurrences(list, "setenv") && LocksServer(o)
  {
    OccurrencesElements(list, "setenv");
  }

  /** Of an ordinary option that is stored once the last occurrence survives as it is. */
  lemma LastSurvives(syntax: Syntax, opts: seq<Opt>, name: string)
    requires !syntax.isMeta(name) && !syntax.needsArray(name) && !syntax.isTag(name)
    ensures var occ := Occurrences(opts, name);
      NormalAll(syntax, Surviving(syntax, opts, name)) == if occ == [] then [] else [occ[|occ| - 1]]
  {
    var occ := Occurrences(opts, name);
    if occ != [] {
      OccurrencesElements(opts, name);
      assert occ[|occ| - 1] in occ;
    }
  }

  lemma OccursIsExported(syntax: Syntax, opts: seq<Opt>, name: string)
    requires !syntax.isMeta(name) && Occurrences(opts, name) != []
    ensures name in ExportedNames(syntax, opts)
  {
    OccurrencesElements(opts, name);
    assert Occurrences(opts, name)[0] in Occurrences(opts, name);
  }

  lemma LastAfterReload(syntax: Syntax, opts: seq<Opt>, order: seq<string>, name: string)
    requires Enumerates(order, ExportedNames(syntax, opts))
    requires !syntax.isMeta(name) && !syntax.needsArray(name) && !syntax.isTag(name)
    ensures var occ := Occurrences(opts, name);
      Occurrences(Canonical(syntax, opts, order), name) == if occ == [] then [] else [occ[|occ| - 1]]
  {
    LastSurvives(syntax, opts, name);
    CanonicalOccurrences(syntax, opts, order, name);
    if Occurrences(opts, name) != [] {
      OccursIsExported(syntax, opts, name);
    }
  }

  lemma LockAfterReload(syntax: Syntax, opts: seq<Opt>, order: seq<string>)
    requires Enumerates(order, ExportedNames(syntax, opts)) && OrdinaryNames(syntax)
    ensures (exists o :: o in Canonical(syntax, opts, order) && LocksServer(o)) <==> LastSetenvLocks(opts)
  {
    LockIsSetenv(Canonical(syntax, opts, order));
    assert !syntax.isMeta("setenv");
    LastAfterReload(syntax, opts, order, "setenv");
    LastLocks(Occurrences(opts, "setenv"), Occurrences(Canonical(syntax, opts, order), "setenv"));
  }

  lemma LastLocks(occ: seq<Opt>, left: seq<Opt>)
    requires left == if occ == [] then [] else [occ[|occ| - 1]]
    ensures (exists o :: o in left && LocksServer(o)) <==> occ != [] && LocksServer(occ[|occ| - 1])
  {
    assert occ != [] ==> occ[|occ| - 1] in left;
  }

  /**
   * Exactly when a reloaded profile is accepted: it had the required options and its last `setenv`
   * does not lock it.  So an accepted profile stays accepted.
   */
  lemma ValidityAfterReload(syntax: Syntax, opts: seq<Opt>, order: seq<string>)
    requires Enumerates(order, ExportedNames(syntax, opts)) && OrdinaryNames(syntax)
    ensures ValidProfile(Canonical(syntax, opts, order)) <==> HasRequired(opts) && !LastSetenvLocks(opts)
    ensures ValidProfile(opts) ==> ValidProfile(Canonical(syntax, opts, order))
  {
    LockAfterReload(syntax, opts, order);
    PresentAfterReload(syntax, opts, order, "client");
    PresentAfterReload(syntax, opts, order, "tls-client");
    PresentAfterReload(syntax, opts, order, "dev");
    PresentAfterReload(syntax, opts, order, "remote");
    PresentAfterReload(syntax, opts, order, "connection");
    PresentAfterReload(syntax, opts, order, "ca");
    OccurrencesElements(opts, "setenv");
    if LastSetenvLocks(opts) {
      var occ := Occurrences(opts, "setenv");
      assert occ[|occ| - 1] in occ;
    }
  }

  const LOCK: Opt := Opt("setenv", ["GENERIC_CONFIG", "1"])
  const HARMLESS: Opt := Opt("setenv", ["PUSH_PEER_INFO", "1"])

  lemma LockAndHarmless()
    ensures LocksServer(LOCK) && !LocksServer(HARMLESS)
  {
    assert "GENERIC_CONFIG"[0] != "PUSH_PEER_INFO"[0];
  }

  lemma RequiredStays(base: seq<Opt>, more: seq<Opt>)
    requires HasRequired(base)
    ensures HasRequired(base + more)
  {
  }

  /**
   * Any profile with the required options, a locking `setenv` and another one after it is rejected when it is
   * imported and accepted after the next restart.
   */
  lemma ReloadCanUnlock(syntax: Syntax, base: seq<Opt>, order: seq<string>)
    requires OrdinaryNames(syntax) && HasRequired(base)
    requires Enumerates(order, ExportedNames(syntax, base + [LOCK] + [HARMLESS]))
    ensures var opts := base + [LOCK] + [HARMLESS];
      !ValidProfile(opts) && ValidProfile(Canonical(syntax, opts, order))
  {
    var opts := base + [LOCK] + [HARMLESS];
    LockAndHarmless();
    assert LOCK in opts;
    ValidityAfterReload(syntax, opts, order);
    RequiredStays(base, [LOCK]);
    RequiredStays(base + [LOCK], [HARMLESS]);
    OccurrencesSnoc(base + [LOCK], HARMLESS, "setenv");
  }
}
