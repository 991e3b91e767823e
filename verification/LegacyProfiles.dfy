/** Profiles stored by older versions (src/common/core-extensions.hpp). */
module LegacyProfiles {
  import opened Outcomes
  import opened Json
  import opened OptionJson

  // ---------------------------------------------------------------- one member

  /** The text of a tag option is kept as it is, whichever format it is stored in. */
  lemma TagTextIsKept(syntax: Syntax, name: string, text: string)
    requires syntax.isTag(name)
    ensures ImportMember(syntax, name, JString(text)) == Ok([Opt(name, [text])])
    ensures ImportMember(syntax, name, Strings([text])) == Ok([Opt(name, [text])])
  {
    StringsRoundTrip([text]);
    var items := Strings([text]).items;
    assert syntax.needsArray(name) ==> AddEach(syntax, name, items).value == [Opt(name, [text])];
  }

  /** A tag option that may be repeated: format 2 and format 3b hold one text each per element. */
  lemma TagTextsAreKept(syntax: Syntax, name: string, texts: seq<string>)
    requires syntax.isTag(name) && syntax.needsArray(name)
    ensures var opts := seq(|texts|, i requires 0 <= i < |texts| => Opt(name, [texts[i]]));
      && ImportMember(syntax, name, Strings(texts)) == Ok(opts)
      && ImportMember(syntax, name, JArray(seq(|texts|, i requires 0 <= i < |texts| => Strings([texts[i]])))) ==
           Ok(opts)
  {
    var opts := seq(|texts|, i requires 0 <= i < |texts| => Opt(name, [texts[i]]));
    var nested := seq(|texts|, i requires 0 <= i < |texts| => Strings([texts[i]]));
    forall i | 0 <= i < |texts| ensures AddOption(syntax, name, nested[i]) == Ok(opts[i]) {
      StringsRoundTrip([texts[i]]);
    }
    assert AddEach(syntax, name, Strings(texts).items).value == opts;
    assert AddEach(syntax, name, nested).value == opts;
  }

  /** Arrays in an array are options of their own, whatever the option is called. */
  lemma NestedArraysAreOptions(syntax: Syntax, name: string, opts: seq<Opt>)
    requires |opts| > 0 && forall i :: 0 <= i < |opts| ==> opts[i].name == name
    ensures ImportMember(syntax, name, JArray(seq(|opts|, i requires 0 <= i < |opts| => Strings(opts[i].args)))) ==
      Ok(opts)
  {
    var nested := seq(|opts|, i requires 0 <= i < |opts| => Strings(opts[i].args));
    forall i | 0 <= i < |opts| ensures AddOption(syntax, name, nested[i]) == Ok(opts[i]) {
      StringsRoundTrip(opts[i].args);
    }
    assert AddEach(syntax, name, nested).value == opts;
  }

  /** A number, a flag or null is read as the text it converts to. */
  lemma ScalarIsText(syntax: Syntax, name: string, j: Json)
    requires !j.JArray? && !j.JObject?
    ensures AsString(j).Ok? && ImportMember(syntax, name, j) == ImportMember(syntax, name, JString(AsString(j).value))
    ensures j.JNull? ==> AsString(j) == Ok("")
    ensures j.JBool? ==> AsString(j) == Ok(if j.flag then "true" else "false")
    ensures j.JInt? && j.number >= 0 ==> Denotes(AsString(j).value, j.number)
  {
    if j.JInt? && j.number >= 0 {
      DigitsDenote(j.number);
    }
    assert AsString(JString(AsString(j).value)) == AsString(j);
  }

  /** An object is refused, and so is an array that has one inside. */
  lemma ObjectIsRefused(syntax: Syntax, name: string, items: seq<Json>, i: nat)
    requires i < |items| && items[i].JObject?
    ensures ImportMember(syntax, name, items[i]).Err? && ImportMember(syntax, name, JArray(items)).Err?
  {
    assert AddOption(syntax, name, items[i]).Err?;
    assert items[i] in items && AllAsStrings(items).Err?;
  }

  // ---------------------------------------------------------------- a whole document

  /**
   * The text an older version stored for an option: of a tag option the rendered value, of any other one what
   * the Core lexer splits into the option.
   */
  predicate TextOf(syntax: Syntax, o: Opt, text: string) {
    if syntax.isTag(o.name) then text == syntax.render(o.args) else syntax.parseLine(o.name + " " + text) == Ok(o)
  }

  ghost predicate TextsOf(syntax: Syntax, opts: seq<Opt>, texts: seq<string>) {
    |texts| == |opts| && forall i :: 0 <= i < |opts| ==> TextOf(syntax, opts[i], texts[i])
  }

  /** A member in an old format: one text, or for options that may be repeated also an array of texts. */
  ghost predicate OldMember(syntax: Syntax, opts: seq<Opt>, j: Json) {
    || (|opts| == 1 && exists text :: j == JString(text) && TextOf(syntax, opts[0], text))
    || (opts != [] && syntax.needsArray(opts[0].name)
        && exists texts :: j == Strings(texts) && TextsOf(syntax, opts, texts))
  }

  /** An old document of a profile has every option name the current export has, each in an old format. */
  ghost predicate OldDocument(syntax: Syntax, opts: seq<Opt>, members: map<string, Json>) {
    && members.Keys == ExportedNames(syntax, opts)
    && forall n :: n in members ==> OldMember(syntax, Surviving(syntax, opts, n), members[n])
  }

  lemma OldTextIsRead(syntax: Syntax, o: Opt, text: string)
    requires TextOf(syntax, o, text)
    ensures AddOption(syntax, o.name, JString(text)) == Ok(Normal(syntax, o))
  {
  }

  lemma SurvivorsAreNamed(syntax: Syntax, opts: seq<Opt>, name: string)
    ensures forall i :: 0 <= i < |Surviving(syntax, opts, name)| ==> Surviving(syntax, opts, name)[i].name == name
  {
    OccurrencesElements(opts, name);
    var surv := Surviving(syntax, opts, name);
    forall i | 0 <= i < |surv| ensures surv[i].name == name {
      assert surv[i] in Occurrences(opts, name);
    }
  }

  lemma OldMemberIsRead(syntax: Syntax, name: string, opts: seq<Opt>, j: Json)
    requires OldMember(syntax, opts, j) && forall i :: 0 <= i < |opts| ==> opts[i].name == name
    ensures ImportMember(syntax, name, j) == Ok(NormalAll(syntax, opts))
  {
    if |opts| == 1 && exists text :: j == JString(text) && TextOf(syntax, opts[0], text) {
      OldTextIsRead(syntax, opts[0], j.text);
      assert NormalAll(syntax, opts) == [Normal(syntax, opts[0])];
    } else {
      var texts :| j == Strings(texts) && TextsOf(syntax, opts, texts);
      forall i | 0 <= i < |opts| ensures AddOption(syntax, name, j.items[i]) == Ok(Normal(syntax, opts[i])) {
        OldTextIsRead(syntax, opts[i], texts[i]);
      }
      assert AddEach(syntax, name, j.items).value == NormalAll(syntax, opts);
    }
  }

  lemma {:induction false} OldMembersAreRead(syntax: Syntax, opts: seq<Opt>, members: map<string, Json>,
                                             order: seq<string>)
    requires OldDocument(syntax, opts, members) && forall n :: n in order ==> n in members
    ensures ImportMembers(syntax, members, order) == Ok(Canonical(syntax, opts, order))
  {
    if order != [] {
      var init, last := order[..|order| - 1], order[|order| - 1];
      assert order == init + [last] && last in order;
      OldMembersAreRead(syntax, opts, members, init);
      SurvivorsAreNamed(syntax, opts, last);
      OldMemberIsRead(syntax, last, Surviving(syntax, opts, last), members[last]);
    }
  }

  /**
   * A document in the old formats is read as the options it was stored for, tag texts included: the list that a
   * save and reload of them gives.  So it is read exactly as their current export if and only if the bare option
   * names in that read back.
   */
  lemma OldDocumentIsRead(syntax: Syntax, opts: seq<Opt>, members: map<string, Json>, order: seq<string>)
    requires OldDocument(syntax, opts, members) && Enumerates(order, members.Keys)
    ensures Imported(syntax, JObject(members), order) == Ok(Canonical(syntax, opts, order))
    ensures Imported(syntax, JObject(members), order) == Imported(syntax, Exported(syntax, opts), order) <==>
      BareNamesReadBack(syntax, opts)
  {
    OldMembersAreRead(syntax, opts, members, order);
    RoundTrip(syntax, opts, order);
  }
}
