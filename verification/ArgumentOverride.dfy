/** Overriding parsed arguments by a configuration file, for any kind of option name and value. */
module ArgumentOverride {
  import opened Outcomes
  import opened Lists

  datatype Args<!K, V> = Args(present: seq<K>, values: map<K, seq<V>>)

  // ---------------------------------------------------------------- one option at a time

  function RemoveArg<K(==), V>(a: Args<K, V>, option: K): Args<K, V> {
    Args(EraseFirst(a.present, option), if option in a.values then a.values[option := []] else a.values)
  }

  function RemoveEach<K(==), V>(a: Args<K, V>, options: seq<K>): Args<K, V> {
    if options == [] then a else RemoveArg(RemoveEach(a, options[..|options| - 1]), options[|options| - 1])
  }

  function ValuesOf<K(==), V>(a: Args<K, V>, option: K): seq<V> {
    if option in a.values then a.values[option] else []
  }

  /** What an import asks a configuration file for: the rivals and the value of an option. */
  datatype Source<!K, V> = Source(rivals: K -> seq<K>, value: K -> Result<V>)

  /** One option of the file: its rivals go, then its own command line values, then the file's value comes in. */
  function ImportOne<K(==), V>(a: Args<K, V>, file: Source<K, V>, option: K): (Args<K, V>, bool) {
    var r := RemoveArg(RemoveEach(a, file.rivals(option)), option);
    match file.value(option)
    case Err(_) => (r.(values := r.values[option := ValuesOf(r, option)]), false)
    case Ok(v) => (Args(r.present + [option], r.values[option := ValuesOf(r, option) + [v]]), true)
  }

  /** The options are imported in order until one throws. */
  function ImportAll<K(==), V>(a: Args<K, V>, file: Source<K, V>, options: seq<K>): (Args<K, V>, bool) {
    if options == [] then (a, true)
    else
      var (b, ok) := ImportAll(a, file, options[..|options| - 1]);
      if ok then ImportOne(b, file, options[|options| - 1]) else (b, false)
  }

  // ---------------------------------------------------------------- the whole import

  function SetOf<K(==)>(s: seq<K>): set<K> {
    set x | x in s
  }

  lemma {:induction false} RemoveEachPresent<K, V>(a: Args<K, V>, options: seq<K>)
    requires NoDuplicates(a.present)
    ensures RemoveEach(a, options).present == Keep(a.present, SetOf(options))
  {
    if options == [] {
      KeepAll(a.present, {});
      assert SetOf(options) == {};
    } else {
      var init, last := options[..|options| - 1], options[|options| - 1];
      RemoveEachPresent(a, init);
      KeepDistinct(a.present, SetOf(init));
      EraseFirstIsKeep(Keep(a.present, SetOf(init)), last);
      KeepKeep(a.present, SetOf(init), {last});
      assert SetOf(options) == SetOf(init) + {last};
    }
  }

  lemma {:induction false} RemoveEachValues<K, V>(a: Args<K, V>, options: seq<K>, o: K)
    ensures var r := RemoveEach(a, options);
      (o in r.values <==> o in a.values) && (o in r.values ==> r.values[o] == if o in options then [] else a.values[o])
  {
    if options != [] {
      RemoveEachValues(a, options[..|options| - 1], o);
    }
  }

  /** An option and its rivals. */
  function Affected<K(==), V>(file: Source<K, V>, option: K): set<K> {
    SetOf(file.rivals(option)) + {option}
  }

  /** All options that importing these affects. */
  function Touched<K(==), V>(file: Source<K, V>, options: seq<K>): set<K> {
    if options == [] then {}
    else Touched(file, options[..|options| - 1]) + Affected(file, options[|options| - 1])
  }

  function FileValue<K(==), V>(file: Source<K, V>, option: K): seq<V> {
    match file.value(option) case Ok(v) => [v] case Err(_) => []
  }

  /** The options can be imported one after another: all have values and none is a rival of another. */
  ghost predicate Compatible<K(!new), V>(file: Source<K, V>, options: seq<K>) {
    && NoDuplicates(options)
    && (forall o :: o in options ==> file.value(o).Ok?)
    && (forall o, p :: o in options && p in options ==> p !in file.rivals(o))
  }

  lemma {:induction false} TouchedContains<K, V>(file: Source<K, V>, options: seq<K>, o: K)
    requires o in options
    ensures Affected(file, o) <= Touched(file, options)
  {
    if o != options[|options| - 1] {
      TouchedContains(file, options[..|options| - 1], o);
    }
  }

  lemma CompatibleInit<K(!new), V>(file: Source<K, V>, options: seq<K>)
    requires Compatible(file, options) && options != []
    ensures var init, last := options[..|options| - 1], options[|options| - 1];
      && Compatible(file, init) && file.value(last).Ok?
      && forall p :: p in init ==> p !in Affected(file, last)
  {
    var init, last := options[..|options| - 1], options[|options| - 1];
    assert last in options && forall o :: o in init ==> o in options;
  }

  lemma DistinctAfter<K, V>(present: seq<K>, file: Source<K, V>, options: seq<K>)
    requires NoDuplicates(present) && NoDuplicates(options)
    ensures NoDuplicates(Keep(present, Touched(file, options)) + options)
  {
    var k := Keep(present, Touched(file, options));
    KeepDistinct(present, Touched(file, options));
    forall i, j | 0 <= i < |k| && 0 <= j < |options| ensures k[i] != options[j] {
      assert k[i] in k && options[j] in options;
      KeepElements(present, Touched(file, options), k[i]);
      TouchedContains(file, options, options[j]);
    }
  }

  lemma ImportOnePresent<K, V>(a: Args<K, V>, file: Source<K, V>, option: K)
    requires NoDuplicates(a.present) && file.value(option).Ok?
    ensures var (r, ok) := ImportOne(a, file, option);
      ok && r.present == Keep(a.present, Affected(file, option)) + [option]
  {
    var rivals := file.rivals(option);
    assert (rivals + [option])[..|rivals|] == rivals;
    RemoveEachPresent(a, rivals + [option]);
    assert SetOf(rivals + [option]) == Affected(file, option);
  }

  lemma PresentStep<K>(present: seq<K>, touched: set<K>, options: seq<K>, gone: set<K>)
    requires forall p :: p in options ==> p !in gone
    ensures Keep(Keep(present, touched) + options, gone) == Keep(present, touched + gone) + options
  {
    KeepAppend(Keep(present, touched), options, gone);
    KeepKeep(present, touched, gone);
    KeepAll(options, gone);
  }

  /** Everything untouched stays in its old order, then come the file's options. */
  lemma {:induction false} ImportPresent<K(!new), V>(a: Args<K, V>, file: Source<K, V>, options: seq<K>)
    requires NoDuplicates(a.present) && Compatible(file, options)
    ensures var (r, ok) := ImportAll(a, file, options);
      ok && r.present == Keep(a.present, Touched(file, options)) + options && NoDuplicates(r.present)
  {
    if options == [] {
      KeepAll(a.present, {});
    } else {
      var init, last := options[..|options| - 1], options[|options| - 1];
      CompatibleInit(file, options);
      ImportPresent(a, file, init);
      ImportPresentStep(a.present, ImportAll(a, file, init).0, file, init, last);
      DistinctAfter(a.present, file, options);
      assert init + [last] == options;
    }
  }

  lemma ImportPresentStep<K, V>(present: seq<K>, b: Args<K, V>, file: Source<K, V>, init: seq<K>, last: K)
    requires b.present == Keep(present, Touched(file, init)) + init && NoDuplicates(b.present)
    requires file.value(last).Ok? && forall p :: p in init ==> p !in Affected(file, last)
    ensures var (r, ok) := ImportOne(b, file, last);
      ok && r.present == Keep(present, Touched(file, init + [last])) + (init + [last])
  {
    ImportOnePresent(b, file, last);
    PresentStep(present, Touched(file, init), init, Affected(file, last));
    assert (init + [last])[..|init|] == init;
  }

  lemma ImportOneValues<K, V>(a: Args<K, V>, file: Source<K, V>, option: K, o: K)
    requires file.value(option).Ok?
    ensures var r := ImportOne(a, file, option).0;
      && (o in r.values <==> o in a.values || o == option)
      && (o in r.values ==>
            r.values[o] ==
              if o == option then FileValue(file, o) else if o in Affected(file, option) then [] else a.values[o])
  {
    RemoveEachValues(a, file.rivals(option), o);
  }

  /** The file's options have the file's values, their rivals none, all others what they had. */
  lemma {:induction false} ImportValues<K(!new), V>(a: Args<K, V>, file: Source<K, V>, options: seq<K>, o: K)
    requires NoDuplicates(a.present) && Compatible(file, options)
    ensures var r := ImportAll(a, file, options).0;
      && (o in r.values <==> o in a.values || o in options)
      && (o in r.values ==>
            r.values[o] ==
              if o in options then FileValue(file, o) else if o in Touched(file, options) then [] else a.values[o])
  {
    if options != [] {
      var init, last := options[..|options| - 1], options[|options| - 1];
      CompatibleInit(file, options);
      ImportPresent(a, file, init);
      ImportValues(a, file, init, o);
      ImportOneValues(ImportAll(a, file, init).0, file, last, o);
      assert o in options <==> o in init || o == last;
    }
  }

  /** Whatever the file lists, and also when the import throws, no option is listed twice. */
  lemma {:induction false} ImportKeepsDistinct<K, V>(a: Args<K, V>, file: Source<K, V>, options: seq<K>)
    requires NoDuplicates(a.present)
    ensures NoDuplicates(ImportAll(a, file, options).0.present)
  {
    if options != [] {
      var init, last := options[..|options| - 1], options[|options| - 1];
      ImportKeepsDistinct(a, file, init);
      ImportOneDistinct(ImportAll(a, file, init).0, file, last);
    }
  }

  lemma ImportOneDistinct<K, V>(a: Args<K, V>, file: Source<K, V>, option: K)
    requires NoDuplicates(a.present)
    ensures NoDuplicates(ImportOne(a, file, option).0.present)
  {
    var rivals := file.rivals(option);
    assert (rivals + [option])[..|rivals|] == rivals;
    var r := RemoveEach(a, rivals + [option]);
    RemoveEachPresent(a, rivals + [option]);
    KeepDistinct(a.present, SetOf(rivals + [option]));
    KeepElements(a.present, SetOf(rivals + [option]), option);
    assert option in SetOf(rivals + [option]);
    assert ImportOne(a, file, option).0.present == r.present
      || ImportOne(a, file, option).0.present == r.present + [option];
    assert forall j :: 0 <= j < |r.present| ==> r.present[j] in r.present;
  }

  /** An import throws exactly when some option it lists has no value under that name, which takes a repeated name. */
  lemma {:induction false} ImportThrows<K, V>(a: Args<K, V>, file: Source<K, V>, options: seq<K>)
    ensures ImportAll(a, file, options).1 <==> forall o :: o in options ==> file.value(o).Ok?
  {
    if options != [] {
      var init, last := options[..|options| - 1], options[|options| - 1];
      ImportThrows(a, file, init);
      assert forall o :: o in options <==> o in init || o == last;
    }
  }

  lemma ImportNext<K, V>(a: Args<K, V>, file: Source<K, V>, options: seq<K>, k: nat)
    requires k < |options| && ImportAll(a, file, options[..k]).1
    ensures ImportAll(a, file, options[..k + 1]) == ImportOne(ImportAll(a, file, options[..k]).0, file, options[k])
  {
    assert options[..k + 1][..k] == options[..k];
  }

  lemma {:induction false} ImportStops<K, V>(a: Args<K, V>, file: Source<K, V>, options: seq<K>, k: nat)
    requires k < |options| && !ImportAll(a, file, options[..k + 1]).1
    ensures ImportAll(a, file, options) == ImportAll(a, file, options[..k + 1])
    decreases |options|
  {
    if k + 1 < |options| {
      var init := options[..|options| - 1];
      assert init[..k + 1] == options[..k + 1];
      ImportStops(a, file, init, k);
    } else {
      assert options[..k + 1] == options;
    }
  }
}
