/**
 * What the validation after every update makes of it (src/ashare_system/runtime_config.py): the new
 * configuration is built from the updated dump by a schema, which ignores unknown keys, fills in missing
 * ones and rejects values of the wrong kind.
 */
module RuntimeConfigValidation {
  import opened RuntimeConfig
  import opened Wrappers

  /** A field holds a scalar, read from the given one if that can be, or a section of further fields. */
  datatype Kind = Single(default: int, read: int -> Option<int>) | Section(fields: Schema)
  type Schema = map<string, Kind>

  function At(d: Dict, key: string): Option<Tree> {
    if key in d then Some(d[key]) else None
  }

  /** One field as it is validated; None stands for the error. */
  function Field(f: Kind, found: Option<Tree>): Option<Tree>
    decreases f, 1
  {
    match f
    case Single(default, read) =>
      if found.None? then Some(Leaf(default))
      else if found.value.Node? || read(found.value.scalar).None? then None
      else Some(Leaf(read(found.value.scalar).value))
    case Section(fields) =>
      if found.Some? && found.value.Leaf? then None
      else
        var kids := Validate(fields, if found.Some? then found.value.kids else map[]);
        if kids.Some? then Some(Node(kids.value)) else None
  }

  function Validate(s: Schema, d: Dict): Option<Dict>
    decreases Section(s), 0
  {
    if forall k :: k in s ==> Field(s[k], At(d, k)).Some? then Some(map k | k in s :: Field(s[k], At(d, k)).value)
    else None
  }

  /** Defaults, and what reading has made, are read as they are. */
  ghost predicate Sound(f: Kind)
    decreases f
  {
    match f
    case Single(default, read) =>
      read(default) == Some(default) && forall v :: read(v).Some? ==> read(read(v).value) == read(v)
    case Section(fields) => forall k :: k in fields ==> Sound(fields[k])
  }

  function Validator(s: Schema): Dict -> Option<Dict> {
    d => Validate(s, d)
  }

  /** A configuration that validation leaves alone. */
  ghost predicate Valid(s: Schema, c: Dict) {
    Validate(s, c) == Some(c)
  }

  lemma {:induction false} FieldTwice(f: Kind, found: Option<Tree>)
    requires Sound(f)
    ensures Field(f, found).Some? ==> Field(f, Field(f, found)) == Field(f, found)
    decreases f
  {
    if f.Section? && Field(f, found).Some? {
      var kids := if found.Some? then found.value.kids else map[];
      var once := Validate(f.fields, kids).value;
      forall k | k in f.fields
        ensures Field(f.fields[k], At(once, k)) == Some(once[k])
      {
        FieldTwice(f.fields[k], At(kids, k));
      }
      assert Validate(f.fields, once).value == once;
    }
  }

  /** Whatever is validated, the result is valid; so a stored configuration loads as it was saved. */
  lemma ValidatedIsValid(s: Schema, d: Dict)
    requires Sound(Section(s))
    ensures Validate(s, d).Some? ==> Valid(s, Validate(s, d).value)
  {
    FieldTwice(Section(s), Some(Node(d)));
  }

  // ---------------------------------------------- the same update made twice

  /** A tree that has a dictionary for every section, all the way down. */
  ghost predicate Shaped(f: Kind, x: Option<Tree>)
    decreases f
  {
    f.Section? ==> x.Some? && x.value.Node? && forall k :: k in f.fields ==> Shaped(f.fields[k], At(x.value.kids, k))
  }

  ghost predicate AllShaped(s: Schema, d: Dict) {
    forall k :: k in s ==> Shaped(s[k], At(d, k))
  }

  lemma {:induction false} FieldIsShaped(f: Kind, found: Option<Tree>)
    ensures Field(f, found).Some? ==> Shaped(f, Field(f, found))
    decreases f
  {
    if f.Section? && Field(f, found).Some? {
      var kids := if found.Some? then found.value.kids else map[];
      forall k | k in f.fields
        ensures Shaped(f.fields[k], At(Field(f, found).value.kids, k))
      {
        FieldIsShaped(f.fields[k], At(kids, k));
      }
    }
  }

  /**
   * The same updates have made `a` of `x` and `b` of `y`: they left both alone, gave both the same value,
   * put a dictionary where a scalar belongs, or wrote into two dictionaries alike.
   */
  ghost predicate Linked(f: Kind, a: Option<Tree>, b: Option<Tree>, x: Option<Tree>, y: Option<Tree>)
    decreases f, 1
  {
    || (a == x && b == y)
    || (a.Some? && a == b)
    || (&& a.Some? && b.Some? && a.value.Node? && b.value.Node?
        && (f.Section? ==>
              && x.Some? && y.Some? && x.value.Node? && y.value.Node?
              && AllLinked(f.fields, a.value.kids, b.value.kids, x.value.kids, y.value.kids)))
  }

  ghost predicate AllLinked(s: Schema, d: Dict, e: Dict, x: Dict, y: Dict)
    decreases Section(s), 0
  {
    forall k :: k in s ==> Linked(s[k], At(d, k), At(e, k), At(x, k), At(y, k))
  }

  lemma {:induction false} SetsLinked(s: Schema, d: Dict, e: Dict, x: Dict, y: Dict, path: seq<string>, v: Tree)
    requires path != [] && AllLinked(s, d, e, x, y) && AllShaped(s, x) && AllShaped(s, y)
    ensures AllLinked(s, SetPath(d, path, v), SetPath(e, path, v), x, y)
    decreases path
  {
    var k := path[0];
    if |path| > 1 && k in s && s[k].Section? && At(d, k) != At(e, k) {
      SetsLinked(s[k].fields, Sub(d, k), Sub(e, k), x[k].kids, y[k].kids, path[1..], v);
    }
  }

  lemma {:induction false} UpdateLinked(
      s: Schema, d: Dict, e: Dict, x: Dict, y: Dict, key: string, value: Value)
    requires AllLinked(s, d, e, x, y) && AllShaped(s, x) && AllShaped(s, y)
    ensures AllLinked(s, ApplyUpdate(d, key, value), ApplyUpdate(e, key, value), x, y)
    decreases value, 1
  {
    if '.' in key {
      SetsLinked(s, d, e, x, y, Split(key), Plain(value));
    } else if key in s && s[key].Section? && value.Items? && At(d, key) != At(e, key) {
      UpdatesLinked(s[key].fields, d[key].kids, e[key].kids, x[key].kids, y[key].kids, value.items, |value.items|);
    }
  }

  lemma {:induction false} UpdatesLinked(
      s: Schema, d: Dict, e: Dict, x: Dict, y: Dict, items: seq<(string, Value)>, n: nat)
    requires AllLinked(s, d, e, x, y) && AllShaped(s, x) && AllShaped(s, y) && n <= |items|
    ensures AllLinked(s, ApplyFirst(d, items, n), ApplyFirst(e, items, n), x, y)
    decreases Items(items), 0, n
  {
    if n > 0 {
      UpdatesLinked(s, d, e, x, y, items, n - 1);
      UpdateLinked(s, ApplyFirst(d, items, n - 1), ApplyFirst(e, items, n - 1), x, y, items[n - 1].0, items[n - 1].1);
    }
  }

  /** If validating `a` made `y` of the valid `x`, validating `b` changes nothing more. */
  lemma {:induction false} LinkedReadsTheSame(
      f: Kind, a: Option<Tree>, b: Option<Tree>, x: Option<Tree>, y: Option<Tree>)
    requires Linked(f, a, b, x, y) && x.Some? && Field(f, x) == x && y.Some? && Field(f, a) == y
    ensures Field(f, b) == y
    decreases f
  {
    if f.Section? && !(a == x && b == y) && a != b {
      forall k | k in f.fields
        ensures Field(f.fields[k], At(b.value.kids, k)) == Some(y.value.kids[k])
      {
        LinkedReadsTheSame(
          f.fields[k], At(a.value.kids, k), At(b.value.kids, k), At(x.value.kids, k), At(y.value.kids, k));
      }
      assert Validate(f.fields, b.value.kids).value == y.value.kids;
    }
  }

  /**
   * Whatever the updates, dotted keys, dictionaries and overlapping keys included: making them again
   * changes nothing, and is rejected exactly if it was the first time.
   */
  lemma UpdatedTwiceIsOnce(s: Schema, c: Dict, items: seq<(string, Value)>)
    requires Valid(s, c)
    ensures var next := Updated(Validator(s), c, items);
            && Updated(Validator(s), next, items) == next
            && (Validate(s, ApplyAll(next, items)).Some? <==> Validate(s, ApplyAll(c, items)).Some?)
  {
    var next := Updated(Validator(s), c, items);
    var once, twice := ApplyAll(c, items), ApplyAll(next, items);
    hide ApplyFirst, ApplyUpdate, SetPath;
    if Validate(s, once).Some? {
      FieldIsShaped(Section(s), Some(Node(c)));
      FieldIsShaped(Section(s), Some(Node(once)));
      UpdatesLinked(s, c, next, c, next, items, |items|);
      LinkedReadsTheSame(Section(s), Some(Node(once)), Some(Node(twice)), Some(Node(c)), Some(Node(next)));
    }
  }

  // ------------------------------------------------------------------- runs

  /** The configuration after a run of updates, from the defaults where nothing could be loaded. */
  function Run(s: Schema, loaded: Dict, runs: seq<seq<(string, Value)>>): Dict {
    if runs == [] then Loaded(s, loaded)
    else Updated(Validator(s), Run(s, loaded, runs[..|runs| - 1]), runs[|runs| - 1])
  }

  /** `_load`: the validated file, or the defaults. */
  function Loaded(s: Schema, file: Dict): Dict {
    var checked := Validate(s, file);
    if checked.Some? then checked.value
    else
      var defaults := Validate(s, map[]);
      if defaults.Some? then defaults.value else map[]
  }

  lemma {:induction false} DefaultsRead(f: Kind)
    requires Sound(f)
    ensures Field(f, None).Some?
    decreases f
  {
    if f.Section? {
      forall k | k in f.fields
        ensures Field(f.fields[k], At(map[], k)).Some?
      {
        DefaultsRead(f.fields[k]);
      }
    }
  }

  /** Over any run the configuration is valid, so saving and loading it gives it back. */
  lemma {:induction false} RunsStayValid(s: Schema, loaded: Dict, runs: seq<seq<(string, Value)>>)
    requires Sound(Section(s))
    ensures Valid(s, Run(s, loaded, runs)) && Loaded(s, Run(s, loaded, runs)) == Run(s, loaded, runs)
  {
    if runs == [] {
      DefaultsRead(Section(s));
      ValidatedIsValid(s, loaded);
      ValidatedIsValid(s, map[]);
    } else {
      RunsStayValid(s, loaded, runs[..|runs| - 1]);
      ValidatedIsValid(s, ApplyAll(Run(s, loaded, runs[..|runs| - 1]), runs[|runs| - 1]));
    }
  }

  /** So an update that is made twice in a row, after whatever run, is made once. */
  lemma RepeatedUpdateIsOne(s: Schema, loaded: Dict, runs: seq<seq<(string, Value)>>, items: seq<(string, Value)>)
    requires Sound(Section(s))
    ensures Run(s, loaded, runs + [items, items]) == Run(s, loaded, runs + [items])
  {
    var once, twice := runs + [items], runs + [items, items];
    assert once[..|once| - 1] == runs && twice[..|twice| - 1] == once;
    RunsStayValid(s, loaded, runs);
    UpdatedTwiceIsOnce(s, Run(s, loaded, runs), items);
  }

  // --------------------------------------------------- dotted or nested form

  /** Sections hold no further sections. */
  predicate TwoLevels(s: Schema) {
    forall k :: k in s && s[k].Section? ==> forall j :: j in s[k].fields ==> s[k].fields[j].Single?
  }

  lemma SameFields(s: Schema, d: Dict, e: Dict)
    requires forall k :: k in s ==> Field(s[k], At(d, k)) == Field(s[k], At(e, k))
    ensures Validate(s, d) == Validate(s, e)
  {
    if Validate(s, d).Some? {
      assert Validate(s, d).value == Validate(s, e).value;
    }
  }

  /** An assigned dictionary leaves a dictionary in the first slot of its path, and the other slots alone. */
  lemma FirstSlot(d: Dict, path: seq<string>, a: Dict, k: string)
    requires path != []
    ensures var slot := At(SetPath(d, path, Node(a)), k);
            if k == path[0] then slot.Some? && slot.value.Node? else slot == At(d, k)
  {
  }

  /** A dictionary that an update puts below the top level is rejected or ignored, whatever it holds. */
  lemma DictionaryBelowIsBlank(s: Schema, d: Dict, path: seq<string>, a: Dict, b: Dict)
    requires TwoLevels(s) && |path| > 1
    ensures Validate(s, SetPath(d, path, Node(a))) == Validate(s, SetPath(d, path, Node(b)))
  {
    var left, right := SetPath(d, path, Node(a)), SetPath(d, path, Node(b));
    var head := path[0];
    if head in s && s[head].Section? {
      var fields, rest := s[head].fields, path[1..];
      forall k | k in fields
        ensures Field(fields[k], At(left[head].kids, k)) == Field(fields[k], At(right[head].kids, k))
      {
        FirstSlot(Sub(d, head), rest, a, k);
        FirstSlot(Sub(d, head), rest, b, k);
        assert fields[k].Single?;
      }
      SameFields(fields, left[head].kids, right[head].kids);
    }
    SameFields(s, left, right);
  }

  /** So for every dotted key and value the dotted and the nested form make the same configuration. */
  lemma DottedEqualsNestedValidated(s: Schema, c: Dict, key: string, value: Value)
    requires TwoLevels(s)
    ensures Updated(Validator(s), c, [(key, value)])
         == Updated(Validator(s), c, [(Split(key)[0], Wrap(Split(key)[1..], value))])
  {
    var path := Split(key);
    SplitJoins(key);
    ApplyOne(c, key, value);
    ApplyOne(c, path[0], Wrap(path[1..], value));
    if '.' in key {
      NestedLandsAtPath(c, path, value);
      var landed := Landed(Get(c, path), value);
      if value.Items? { DictionaryBelowIsBlank(s, c, path, Plain(value).kids, landed.kids); }
    } else {
      assert path == [key];
    }
  }

  // -------------------------------------------------- restoring a whole dump

  lemma {:induction false} SameKeysCover(f: Kind, a: Dict, b: Dict)
    requires f.Section? && Valid(f.fields, a) && Valid(f.fields, b)
    ensures Covered(a, b)
    decreases f
  {
    forall k | k in a && k in b && a[k].Node? && b[k].Node?
      ensures Covered(a[k].kids, b[k].kids)
    {
      assert Field(f.fields[k], At(a, k)) == Some(a[k]) && Field(f.fields[k], At(b, k)) == Some(b[k]);
      SameKeysCover(f.fields[k], a[k].kids, b[k].kids);
    }
  }

  /** An update by the whole dump of a valid configuration restores it from any other. */
  lemma DumpRestores(s: Schema, c: Dict, saved: Dict, dump: seq<(string, Value)>)
    requires Valid(s, c) && Valid(s, saved) && CleanItems(dump) && Plain(Items(dump)) == Node(saved)
    ensures Updated(Validator(s), c, dump) == saved
  {
    UpdatesMerge(c, dump, |dump|);
    SameKeysCover(Section(s), c, saved);
    MergeReplacesIff(c, saved);
  }

  // ------------------------------------------------------ one value at a time

  /** The field that a path leads to through sections. */
  function FieldAt(s: Schema, path: seq<string>): Option<Kind>
    requires path != []
    decreases path
  {
    if path[0] !in s then None
    else if |path| == 1 then Some(s[path[0]])
    else if s[path[0]].Section? then FieldAt(s[path[0]].fields, path[1..])
    else None
  }

  /** Whether the path leaves the schema at an unknown key, where validation ignores what is assigned. */
  predicate Unknown(s: Schema, path: seq<string>)
    requires path != []
    decreases path
  {
    path[0] !in s || (|path| > 1 && s[path[0]].Section? && Unknown(s[path[0]].fields, path[1..]))
  }

  lemma OneField(s: Schema, c: Dict, k: string, slot: Tree)
    requires Valid(s, c)
    ensures Validate(s, c[k := slot]) ==
            if k !in s then Some(c)
            else if Field(s[k], Some(slot)).None? then None
            else Some(c[k := Field(s[k], Some(slot)).value])
  {
    var d := c[k := slot];
    ValidFields(s, c);
    assert forall j :: j in s && j != k ==> At(d, j) == At(c, j);
    assert At(d, k) == Some(slot);
    if k !in s {
      FieldsDecide(s, d, c);
    } else if Field(s[k], Some(slot)).Some? {
      FieldsDecide(s, d, c[k := Field(s[k], Some(slot)).value]);
    }
  }

  lemma FieldsDecide(s: Schema, d: Dict, c: Dict)
    requires c.Keys == s.Keys && forall k :: k in s ==> Field(s[k], At(d, k)) == Some(c[k])
    ensures Validate(s, d) == Some(c)
  {
    assert Validate(s, d).value == c;
  }

  lemma ValidFields(s: Schema, c: Dict)
    requires Valid(s, c)
    ensures c.Keys == s.Keys && forall j :: j in s ==> Field(s[j], At(c, j)) == Some(c[j])
  {
    assert Validate(s, c).value.Keys == s.Keys;
    forall j | j in s
      ensures Field(s[j], At(c, j)) == Some(c[j])
    {
      assert Validate(s, c).value[j] == c[j];
    }
  }

  lemma {:induction false} AssignedScalar(s: Schema, c: Dict, path: seq<string>, v: int)
    requires path != [] && Valid(s, c)
    ensures var f := FieldAt(s, path);
            Validate(s, SetPath(c, path, Leaf(v))) ==
              if Unknown(s, path) then Some(c)
              else if f.Some? && f.value.Single? && f.value.read(v).Some?
                   then Some(SetPath(c, path, Leaf(f.value.read(v).value)))
              else None
    decreases path
  {
    var k := path[0];
    if |path| == 1 {
      OneField(s, c, k, Leaf(v));
    } else {
      OneField(s, c, k, Node(SetPath(Sub(c, k), path[1..], Leaf(v))));
      if k in s && s[k].Section? {
        assert Field(s[k], At(c, k)) == Some(c[k]);
        AssignedScalar(s[k].fields, Sub(c, k), path[1..], v);
        assert c[k := c[k]] == c;
      }
    }
  }

  /**
   * A scalar assigned under any key, dotted or not: if the key leads to a field that can read it, the
   * configuration has the value read at that place and is otherwise as before; if it leads to anything
   * else, or the field cannot read the value, the configuration stays.
   */
  lemma ScalarIsReadBack(s: Schema, c: Dict, key: string, v: int)
    requires Valid(s, c)
    ensures var f := FieldAt(s, Split(key));
            Updated(Validator(s), c, [(key, Scalar(v))]) ==
              if f.Some? && f.value.Single? && f.value.read(v).Some?
              then SetPath(c, Split(key), Leaf(f.value.read(v).value)) else c
  {
    var path := Split(key);
    SplitJoins(key);
    ApplyOne(c, key, Scalar(v));
    AssignedScalar(s, c, path, v);
    UnknownHasNoField(s, path);
    assert ApplyUpdate(c, key, Scalar(v)) == SetPath(c, path, Leaf(v)) by { UpdateTouches(c, key, Scalar(v)); }
  }

  lemma {:induction false} UnknownHasNoField(s: Schema, path: seq<string>)
    requires path != []
    ensures Unknown(s, path) ==> FieldAt(s, path).None?
    decreases path
  {
    if |path| > 1 && path[0] in s && s[path[0]].Section? { UnknownHasNoField(s[path[0]].fields, path[1..]); }
  }

  /** Without a file every field has its default, and every section is there. */
  lemma DefaultsAre(s: Schema, k: string)
    requires Sound(Section(s)) && k in s
    ensures Validate(s, map[]).Some?
    ensures s[k].Single? ==> Validate(s, map[]).value[k] == Leaf(s[k].default)
    ensures s[k].Section? ==> Some(Validate(s, map[]).value[k]) == Field(s[k], Some(Node(map[])))
  {
    DefaultsRead(Section(s));
    assert At(map[], k) == None;
  }
}
