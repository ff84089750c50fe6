/** Partial updates of the nested runtime configuration (src/ashare_system/runtime_config.py). */
module RuntimeConfig {
  import opened Wrappers

  /** A dumped configuration: text keys, and under them scalars or further dictionaries. */
  datatype Tree = Leaf(scalar: int) | Node(kids: map<string, Tree>)
  type Dict = map<string, Tree>

  /** A value given to an update; a dictionary is iterated in its insertion order. */
  datatype Value = Scalar(scalar: int) | Items(items: seq<(string, Value)>)

  function Plain(value: Value): Tree
    decreases value, 1
  {
    match value
    case Scalar(x) => Leaf(x)
    case Items(items) => Node(PlainFirst(items, |items|))
  }

  /** The first `n` items as a dictionary. */
  function PlainFirst(items: seq<(string, Value)>, n: nat): Dict
    requires n <= |items|
    decreases Items(items), 0, n
  {
    if n == 0 then map[] else PlainFirst(items, n - 1)[items[n - 1].0 := Plain(items[n - 1].1)]
  }

  // ------------------------------------------------------------ dotted keys

  /** `key.split(".")` */
  function Split(key: string): (parts: seq<string>)
    ensures parts != []
  {
    if key == "" then [""]
    else if key[0] == '.' then [""] + Split(key[1..])
    else [[key[0]] + Split(key[1..])[0]] + Split(key[1..])[1..]
  }

  function JoinDots(parts: seq<string>): string
    requires parts != []
  {
    if |parts| == 1 then parts[0] else parts[0] + "." + JoinDots(parts[1..])
  }

  predicate DotFree(path: seq<string>) {
    forall i :: 0 <= i < |path| ==> '.' !in path[i]
  }

  lemma JoinFirst(first: string, rest: seq<string>)
    ensures JoinDots([first] + rest) == if rest == [] then first else first + "." + JoinDots(rest)
  {
    assert ([first] + rest)[1..] == rest;
  }

  lemma JoinWithHead(c: char, first: string, rest: seq<string>)
    ensures JoinDots([[c] + first] + rest) == [c] + JoinDots([first] + rest)
  {
    JoinFirst([c] + first, rest);
    JoinFirst(first, rest);
    hide JoinDots;
    if rest != [] {
      var tail := "." + JoinDots(rest);
      assert [c] + first + tail == [c] + (first + tail);
    }
  }

  lemma {:induction false} SplitIsDotFree(key: string)
    ensures DotFree(Split(key)) && ('.' in key <==> |Split(key)| > 1)
  {
    if key != "" {
      SplitIsDotFree(key[1..]);
      assert key == [key[0]] + key[1..];
    }
  }

  /** Splitting is the inverse of joining dot-free segments, empty ones included. */
  lemma {:induction false} SplitJoins(key: string)
    ensures DotFree(Split(key)) && JoinDots(Split(key)) == key
    ensures '.' in key <==> |Split(key)| > 1
  {
    SplitIsDotFree(key);
    if key != "" {
      var rest := Split(key[1..]);
      SplitJoins(key[1..]);
      assert key == [key[0]] + key[1..] && rest == [rest[0]] + rest[1..];
      JoinFirst("", rest);
      JoinWithHead(key[0], rest[0], rest[1..]);
      hide JoinDots, DotFree;
    }
  }

  lemma {:induction false} JoinSplits(path: seq<string>)
    requires path != [] && DotFree(path)
    ensures Split(JoinDots(path)) == path
    decreases |path|, |path[0]|
  {
    if path[0] != "" {
      var shorter := [path[0][1..]] + path[1..];
      JoinSplits(shorter);
      assert shorter[1..] == path[1..];
      assert JoinDots(path) == [path[0][0]] + JoinDots(shorter);
      assert path[0] == [path[0][0]] + path[0][1..];
    } else if |path| > 1 {
      JoinSplits(path[1..]);
      assert JoinDots(path) == "." + JoinDots(path[1..]);
    }
  }

  // -------------------------------------------------------- the update itself

  function Sub(d: Dict, key: string): Dict {
    if key in d && d[key].Node? then d[key].kids else map[]
  }

  /** Walk down the path, replacing what is not a dictionary by an empty one, and assign at its end. */
  function SetPath(d: Dict, path: seq<string>, v: Tree): Dict
    requires path != []
    decreases path
  {
    if |path| == 1 then d[path[0] := v] else d[path[0] := Node(SetPath(Sub(d, path[0]), path[1..], v))]
  }

  function ApplyUpdate(d: Dict, key: string, value: Value): Dict
    decreases value, 1
  {
    if '.' in key then SetPath(d, Split(key), Plain(value))
    else if key in d && d[key].Node? && value.Items? then
      d[key := Node(ApplyFirst(d[key].kids, value.items, |value.items|))]
    else d[key := Plain(value)]
  }

  /** The first `n` updates in order, as `update` and the nested case make them. */
  function ApplyFirst(d: Dict, items: seq<(string, Value)>, n: nat): Dict
    requires n <= |items|
    decreases Items(items), 0, n
  {
    if n == 0 then d else ApplyUpdate(ApplyFirst(d, items, n - 1), items[n - 1].0, items[n - 1].1)
  }

  function ApplyAll(d: Dict, items: seq<(string, Value)>): Dict {
    ApplyFirst(d, items, |items|)
  }

  /** `update`: what the validation makes of the updated dump; a rejected one leaves the configuration. */
  function Updated(validate: Dict -> Option<Dict>, c: Dict, items: seq<(string, Value)>): Dict {
    var checked := validate(ApplyAll(c, items));
    if checked.Some? then checked.value else c
  }

  // ------------------------------------------- dotted update, nested update

  /** The nested dictionary with one key per level that the path describes. */
  function Wrap(path: seq<string>, value: Value): Value {
    if path == [] then value else Items([(path[0], Wrap(path[1..], value))])
  }

  lemma ApplyOne(d: Dict, key: string, value: Value)
    ensures ApplyAll(d, [(key, value)]) == ApplyUpdate(d, key, value)
    ensures Plain(Items([(key, value)])) == Node(map[key := Plain(value)])
  {
    assert ApplyFirst(d, [(key, value)], 0) == d && PlainFirst([(key, value)], 0) == map[];
  }

  /** Writing a wrapped value into an empty dictionary. */
  lemma {:induction false} PlainWrap(path: seq<string>, value: Value)
    requires path != []
    ensures Plain(Wrap(path, value)) == Node(SetPath(map[], path, Plain(value)))
  {
    ApplyOne(map[], path[0], Wrap(path[1..], value));
    if |path| > 1 {
      PlainWrap(path[1..], value);
    }
  }

  // ------------------------------------------------------------------- reads

  function Get(d: Dict, path: seq<string>): Option<Tree>
    requires path != []
    decreases path
  {
    if path[0] !in d then None
    else if |path| == 1 then Some(d[path[0]])
    else if d[path[0]].Node? then Get(d[path[0]].kids, path[1..])
    else None
  }

  predicate Related(p: seq<string>, q: seq<string>) {
    p <= q || q <= p
  }

  lemma RelatedTails(p: seq<string>, q: seq<string>)
    requires p != [] && q != [] && p[0] == q[0]
    ensures Related(p, q) <==> Related(p[1..], q[1..])
  {
    assert p == [p[0]] + p[1..] && q == [q[0]] + q[1..];
  }

  /** The path reads the new value, what is below it is the new value's, and unrelated paths keep theirs. */
  lemma {:induction false} ReadsAfterSet(d: Dict, path: seq<string>, v: Tree, q: seq<string>)
    requires path != [] && q != []
    ensures Get(SetPath(d, path, v), path) == Some(v)
    ensures path < q ==> Get(SetPath(d, path, v), q) == if v.Node? then Get(v.kids, q[|path|..]) else None
    ensures q < path ==> Get(SetPath(d, path, v), q).Some? && Get(SetPath(d, path, v), q).value.Node?
    ensures !Related(path, q) ==> Get(SetPath(d, path, v), q) == Get(d, q)
    decreases path
  {
    if |path| > 1 {
      if q[0] == path[0] && |q| > 1 {
        RelatedTails(path, q);
        ReadsAfterSet(Sub(d, path[0]), path[1..], v, q[1..]);
        if path < q { assert q[1..][|path| - 1..] == q[|path|..]; }
      } else {
        ReadsAfterSet(Sub(d, path[0]), path[1..], v, path[1..]);
      }
    }
  }

  /** Assignments on paths neither of which is a prefix of the other commute. */
  lemma {:induction false} UnrelatedSetsCommute(d: Dict, p: seq<string>, v: Tree, q: seq<string>, w: Tree)
    requires p != [] && q != [] && !Related(p, q)
    ensures SetPath(SetPath(d, p, v), q, w) == SetPath(SetPath(d, q, w), p, v)
    decreases p
  {
    if p[0] == q[0] {
      RelatedTails(p, q);
      assert |p| > 1 && |q| > 1;
      UnrelatedSetsCommute(Sub(d, p[0]), p[1..], v, q[1..], w);
      SetTwiceBelow(d, p, v, q, w);
      SetTwiceBelow(d, q, w, p, v);
    } else {
      SetsAtDifferentKeys(d, p, v, q, w);
    }
  }

  lemma SetTwiceBelow(d: Dict, p: seq<string>, v: Tree, q: seq<string>, w: Tree)
    requires |p| > 1 && |q| > 1 && p[0] == q[0]
    ensures SetPath(SetPath(d, p, v), q, w) ==
            d[p[0] := Node(SetPath(SetPath(Sub(d, p[0]), p[1..], v), q[1..], w))]
  {
    assert Sub(SetPath(d, p, v), p[0]) == SetPath(Sub(d, p[0]), p[1..], v);
  }

  lemma SetsAtDifferentKeys(d: Dict, p: seq<string>, v: Tree, q: seq<string>, w: Tree)
    requires p != [] && q != [] && p[0] != q[0]
    ensures SetPath(SetPath(d, p, v), q, w) == SetPath(SetPath(d, q, w), p, v)
  {
    OtherKeysStay(d, p, v, q, w);
    OtherKeysStay(d, q, w, p, v);
    var x, y := SetPath(d, p, v)[p[0]], SetPath(d, q, w)[q[0]];
    assert d[p[0] := x][q[0] := y] == d[q[0] := y][p[0] := x];
  }

  lemma OtherKeysStay(d: Dict, p: seq<string>, v: Tree, q: seq<string>, w: Tree)
    requires p != [] && q != [] && p[0] != q[0]
    ensures SetPath(SetPath(d, p, v), q, w) == d[p[0] := SetPath(d, p, v)[p[0]]][q[0] := SetPath(d, q, w)[q[0]]]
  {
    assert Sub(SetPath(d, p, v), q[0]) == Sub(d, q[0]);
  }

  // ------------------------------------------------ dictionaries as new values

  /** Every level of the value has distinct, dot-free keys. */
  ghost predicate Clean(value: Value)
    decreases value, 1
  {
    value.Items? ==> CleanItems(value.items)
  }

  ghost predicate CleanItems(items: seq<(string, Value)>)
    decreases Items(items), 0
  {
    && (forall i :: 0 <= i < |items| ==> '.' !in items[i].0 && Clean(items[i].1))
    && (forall i, j :: 0 <= i < j < |items| ==> items[i].0 != items[j].0)
  }

  /** The order-free merge of two trees of dictionaries. */
  function DeepMerge(a: Dict, b: Dict): Dict
    decreases Node(b)
  {
    map k | k in a.Keys + b.Keys ::
      if k !in b then a[k]
      else if k in a && a[k].Node? && b[k].Node? then Node(DeepMerge(a[k].kids, b[k].kids))
      else b[k]
  }

  lemma {:induction false} PlainKeys(items: seq<(string, Value)>, n: nat)
    requires n <= |items|
    ensures forall k :: k in PlainFirst(items, n) <==> exists i :: 0 <= i < n && items[i].0 == k
  {
    if n > 0 {
      PlainKeys(items, n - 1);
    }
  }

  /** A nested update without dotted keys is the merge of the two trees, in whatever order its keys come. */
  lemma {:induction false} UpdatesMerge(d: Dict, items: seq<(string, Value)>, n: nat)
    requires CleanItems(items) && n <= |items|
    ensures ApplyFirst(d, items, n) == DeepMerge(d, PlainFirst(items, n))
    decreases Items(items), n
  {
    if n > 0 {
      UpdatesMerge(d, items, n - 1);
      PlainKeys(items, n - 1);
      var (key, value) := items[n - 1];
      assert key !in PlainFirst(items, n - 1);
      if key in d && d[key].Node? && value.Items? {
        UpdatesMerge(d[key].kids, value.items, |value.items|);
      }
      MergeOneKey(d, PlainFirst(items, n - 1), key, Plain(value));
    }
  }

  /** What a value becomes where `found` is found. */
  function Merged(found: Option<Tree>, given: Tree): Tree {
    if found.Some? && found.value.Node? && given.Node? then Node(DeepMerge(found.value.kids, given.kids)) else given
  }

  lemma MergeOneKey(a: Dict, b: Dict, key: string, given: Tree)
    requires key !in b
    ensures DeepMerge(a, b[key := given]) == DeepMerge(a, b)[key := Merged(Get(a, [key]), given)]
    ensures key in DeepMerge(a, b) <==> key in a
    ensures key in a ==> DeepMerge(a, b)[key] == a[key]
  {
  }

  /** What an update with a dot-free key makes of the value it finds. */
  function Landed(found: Option<Tree>, value: Value): Tree {
    if found.Some? && found.value.Node? && value.Items? then Node(ApplyAll(found.value.kids, value.items))
    else Plain(value)
  }

  /** At any depth and for any value, the nested form lands at the end of the path. */
  lemma {:induction false} NestedLandsAtPath(d: Dict, path: seq<string>, value: Value)
    requires path != [] && DotFree(path)
    ensures ApplyUpdate(d, path[0], Wrap(path[1..], value)) == SetPath(d, path, Landed(Get(d, path), value))
    decreases path
  {
    var rest := path[1..];
    if rest != [] {
      if path[0] in d && d[path[0]].Node? {
        ApplyOne(d[path[0]].kids, rest[0], Wrap(rest[1..], value));
        NestedLandsAtPath(d[path[0]].kids, rest, value);
      } else {
        PlainWrap(rest, value);
      }
    }
  }

  /** Everything in `a` that merging keeps is also in `b`. */
  ghost predicate Covered(a: Dict, b: Dict)
    decreases Node(a)
  {
    forall k :: k in a ==> k in b && (a[k].Node? && b[k].Node? ==> Covered(a[k].kids, b[k].kids))
  }

  lemma {:induction false} MergeReplacesIff(a: Dict, b: Dict)
    ensures DeepMerge(a, b) == b <==> Covered(a, b)
    decreases Node(b)
  {
    forall k | k in a && k in b && a[k].Node? && b[k].Node?
      ensures DeepMerge(a[k].kids, b[k].kids) == b[k].kids <==> Covered(a[k].kids, b[k].kids)
    {
      MergeReplacesIff(a[k].kids, b[k].kids);
    }
    var m := DeepMerge(a, b);
    if Covered(a, b) {
      assert m.Keys == b.Keys;
    } else {
      var k :| k in a && !(k in b && (a[k].Node? && b[k].Node? ==> Covered(a[k].kids, b[k].kids)));
      assert k in m && (k !in b || m[k] != b[k]);
    }
  }

  // --------------------------------------------- dotted keys inside new values

  /** At every level no key is, as a path, a prefix of another. */
  ghost predicate Independent(value: Value)
    decreases value, 1
  {
    value.Items? ==> IndependentItems(value.items)
  }

  ghost predicate IndependentItems(items: seq<(string, Value)>)
    decreases Items(items), 0
  {
    && (forall i :: 0 <= i < |items| ==> Independent(items[i].1))
    && (forall i, j :: 0 <= i < j < |items| ==> !Related(Split(items[i].0), Split(items[j].0)))
  }

  /** No level of the value has a dotted key. */
  ghost predicate DotFreeInside(value: Value)
    decreases value
  {
    value.Items? ==> forall i :: 0 <= i < |value.items| ==>
      '.' !in value.items[i].0 && DotFreeInside(value.items[i].1)
  }

  /**
   * Updating `kids` by the items leaves just the items: no item has a dotted key, every key of `kids` is
   * the key of an item, and so on where both hold dictionaries.
   */
  ghost predicate Replaces(kids: Dict, items: seq<(string, Value)>)
    decreases Items(items), 0
  {
    && (forall k :: k in kids ==> exists i :: 0 <= i < |items| && items[i].0 == k)
    && (forall i :: 0 <= i < |items| ==> '.' !in items[i].0)
    && (forall i :: 0 <= i < |items| ==> ReplacesAt(Get(kids, [items[i].0]), items[i].1))
  }

  ghost predicate ReplacesAt(found: Option<Tree>, value: Value)
    decreases value, 1
  {
    found.Some? && found.value.Node? && value.Items? ==> Replaces(found.value.kids, value.items)
  }

  /** An update keeps every key, adds the first segment of its own, and touches nothing else. */
  lemma UpdateTouches(d: Dict, key: string, value: Value)
    ensures ApplyUpdate(d, key, value).Keys == d.Keys + {Split(key)[0]}
    ensures forall k :: k in d && k != Split(key)[0] ==> ApplyUpdate(d, key, value)[k] == d[k]
    ensures '.' !in key ==> Split(key) == [key] && ApplyUpdate(d, key, value)[key] == Landed(Get(d, [key]), value)
  {
    SplitJoins(key);
  }

  lemma OwnKeyLands(d: Dict, key: string, value: Value)
    requires '.' !in key
    ensures Get(ApplyUpdate(d, key, value), [key]) == Some(Landed(Get(d, [key]), value))
  {
    UpdateTouches(d, key, value);
  }

  lemma OtherKeyStays(d: Dict, key: string, value: Value, other: string)
    requires Split(key)[0] != other
    ensures Get(ApplyUpdate(d, key, value), [other]) == Get(d, [other])
  {
    UpdateTouches(d, key, value);
  }

  lemma {:induction false} UpdatesKeep(d: Dict, items: seq<(string, Value)>, n: nat, k: string)
    requires n <= |items|
    ensures k in ApplyFirst(d, items, n) <==> k in d || exists i :: 0 <= i < n && Split(items[i].0)[0] == k
  {
    if n > 0 {
      UpdatesKeep(d, items, n - 1, k);
      UpdateTouches(ApplyFirst(d, items, n - 1), items[n - 1].0, items[n - 1].1);
    }
  }

  lemma UnrelatedHeads(items: seq<(string, Value)>, i: nat, j: nat)
    requires IndependentItems(items) && i < |items| && j < |items| && i != j && '.' !in items[i].0
    ensures Split(items[i].0) == [items[i].0] && Split(items[j].0)[0] != items[i].0
  {
    var key, path := items[i].0, Split(items[j].0);
    SplitJoins(key);
    assert [key] <= path <==> path[0] == key;
    if i > j { assert !Related(path, Split(key)); }
  }

  /** With independent items, a dot-free key receives its own item's value and nothing else. */
  lemma {:induction false} OwnItemLands(d: Dict, items: seq<(string, Value)>, n: nat, i: nat)
    requires IndependentItems(items) && n <= |items| && i < |items| && '.' !in items[i].0
    ensures Get(ApplyFirst(d, items, n), [items[i].0]) ==
            if i < n then Some(Landed(Get(d, [items[i].0]), items[i].1)) else Get(d, [items[i].0])
  {
    if n > 0 {
      var (key, value) := items[n - 1];
      assert ApplyFirst(d, items, n) == ApplyUpdate(ApplyFirst(d, items, n - 1), key, value);
      hide *;
      OwnItemLands(d, items, n - 1, i);
      if i == n - 1 {
        OwnKeyLands(ApplyFirst(d, items, n - 1), key, value);
      } else {
        UnrelatedHeads(items, i, n - 1);
        OtherKeyStays(ApplyFirst(d, items, n - 1), key, value, items[i].0);
      }
    }
  }

  /** The same for the stored form. */
  lemma {:induction false} OwnItemStored(items: seq<(string, Value)>, n: nat, i: nat)
    requires IndependentItems(items) && i < n <= |items| && '.' !in items[i].0
    ensures items[i].0 in PlainFirst(items, n) && PlainFirst(items, n)[items[i].0] == Plain(items[i].1)
  {
    if i < n - 1 {
      OwnItemStored(items, n - 1, i);
      UnrelatedHeads(items, i, n - 1);
      SplitJoins(items[n - 1].0);
    }
  }

  /** A dotted key is walked by the update and stored whole by the assignment, so the two differ. */
  lemma DottedItemDiffers(kids: Dict, items: seq<(string, Value)>, j: nat)
    requires IndependentItems(items) && j < |items| && '.' in items[j].0
    ensures ApplyAll(kids, items) != PlainFirst(items, |items|)
  {
    var head := Split(items[j].0)[0];
    SplitJoins(items[j].0);
    UpdatesKeep(kids, items, |items|, head);
    PlainKeys(items, |items|);
    if i :| 0 <= i < |items| && items[i].0 == head {
      assert '.' !in items[i].0;
      UnrelatedHeads(items, i, j);
    }
  }

  lemma {:induction false} ReplacesIff(kids: Dict, items: seq<(string, Value)>)
    requires IndependentItems(items)
    ensures ApplyAll(kids, items) == PlainFirst(items, |items|) <==> Replaces(kids, items)
    decreases Items(items), 0
  {
    var after, stored := ApplyAll(kids, items), PlainFirst(items, |items|);
    if j :| 0 <= j < |items| && '.' in items[j].0 {
      DottedItemDiffers(kids, items, j);
    } else {
      forall i | 0 <= i < |items|
        ensures items[i].0 in after && items[i].0 in stored
        ensures after[items[i].0] == stored[items[i].0] <==> ReplacesAt(Get(kids, [items[i].0]), items[i].1)
      {
        OwnItemLands(kids, items, |items|, i);
        OwnItemStored(items, |items|, i);
        LandsAsPlainIff(Get(kids, [items[i].0]), items[i].1);
      }
      PlainKeys(items, |items|);
      forall k
        ensures k in after <==> k in kids || k in stored
      {
        UpdatesKeep(kids, items, |items|, k);
        forall i | 0 <= i < |items| { SplitJoins(items[i].0); }
      }
      SameDictIff(after, stored, items);
    }
  }

  lemma SameDictIff(after: Dict, stored: Dict, items: seq<(string, Value)>)
    requires forall k :: k in stored <==> exists i :: 0 <= i < |items| && items[i].0 == k
    requires forall i :: 0 <= i < |items| ==> items[i].0 in after
    ensures after == stored <==>
            && (forall k :: k in after ==> k in stored)
            && (forall i :: 0 <= i < |items| ==> after[items[i].0] == stored[items[i].0])
  {
  }

  lemma {:induction false} LandsAsPlainIff(found: Option<Tree>, value: Value)
    requires Independent(value)
    ensures Landed(found, value) == Plain(value) <==> ReplacesAt(found, value)
    decreases value, 1
  {
    if found.Some? && found.value.Node? && value.Items? {
      ReplacesIff(found.value.kids, value.items);
    }
  }

  /**
   * For any key with a dot, at any depth, and any value whose keys do not overlap as paths: the dotted
   * update and the update with the equivalent nested dictionary give the same dump exactly if, where the
   * old and the new value are both dictionaries, the new one has no dotted key and has every key of the
   * old one, and so on below. The dotted form replaces the old value, the nested form updates it.
   */
  lemma DottedEqualsNestedIff(d: Dict, key: string, value: Value)
    requires Independent(value)
    ensures var nested := ApplyUpdate(d, Split(key)[0], Wrap(Split(key)[1..], value));
            '.' in key ==> (ApplyUpdate(d, key, value) == nested <==> ReplacesAt(Get(d, Split(key)), value))
  {
    var path := Split(key);
    SplitJoins(key);
    NestedLandsAtPath(d, path, value);
    var found := Get(d, path);
    ReadsAfterSet(d, path, Plain(value), path);
    ReadsAfterSet(d, path, Landed(found, value), path);
    LandsAsPlainIff(found, value);
  }

  /** In particular they agree for every scalar. */
  lemma DottedEqualsNested(d: Dict, key: string, value: Value)
    requires value.Scalar?
    ensures ApplyUpdate(d, key, value) == ApplyUpdate(d, Split(key)[0], Wrap(Split(key)[1..], value))
  {
    SplitJoins(key);
    if '.' in key {
      DottedEqualsNestedIff(d, key, value);
    } else {
      assert Split(key) == [key];
    }
  }

  /** Where the keys of the value are distinct and dot-free, that is: the new dictionary covers the old one. */
  lemma {:induction false} ReplacesMeansCovers(kids: Dict, items: seq<(string, Value)>)
    requires CleanItems(items)
    ensures IndependentItems(items) && (Replaces(kids, items) <==> Covered(kids, PlainFirst(items, |items|)))
  {
    CleanIsIndependent(Items(items));
    ReplacesIff(kids, items);
    UpdatesMerge(kids, items, |items|);
    MergeReplacesIff(kids, PlainFirst(items, |items|));
  }

  lemma {:induction false} CleanIsIndependent(value: Value)
    requires Clean(value)
    ensures Independent(value)
    decreases value
  {
    if value.Items? {
      var items := value.items;
      forall i | 0 <= i < |items|
        ensures Independent(items[i].1) && Split(items[i].0) == [items[i].0]
      {
        CleanIsIndependent(items[i].1);
        SplitJoins(items[i].0);
      }
      forall i, j | 0 <= i < j < |items|
        ensures !Related(Split(items[i].0), Split(items[j].0))
      {
        assert [items[i].0][0] != [items[j].0][0];
      }
    }
  }

  // ---------------------------------------------------------- repeated updates

  /** An update list as one instruction per slot: put a tree, or enter a dictionary, made if there is none. */
  datatype Patch = Put(tree: Tree) | Into(kids: map<string, Patch>)

  function ApplyPatch(p: Patch, found: Option<Tree>): Tree {
    match p
    case Put(t) => t
    case Into(patches) =>
      var kids := if found.Some? && found.value.Node? then found.value.kids else map[];
      Node(map k | k in kids.Keys + patches.Keys ::
        if k in patches then ApplyPatch(patches[k], if k in kids then Some(kids[k]) else None) else kids[k])
  }

  /** First `p`, then `q`. */
  function Compose(p: Patch, q: Patch): Patch
    decreases q
  {
    match q
    case Put(_) => q
    case Into(second) =>
      match p
      case Put(t) => Put(ApplyPatch(q, Some(t)))
      case Into(first) =>
        Into(map k | k in first.Keys + second.Keys ::
          if k !in second then first[k] else if k !in first then second[k] else Compose(first[k], second[k]))
  }

  lemma {:induction false} ComposeIsThen(p: Patch, q: Patch, found: Option<Tree>)
    ensures ApplyPatch(Compose(p, q), found) == ApplyPatch(q, Some(ApplyPatch(p, found)))
    decreases q
  {
    if p.Into? && q.Into? {
      var kids := if found.Some? && found.value.Node? then found.value.kids else map[];
      var mid := ApplyPatch(p, found).kids;
      var left, right := ApplyPatch(Compose(p, q), found).kids, ApplyPatch(q, Some(ApplyPatch(p, found))).kids;
      assert left.Keys == right.Keys;
      forall k | k in left
        ensures left[k] == right[k]
      {
        if k in p.kids && k in q.kids {
          ComposeIsThen(p.kids[k], q.kids[k], Get(kids, [k]));
          assert mid[k] == ApplyPatch(p.kids[k], Get(kids, [k]));
        }
      }
    }
  }

  /** Whatever it finds, a patch applied again changes nothing. */
  lemma {:induction false} PatchIsIdempotent(p: Patch, found: Option<Tree>)
    ensures ApplyPatch(p, Some(ApplyPatch(p, found))) == ApplyPatch(p, found)
    decreases p
  {
    if p.Into? {
      var kids := if found.Some? && found.value.Node? then found.value.kids else map[];
      var once := ApplyPatch(p, found).kids;
      forall k | k in p.kids
        ensures ApplyPatch(p.kids[k], Some(once[k])) == once[k]
      {
        PatchIsIdempotent(p.kids[k], Get(kids, [k]));
      }
      assert ApplyPatch(p, Some(ApplyPatch(p, found))).kids == once;
    }
  }

  function PathPatch(path: seq<string>, p: Patch): Patch {
    if path == [] then p else Into(map[path[0] := PathPatch(path[1..], p)])
  }

  function TreePatch(t: Tree): Patch {
    match t
    case Leaf(_) => Put(t)
    case Node(kids) => Into(map k | k in kids :: TreePatch(kids[k]))
  }

  lemma {:induction false} PathPatchSets(d: Dict, path: seq<string>, v: Tree)
    requires path != []
    ensures ApplyPatch(PathPatch(path, Put(v)), Some(Node(d))) == Node(SetPath(d, path, v))
    decreases path
  {
    var below := PathPatch(path[1..], Put(v));
    if |path| > 1 {
      PathPatchSets(Sub(d, path[0]), path[1..], v);
      SameSlot(below, Get(d, [path[0]]), Sub(d, path[0]));
    }
    assert ApplyPatch(PathPatch(path, Put(v)), Some(Node(d))).kids == SetPath(d, path, v);
  }

  /** Entering a slot without a dictionary is entering an empty one. */
  lemma SameSlot(p: Patch, found: Option<Tree>, kids: Dict)
    requires kids == if found.Some? && found.value.Node? then found.value.kids else map[]
    requires p.Into?
    ensures ApplyPatch(p, found) == ApplyPatch(p, Some(Node(kids)))
  {
  }

  lemma {:induction false} TreePatchMerges(d: Dict, b: Dict)
    ensures ApplyPatch(TreePatch(Node(b)), Some(Node(d))) == Node(DeepMerge(d, b))
    decreases Node(b)
  {
    var p := TreePatch(Node(b));
    forall k | k in b
      ensures ApplyPatch(p.kids[k], Get(d, [k])) == Merged(Get(d, [k]), b[k])
    {
      assert p.kids[k] == TreePatch(b[k]);
      if b[k].Node? {
        assert TreePatch(b[k]) == TreePatch(Node(b[k].kids));
        TreePatchMerges(Sub(d, k), b[k].kids);
        SameSlot(TreePatch(b[k]), Get(d, [k]), Sub(d, k));
        MergeIntoNothing(b[k].kids);
      }
    }
    assert ApplyPatch(p, Some(Node(d))).kids == DeepMerge(d, b);
  }

  lemma MergeIntoNothing(b: Dict)
    ensures DeepMerge(map[], b) == b
  {
  }

  /** Dotted keys with any value, and other keys with values that have distinct, dot-free keys. */
  ghost predicate Plainly(items: seq<(string, Value)>) {
    forall i :: 0 <= i < |items| ==> '.' in items[i].0 || Clean(items[i].1)
  }

  function PatchOf(key: string, value: Value): Patch {
    if '.' in key then PathPatch(Split(key), Put(Plain(value))) else Into(map[key := TreePatch(Plain(value))])
  }

  function PatchOfFirst(items: seq<(string, Value)>, n: nat): Patch
    requires n <= |items|
  {
    if n == 0 then Into(map[]) else Compose(PatchOfFirst(items, n - 1), PatchOf(items[n - 1].0, items[n - 1].1))
  }

  lemma UpdateIsPatch(d: Dict, key: string, value: Value)
    requires '.' in key || Clean(value)
    ensures ApplyPatch(PatchOf(key, value), Some(Node(d))) == Node(ApplyUpdate(d, key, value))
  {
    if '.' in key {
      PathPatchSets(d, Split(key), Plain(value));
    } else {
      ValueIsPatch(Get(d, [key]), value);
      hide TreePatch, Landed;
      assert ApplyUpdate(d, key, value) == d[key := Landed(Get(d, [key]), value)] by { UpdateTouches(d, key, value); }
      assert ApplyPatch(PatchOf(key, value), Some(Node(d))).kids == ApplyUpdate(d, key, value);
    }
  }

  lemma ValueIsPatch(found: Option<Tree>, value: Value)
    requires Clean(value)
    ensures ApplyPatch(TreePatch(Plain(value)), found) == Landed(found, value)
  {
    if value.Items? {
      var kids := if found.Some? && found.value.Node? then found.value.kids else map[];
      var given := PlainFirst(value.items, |value.items|);
      TreePatchMerges(kids, given);
      SameSlot(TreePatch(Node(given)), found, kids);
      UpdatesMerge(kids, value.items, |value.items|);
      MergeIntoNothing(given);
    }
  }

  /** An update list is one patch. */
  lemma {:induction false} UpdatesArePatch(d: Dict, items: seq<(string, Value)>, n: nat)
    requires Plainly(items) && n <= |items|
    ensures ApplyPatch(PatchOfFirst(items, n), Some(Node(d))) == Node(ApplyFirst(d, items, n))
  {
    if n == 0 {
      assert ApplyPatch(Into(map[]), Some(Node(d))).kids == d;
    } else {
      UpdatesArePatch(d, items, n - 1);
      UpdateIsPatch(ApplyFirst(d, items, n - 1), items[n - 1].0, items[n - 1].1);
      ComposeIsThen(PatchOfFirst(items, n - 1), PatchOf(items[n - 1].0, items[n - 1].1), Some(Node(d)));
    }
  }

  /** On every dump, taken as it is: the validation that follows each update is in RuntimeConfigValidation. */
  ghost predicate Idempotent(items: seq<(string, Value)>) {
    forall d :: ApplyAll(ApplyAll(d, items), items) == ApplyAll(d, items)
  }

  /**
   * Applying the same updates again to the dump changes nothing, for any dump and any mixture of dotted
   * and nested updates, if no dictionary under a dot-free key has a dotted key inside.
   */
  lemma UpdateIsIdempotent(items: seq<(string, Value)>)
    requires Plainly(items)
    ensures Idempotent(items)
  {
    forall d
      ensures ApplyAll(ApplyAll(d, items), items) == ApplyAll(d, items)
    {
      UpdatesArePatch(d, items, |items|);
      UpdatesArePatch(ApplyAll(d, items), items, |items|);
      PatchIsIdempotent(PatchOfFirst(items, |items|), Some(Node(d)));
    }
  }

  /** In a dump a dictionary with a dotted key is stored whole the first time, and walked into the second. */
  lemma DottedInsideChanges(d: Dict)
    requires "a" !in d
    ensures var items := [("a", Items([("x.y", Scalar(1))]))];
            ApplyAll(ApplyAll(d, items), items) != ApplyAll(d, items)
  {
    var inner := [("x.y", Scalar(1))];
    var items := [("a", Items(inner))];
    IndependentExample();
    ApplyOne(d, "a", Items(inner));
    ApplyOne(ApplyAll(d, items), "a", Items(inner));
    DottedItemDiffers(PlainFirst(inner, 1), inner, 0);
    assert "x.y"[1] == '.';
  }

  lemma IndependentExample()
    ensures IndependentItems([("x.y", Scalar(1))])
  {
  }

  /** A dictionary whose keys overlap as paths. */
  const OVERLAPPING: seq<(string, Value)> := [("x", Items([("y", Scalar(1))])), ("x.y", Scalar(1))]

  /** Overlapping keys can hide a dotted one: here the stored form and every later update hold the same. */
  lemma OverlapCanHide()
    ensures Idempotent([("a", Items(OVERLAPPING))]) && !DotFreeBelow([("a", Items(OVERLAPPING))])
  {
    var value := Items(OVERLAPPING);
    var items := [("a", value)];
    assert "x.y"[1] == '.' && '.' in OVERLAPPING[1].0;
    assert !DotFreeInside(value) by { assert value.items[1] == OVERLAPPING[1]; }
    assert !DotFreeBelow(items) by { assert items[0] == ("a", value) && '.' !in "a"; }
    forall d
      ensures ApplyAll(ApplyAll(d, items), items) == ApplyAll(d, items)
    {
      var once := ApplyUpdate(d, "a", value);
      ApplyOne(d, "a", value);
      ApplyOne(once, "a", value);
      UpdateTouches(d, "a", value);
      UpdateTouches(once, "a", value);
      OverlapSettles(Get(d, ["a"]));
      assert '.' !in "a";
    }
  }

  lemma OverlapSettles(found: Option<Tree>)
    ensures var once := Landed(found, Items(OVERLAPPING)); Landed(Some(once), Items(OVERLAPPING)) == once
  {
    var once := Landed(found, Items(OVERLAPPING));
    OverlapStored();
    if found.Some? && found.value.Node? { OverlapWrites(found.value.kids); }
    OverlapWrites(once.kids);
    hide OVERLAPPING;
    var kids := once.kids;
    assert Sub(kids, "x")["y" := Leaf(1)] == Sub(kids, "x");
    assert kids["x" := Node(Sub(kids, "x"))] == kids;
  }

  lemma OverlapWrites(d: Dict)
    ensures ApplyAll(d, OVERLAPPING) == d["x" := Node(Sub(d, "x")["y" := Leaf(1)])]
  {
    var inner := Items([("y", Scalar(1))]);
    assert '.' !in "x" && '.' !in "y" && "x.y"[1] == '.';
    ApplyOne(Sub(d, "x"), "y", Scalar(1));
    UpdateTouches(d, "x", inner);
    assert ApplyFirst(d, OVERLAPPING, 0) == d;
    var first := ApplyFirst(d, OVERLAPPING, 1);
    assert first == ApplyUpdate(d, "x", inner);
    assert first == d["x" := Node(Sub(d, "x")["y" := Leaf(1)])];
    JoinSplits(["x", "y"]);
    assert JoinDots(["x", "y"]) == "x.y";
    assert ApplyFirst(d, OVERLAPPING, 2) == ApplyUpdate(first, "x.y", Scalar(1));
    assert SetPath(first, ["x", "y"], Leaf(1)) == first["x" := Node(Sub(first, "x")["y" := Leaf(1)])];
    assert Sub(first, "x")["y" := Leaf(1)] == Sub(first, "x") && first["x" := Node(Sub(first, "x"))] == first;
  }

  lemma OverlapStored()
    ensures PlainFirst(OVERLAPPING, |OVERLAPPING|) == map["x" := Node(map["y" := Leaf(1)]), "x.y" := Leaf(1)]
  {
    assert PlainFirst(OVERLAPPING, 0) == map[];
    assert PlainFirst(OVERLAPPING, 1) == map["x" := Node(map["y" := Leaf(1)])];
  }

  /** No dictionary under a dot-free key has a dotted key inside. */
  ghost predicate DotFreeBelow(items: seq<(string, Value)>) {
    forall i :: 0 <= i < |items| ==> '.' in items[i].0 || DotFreeInside(items[i].1)
  }

  /**
   * For updates whose keys do not overlap: they can be repeated on every dump without a change
   * exactly if no dictionary under a dot-free key has a dotted key inside.
   */
  lemma UpdateIsIdempotentIff(items: seq<(string, Value)>)
    requires IndependentItems(items)
    ensures Idempotent(items) <==> DotFreeBelow(items)
  {
    if DotFreeBelow(items) {
      forall i | 0 <= i < |items| && '.' !in items[i].0
        ensures Clean(items[i].1)
      {
        DotFreeIsClean(items[i].1);
      }
      UpdateIsIdempotent(items);
    } else {
      var i :| 0 <= i < |items| && '.' !in items[i].0 && !DotFreeInside(items[i].1);
      var inner := items[i].1.items;
      var once := ApplyAll(map[], items);
      OwnItemLands(map[], items, |items|, i);
      OwnItemLands(once, items, |items|, i);
      ReplacesIff(PlainFirst(inner, |inner|), inner);
      StoredReplacesItself(items[i].1);
      hide Replaces, DotFreeInside, IndependentItems;
      assert Get(ApplyAll(once, items), [items[i].0]) != Get(once, [items[i].0]);
    }
  }

  lemma {:induction false} DotFreeIsClean(value: Value)
    requires Independent(value) && DotFreeInside(value)
    ensures Clean(value)
    decreases value
  {
    if value.Items? {
      var items := value.items;
      forall i | 0 <= i < |items|
        ensures Clean(items[i].1)
      {
        DotFreeIsClean(items[i].1);
      }
      forall i, j | 0 <= i < j < |items|
        ensures items[i].0 != items[j].0
      {
        assert !Related(Split(items[i].0), Split(items[j].0));
      }
    }
  }

  /** Updating the stored form by itself leaves it as it is only if there is no dotted key. */
  lemma {:induction false} StoredReplacesItself(value: Value)
    requires Independent(value) && value.Items?
    ensures Replaces(PlainFirst(value.items, |value.items|), value.items) ==> DotFreeInside(value)
    decreases value
  {
    var items := value.items;
    var stored := PlainFirst(items, |items|);
    if Replaces(stored, items) {
      forall i | 0 <= i < |items|
        ensures DotFreeInside(items[i].1)
      {
        OwnItemStored(items, |items|, i);
        if items[i].1.Items? {
          StoredReplacesItself(items[i].1);
          assert ReplacesAt(Get(stored, [items[i].0]), items[i].1);
        }
      }
    }
  }
}
