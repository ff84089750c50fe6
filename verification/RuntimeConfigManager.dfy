/** The in-place form of the configuration update (src/ashare_system/runtime_config.py). */
module RuntimeConfigManager {
  import opened RuntimeConfig
  import opened Wrappers

  /** A nested dictionary as an object that is updated in place. */
  class DictObject {
    var entries: map<string, Item>

    constructor ()
      ensures entries == map[]
    {
      entries := map[];
    }
  }

  datatype Item = Flat(scalar: int) | Held(dict: DictObject)

  /** The tree of objects behind a dictionary. */
  datatype Shape = Plate(scalar: int) | Nest(dict: DictObject, kids: map<string, Shape>)

  function ItemOf(s: Shape): Item {
    match s
    case Plate(x) => Flat(x)
    case Nest(d, _) => Held(d)
  }

  function View(s: Shape): (t: Tree)
    ensures t.Node? <==> s.Nest?
  {
    match s
    case Plate(x) => Leaf(x)
    case Nest(_, kids) => Node(map k | k in kids :: View(kids[k]))
  }

  /** The dictionary that a dictionary object stands for. */
  function DictOf(s: Shape): Dict
    requires s.Nest?
  {
    View(s).kids
  }

  ghost function Objects(s: Shape): set<DictObject> {
    match s
    case Plate(_) => {}
    case Nest(d, kids) => {d} + set k, o | k in kids && o in Objects(kids[k]) :: o
  }

  /** No dictionary object occurs twice. */
  ghost predicate Separate(s: Shape) {
    s.Nest? ==>
      && (forall k :: k in s.kids ==> Separate(s.kids[k]) && s.dict !in Objects(s.kids[k]))
      && (forall j, k :: j in s.kids && k in s.kids && j != k ==> Objects(s.kids[j]) !! Objects(s.kids[k]))
  }

  function ItemsOf(kids: map<string, Shape>): map<string, Item> {
    map k | k in kids :: ItemOf(kids[k])
  }

  /** What some dictionary objects hold. */
  type Heap = map<DictObject, map<string, Item>>

  ghost function Now(objects: set<DictObject>): Heap
    reads objects
  {
    map o | o in objects :: o.entries
  }

  /** The objects hold what the shape says. */
  ghost predicate HoldsIn(s: Shape, heap: Heap) {
    s.Nest? ==>
      && s.dict in heap && heap[s.dict] == ItemsOf(s.kids)
      && forall k :: k in s.kids ==> HoldsIn(s.kids[k], heap)
  }

  ghost predicate Holds(s: Shape)
    reads Objects(s)
  {
    HoldsIn(s, Now(Objects(s)))
  }

  /** Only the objects of the shape matter. */
  lemma {:induction false} SameObjects(s: Shape, heap: Heap, other: Heap)
    requires HoldsIn(s, heap)
    requires forall o :: o in Objects(s) && o in heap ==> o in other && other[o] == heap[o]
    ensures HoldsIn(s, other)
  {
    if s.Nest? {
      forall k | k in s.kids
        ensures HoldsIn(s.kids[k], other)
      {
        SameObjects(s.kids[k], heap, other);
      }
    }
  }

  // ------------------------------------------------------------ one assignment

  /** The object at the end of a path of dictionaries. */
  ghost predicate Leads(s: Shape, path: seq<string>, d: DictObject)
    decreases path
  {
    s.Nest? && if path == [] then s.dict == d else path[0] in s.kids && Leads(s.kids[path[0]], path[1..], d)
  }

  ghost function Graft(s: Shape, path: seq<string>, d: DictObject, key: string, sub: Shape): Shape
    requires Leads(s, path, d)
    decreases path
  {
    if path == [] then s.(kids := s.kids[key := sub])
    else s.(kids := s.kids[path[0] := Graft(s.kids[path[0]], path[1..], d, key, sub)])
  }

  lemma {:induction false} LeadsInside(s: Shape, path: seq<string>, d: DictObject)
    requires Leads(s, path, d)
    ensures d in Objects(s) && s.Nest?
    decreases path
  {
    if path != [] { LeadsInside(s.kids[path[0]], path[1..], d); }
  }

  lemma {:induction false} GraftStaysSeparate(s: Shape, path: seq<string>, d: DictObject, key: string, sub: Shape)
    requires Leads(s, path, d) && Separate(s) && Separate(sub) && Objects(s) !! Objects(sub)
    ensures var g := Graft(s, path, d, key, sub);
            Separate(g) && Objects(g) <= Objects(s) + Objects(sub) && g.Nest? && g.dict == s.dict
    decreases path
  {
    if path != [] {
      GraftStaysSeparate(s.kids[path[0]], path[1..], d, key, sub);
    }
  }

  /** Grafting is assigning at the path. */
  lemma {:induction false} GraftIsSetPath(s: Shape, path: seq<string>, d: DictObject, key: string, sub: Shape)
    requires Leads(s, path, d)
    ensures var g := Graft(s, path, d, key, sub);
            && g.Nest? && DictOf(g) == SetPath(DictOf(s), path + [key], View(sub))
            && Leads(g, path, d)
            && (sub.Nest? ==> Leads(g, path + [key], sub.dict))
    decreases path
  {
    var g := Graft(s, path, d, key, sub);
    if path == [] {
      assert DictOf(g) == DictOf(s)[key := View(sub)];
    } else {
      var kid := s.kids[path[0]];
      GraftIsSetPath(kid, path[1..], d, key, sub);
      assert (path + [key])[1..] == path[1..] + [key];
      assert DictOf(g) == DictOf(s)[path[0] := View(g.kids[path[0]])];
    }
  }

  /** After assigning one entry of one object, the heap holds the graft. */
  lemma {:induction false} AssignedHolds(
      s: Shape, path: seq<string>, d: DictObject, key: string, sub: Shape, heap: Heap)
    requires Leads(s, path, d) && Separate(s) && Objects(s) !! Objects(sub)
    requires HoldsIn(s, heap) && HoldsIn(sub, heap)
    ensures d in heap
    ensures HoldsIn(Graft(s, path, d, key, sub), heap[d := heap[d][key := ItemOf(sub)]])
    decreases path
  {
    LeadsInside(s, path, d);
    if path == [] {
      KidAssigned(s, key, sub, heap);
    } else {
      var kid := s.kids[path[0]];
      AssignedHolds(kid, path[1..], d, key, sub, heap);
      LeadsInside(kid, path[1..], d);
      KidRegrafted(s, path[0], Graft(kid, path[1..], d, key, sub), heap, heap[d := heap[d][key := ItemOf(sub)]]);
    }
  }

  lemma KidAssigned(s: Shape, key: string, sub: Shape, heap: Heap)
    requires s.Nest? && Separate(s) && s.dict !in Objects(sub)
    requires HoldsIn(s, heap) && HoldsIn(sub, heap)
    ensures HoldsIn(s.(kids := s.kids[key := sub]), heap[s.dict := heap[s.dict][key := ItemOf(sub)]])
  {
    var after := heap[s.dict := heap[s.dict][key := ItemOf(sub)]];
    SameObjects(sub, heap, after);
    OthersHold(s, key, heap, after);
    assert after[s.dict] == ItemsOf(s.kids[key := sub]);
  }

  lemma KidRegrafted(s: Shape, key: string, kid: Shape, heap: Heap, after: Heap)
    requires s.Nest? && Separate(s) && key in s.kids && HoldsIn(s, heap)
    requires HoldsIn(kid, after) && ItemOf(kid) == ItemOf(s.kids[key])
    requires forall o :: o in heap && o !in Objects(s.kids[key]) ==> o in after && after[o] == heap[o]
    ensures HoldsIn(s.(kids := s.kids[key := kid]), after)
  {
    OthersHold(s, key, heap, after);
    assert ItemsOf(s.kids[key := kid]) == ItemsOf(s.kids);
  }

  lemma OthersHold(s: Shape, key: string, heap: Heap, after: Heap)
    requires s.Nest? && HoldsIn(s, heap)
    requires forall k, o :: k in s.kids && k != key && o in Objects(s.kids[k]) && o in heap ==>
               o in after && after[o] == heap[o]
    ensures forall k :: k in s.kids && k != key ==> HoldsIn(s.kids[k], after)
  {
    forall k | k in s.kids && k != key
      ensures HoldsIn(s.kids[k], after)
    {
      SameObjects(s.kids[k], heap, after);
    }
  }

  /** What every method keeps: a tree of distinct objects that hold what it says. */
  ghost predicate Sound(s: Shape)
    reads Objects(s)
  {
    Separate(s) && Holds(s)
  }

  /** The graft is again such a tree, in the heap after the assignment. */
  lemma GraftIsSound(s: Shape, path: seq<string>, d: DictObject, key: string, sub: Shape, own: Heap, others: Heap)
    requires Leads(s, path, d) && Separate(s) && Separate(sub) && Objects(s) !! Objects(sub)
    requires HoldsIn(s, own) && HoldsIn(sub, others) && own.Keys == Objects(s) && others.Keys == Objects(sub)
    ensures d in own
    ensures var g := Graft(s, path, d, key, sub);
            && Separate(g) && Objects(g) <= Objects(s) + Objects(sub) && g.Nest? && s.Nest? && g.dict == s.dict
            && HoldsIn(g, (own + others)[d := own[d][key := ItemOf(sub)]])
  {
    SameObjects(s, own, own + others);
    SameObjects(sub, others, own + others);
    AssignedHolds(s, path, d, key, sub, own + others);
    GraftStaysSeparate(s, path, d, key, sub);
    LeadsInside(s, path, d);
  }

  /** `d[key] = item`, for a dictionary object inside a larger tree. */
  method Assign(d: DictObject, key: string, item: Item, ghost s: Shape, ghost path: seq<string>, ghost sub: Shape)
    returns (ghost g: Shape)
    requires Leads(s, path, d) && Sound(s) && Sound(sub) && Objects(s) !! Objects(sub) && item == ItemOf(sub)
    modifies d
    ensures g == Graft(s, path, d, key, sub) && Sound(g) && Objects(g) <= Objects(s) + Objects(sub)
    ensures g.Nest? && s.Nest? && g.dict == s.dict
    ensures d.entries == old(d.entries)[key := item]
  {
    hide Objects, Separate, HoldsIn, Leads, Graft;
    g := Graft(s, path, d, key, sub);
    ghost var own, others := Now(Objects(s)), Now(Objects(sub));
    GraftIsSound(s, path, d, key, sub, own, others);
    d.entries := d.entries[key := item];
    ghost var heap: Heap := (own + others)[d := own[d][key := item]];
    SameObjects(g, heap, Now(Objects(g)));
  }

  // ------------------------------------------------------------- a dotted key

  /** Looking up the next segment leads on if it holds a dictionary; if not, nothing is read there as one. */
  lemma {:induction false} StepDown(s: Shape, path: seq<string>, d: DictObject, key: string, heap: Heap)
    requires Leads(s, path, d) && HoldsIn(s, heap)
    ensures d in heap
    ensures key in heap[d] && heap[d][key].Held? ==> Leads(s, path + [key], heap[d][key].dict)
    ensures !(key in heap[d] && heap[d][key].Held?) ==> NoDictAt(DictOf(s), path + [key])
    decreases path
  {
    if path == [] {
      assert key in s.kids ==> DictOf(s)[key] == View(s.kids[key]);
      assert path + [key] == [key];
    } else {
      StepDown(s.kids[path[0]], path[1..], d, key, heap);
      assert (path + [key])[1..] == path[1..] + [key];
      assert DictOf(s)[path[0]] == View(s.kids[path[0]]);
    }
  }

  ghost predicate NoDictAt(d: Dict, path: seq<string>)
    requires path != []
  {
    Get(d, path).None? || Get(d, path).value.Leaf?
  }

  /** Putting an empty dictionary where the walk would put one changes nothing in the end. */
  lemma {:induction false} EmptyFirst(d: Dict, path: seq<string>, more: seq<string>, v: Tree)
    requires path != [] && more != [] && NoDictAt(d, path)
    ensures SetPath(SetPath(d, path, Node(map[])), path + more, v) == SetPath(d, path + more, v)
    decreases path
  {
    assert (path + more)[1..] == path[1..] + more;
    if |path| == 1 {
      assert path[1..] + more == more;
      assert Sub(SetPath(d, path, Node(map[])), path[0]) == Sub(d, path[0]);
    } else if Sub(d, path[0]) == map[] {
      EmptyFirst(map[], path[1..], more, v);
    } else {
      EmptyFirst(d[path[0]].kids, path[1..], more, v);
    }
  }

  /** `{}` */
  method NewDict() returns (d: DictObject, ghost s: Shape)
    ensures s == Nest(d, map[]) && Sound(s) && Objects(s) == {d} && fresh(d) && View(s) == Node(map[])
  {
    d := new DictObject();
    s := Nest(d, map[]);
  }

  /** One round of the cursor loop: enter the dictionary under the next segment, making it if need be. */
  method Enter(cursor: DictObject, part: string, ghost s: Shape, ghost path: seq<string>)
    returns (nested: DictObject, ghost g: Shape)
    requires Leads(s, path, cursor) && Sound(s)
    modifies Objects(s)
    ensures Leads(g, path + [part], nested) && Sound(g)
    ensures forall o :: o in Objects(g) ==> o in Objects(s) || fresh(o)
    ensures g.Nest? && s.Nest? && g.dict == s.dict && forall more, v :: more != [] ==>
              SetPath(DictOf(g), path + [part] + more, v) == SetPath(DictOf(s), path + [part] + more, v)
  {
    hide Objects, Separate, HoldsIn, Leads, Graft, SetPath, Get;
    LeadsInside(s, path, cursor);
    StepDown(s, path, cursor, part, Now(Objects(s)));
    if part in cursor.entries && cursor.entries[part].Held? {
      return cursor.entries[part].dict, s;
    }
    ghost var empty;
    nested, empty := NewDict();
    GraftIsSetPath(s, path, cursor, part, empty);
    g := Assign(cursor, part, Held(nested), s, path, empty);
    forall more, v | more != []
      ensures SetPath(DictOf(g), path + [part] + more, v) == SetPath(DictOf(s), path + [part] + more, v)
    {
      EmptyFirst(DictOf(s), path + [part], more, v);
    }
  }

  lemma {:induction false} AllAllocated(s: Shape)
    ensures forall o :: o in Objects(s) ==> allocated(o)
  {
    if s.Nest? {
      forall k | k in s.kids
        ensures forall o :: o in Objects(s.kids[k]) ==> allocated(o)
      {
        AllAllocated(s.kids[k]);
      }
    }
  }

  /** The cursor loop of `_apply_update`. */
  method AssignDotted(data: DictObject, parts: seq<string>, item: Item, ghost s: Shape, ghost sub: Shape)
    returns (ghost g: Shape)
    requires parts != [] && s.Nest? && s.dict == data && item == ItemOf(sub)
    requires Sound(s) && Sound(sub) && Objects(s) !! Objects(sub)
    modifies Objects(s)
    ensures g.Nest? && g.dict == data && Sound(g)
    ensures forall o :: o in Objects(g) ==> o in Objects(s) || o in Objects(sub) || fresh(o)
    ensures DictOf(g) == SetPath(DictOf(s), parts, View(sub))
  {
    hide Objects, Separate, HoldsIn, Graft, SetPath, View, DictOf;
    AllAllocated(sub);
    var cursor := data;
    var i := 0;
    g := s;
    while i < |parts| - 1
      invariant 0 <= i < |parts|
      invariant Leads(g, parts[..i], cursor) && g.Nest? && g.dict == data && Sound(g)
      invariant forall o :: o in Objects(g) ==> o in Objects(s) || fresh(o)
      invariant forall o :: o in Objects(sub) ==> !fresh(o)
      invariant Sound(sub) && Objects(g) !! Objects(sub)
      invariant SetPath(DictOf(g), parts, View(sub)) == SetPath(DictOf(s), parts, View(sub))
    {
      assert parts[..i + 1] == parts[..i] + [parts[i]];
      assert parts[..i + 1] + parts[i + 1..] == parts;
      cursor, g := Enter(cursor, parts[i], g, parts[..i]);
      i := i + 1;
    }
    assert parts == parts[..i] + [parts[i]];
    GraftIsSetPath(g, parts[..i], cursor, parts[i], sub);
    LeadsInside(g, parts[..i], cursor);
    g := Assign(cursor, parts[i], item, g, parts[..i], sub);
  }

  // --------------------------------------------------------- a key of any kind

  /** `d[key] = item` at the root of a tree. */
  lemma RootAssigned(s: Shape, key: string, sub: Shape)
    requires s.Nest?
    ensures Leads(s, [], s.dict) && s.dict in Objects(s)
    ensures Graft(s, [], s.dict, key, sub).Nest?
    ensures DictOf(Graft(s, [], s.dict, key, sub)) == DictOf(s)[key := View(sub)]
  {
    GraftIsSetPath(s, [], s.dict, key, sub);
  }

  lemma PlateIsSound(x: int)
    ensures Sound(Plate(x))
  {
  }

  /** A tree laid out as fresh objects. */
  method Dump(t: Tree) returns (item: Item, ghost s: Shape)
    ensures ItemOf(s) == item && View(s) == t && Sound(s)
    ensures forall o :: o in Objects(s) ==> fresh(o)
    decreases t
  {
    hide Separate, HoldsIn, Leads, Graft;
    match t
    case Leaf(x) =>
      item, s := Flat(x), Plate(x);
      PlateIsSound(x);
    case Node(kids) =>
      var d;
      d, s := NewDict();
      var rest := kids.Keys;
      while rest != {}
        invariant rest <= kids.Keys && s.Nest? && s.dict == d && Sound(s)
        invariant forall o :: o in Objects(s) ==> fresh(o)
        invariant DictOf(s) == map k | k in kids && k !in rest :: kids[k]
        decreases rest
      {
        var key :| key in rest;
        rest := rest - {key};
        AllAllocated(s);
        var kidItem, kid := Dump(kids[key]);
        RootAssigned(s, key, kid);
        s := Assign(d, key, kidItem, s, [], kid);
      }
      item := Held(d);
  }

  lemma KidIsSound(s: Shape, key: string)
    requires s.Nest? && Sound(s)
    ensures key in s.dict.entries <==> key in s.kids
    ensures key in DictOf(s) <==> key in s.kids
    ensures key in s.kids && s.kids[key].Nest? ==> View(s.kids[key]) == Node(DictOf(s.kids[key]))
    ensures key in s.kids && s.kids[key].Plate? ==> View(s.kids[key]).Leaf?
    ensures key in s.kids ==> Sound(s.kids[key]) && Objects(s.kids[key]) <= Objects(s)
    ensures key in s.kids ==> s.dict.entries[key] == ItemOf(s.kids[key]) && DictOf(s)[key] == View(s.kids[key])
  {
    if key in s.kids {
      SameObjects(s.kids[key], Now(Objects(s)), Now(Objects(s.kids[key])));
    }
  }

  /** A subtree rebuilt in place under its own root object leaves the whole tree sound. */
  lemma RegraftIsSound(s: Shape, key: string, kid: Shape, before: Heap)
    requires s.Nest? && Separate(s) && HoldsIn(s, before) && before.Keys == Objects(s)
    requires key in s.kids && Sound(kid) && ItemOf(kid) == ItemOf(s.kids[key])
    requires forall o :: o in Objects(kid) ==> o in Objects(s.kids[key]) || o !in Objects(s)
    requires forall o :: o in Objects(s) && o !in Objects(s.kids[key]) ==> o.entries == before[o]
    ensures var g := s.(kids := s.kids[key := kid]);
            Sound(g) && View(g) == Node(DictOf(s)[key := View(kid)]) && Objects(g) <= Objects(s) + Objects(kid)
  {
    var g := s.(kids := s.kids[key := kid]);
    var all := Now(Objects(s) + Objects(kid));
    RegraftIsSeparate(s, key, kid);
    hide Objects, Separate, View;
    SameObjects(kid, Now(Objects(kid)), all);
    KidRegrafted(s, key, kid, before, all);
    SameObjects(g, all, Now(Objects(g)));
  }

  lemma RegraftIsSeparate(s: Shape, key: string, kid: Shape)
    requires s.Nest? && Separate(s) && Separate(kid) && key in s.kids
    requires forall o :: o in Objects(kid) ==> o in Objects(s.kids[key]) || o !in Objects(s)
    ensures var g := s.(kids := s.kids[key := kid]);
            Separate(g) && View(g) == Node(DictOf(s)[key := View(kid)]) && Objects(g) <= Objects(s) + Objects(kid)
  {
    var g := s.(kids := s.kids[key := kid]);
    assert s.dict in Objects(s) && forall k, o :: k in s.kids && o in Objects(s.kids[k]) ==> o in Objects(s);
  }

  /** `_apply_update`, in place. */
  method ApplyUpdateInPlace(data: DictObject, key: string, value: Value, ghost s: Shape) returns (ghost g: Shape)
    requires s.Nest? && s.dict == data && Sound(s)
    modifies Objects(s)
    ensures g.Nest? && g.dict == data && Sound(g) && DictOf(g) == ApplyUpdate(DictOf(s), key, value)
    ensures forall o :: o in Objects(g) ==> o in Objects(s) || fresh(o)
    decreases value, 1
  {
    hide Separate, HoldsIn, Leads, Graft, Objects, View;
    AllAllocated(s);
    KidIsSound(s, key);
    if '.' in key {
      var item, sub := Dump(Plain(value));
      g := AssignDotted(data, Split(key), item, s, sub);
    } else if key in data.entries && data.entries[key].Held? && value.Items? {
      ghost var before, kid := Now(Objects(s)), s.kids[key];
      kid := ApplyItems(data.entries[key].dict, value.items, kid);
      RegraftIsSound(s, key, kid, before);
      g := s.(kids := s.kids[key := kid]);
      assert View(kid) == Node(DictOf(kid));
    } else {
      var item, sub := Dump(Plain(value));
      RootAssigned(s, key, sub);
      g := Assign(data, key, item, s, [], sub);
    }
  }

  /** The loop over the items of a dictionary of updates. */
  method ApplyItems(data: DictObject, items: seq<(string, Value)>, ghost s: Shape) returns (ghost g: Shape)
    requires s.Nest? && s.dict == data && Sound(s)
    modifies Objects(s)
    ensures g.Nest? && g.dict == data && Sound(g) && DictOf(g) == ApplyAll(DictOf(s), items)
    ensures forall o :: o in Objects(g) ==> o in Objects(s) || fresh(o)
    decreases Items(items), 0
  {
    hide Separate, HoldsIn, Objects, DictOf, View;
    g := s;
    for n := 0 to |items|
      invariant g.Nest? && g.dict == data && Sound(g) && DictOf(g) == ApplyFirst(DictOf(s), items, n)
      invariant forall o :: o in Objects(g) ==> o in Objects(s) || fresh(o)
    {
      g := ApplyUpdateInPlace(data, items[n].0, items[n].1, g);
    }
  }

  /** Reading a tree of objects back as a value. */
  method ReadBack(item: Item, ghost s: Shape) returns (t: Tree)
    requires Sound(s) && item == ItemOf(s)
    ensures t == View(s)
    decreases s
  {
    hide Separate, HoldsIn, Objects;
    match item
    case Flat(x) =>
      t := Leaf(x);
    case Held(d) =>
      var kids: Dict := map[];
      KeysAgree(s);
      AllAllocated(s);
      var rest := d.entries.Keys;
      while rest != {}
        invariant rest <= d.entries.Keys == s.kids.Keys && Sound(s)
        invariant kids == map k | k in s.kids && k !in rest :: View(s.kids[k])
        decreases rest
      {
        var key :| key in rest;
        rest := rest - {key};
        KidIsSound(s, key);
        var kid := ReadBack(d.entries[key], s.kids[key]);
        kids := kids[key := kid];
      }
      t := Node(kids);
  }

  lemma KeysAgree(s: Shape)
    requires s.Nest? && Sound(s)
    ensures s.dict.entries.Keys == s.kids.Keys
  {
  }

  class ConfigManager {
    var config: Dict

    constructor (loaded: Dict)
      ensures config == loaded
    {
      config := loaded;
    }

    /**
     * `update`: dump the configuration, apply the updates to the dump in place, and validate it into the
     * new configuration; a dump that does not validate leaves the old one.
     */
    method Update(updates: seq<(string, Value)>, validate: Dict -> Option<Dict>) returns (updated: Option<Dict>)
      modifies this
      ensures updated == validate(ApplyAll(old(config), updates))
      ensures config == Updated(validate, old(config), updates)
    {
      var item, s := Dump(Node(config));
      s := ApplyItems(item.dict, updates, s);
      var data := ReadBack(Held(item.dict), s);
      updated := validate(data.kids);
      if updated.Some? {
        config := updated.value;
      }
    }
  }
}
