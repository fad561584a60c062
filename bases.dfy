/**
 * Base collection (tab.js:34-60). `collectBases` walks the names a model
 * lists under `base`; `loadBase` loads each named model, collects that
 * model's own bases in front of the collection, and then adds the name,
 * at the front when `prefix` is set and at the back otherwise. The
 * collection is one array shared by every call.
 *
 * The functions below specify the result as a split: what ends up in
 * front of the incoming collection and what ends up behind it. The
 * methods do what the source does, step by step, and are proved equal to
 * them.
 */
module Bases {
  import opened OrderedSet
  import opened Json

  const BaseKey := "base"

  /** The model files, by name (`./models/<name>.json`). */
  type Store = map<string, Obj>

  ghost predicate ValidStore(store: Store) {
    forall n | n in store :: Valid(store[n])
  }

  /** tab.js:23-25: the model named by `String(name)`. */
  function LoadModel(store: Store, name: Value): Result<Obj> {
    var file := Text(name);
    if file in store then Ok(store[file]) else Err(ModelNotFound(file))
  }

  /** tab.js:54: a list of bases as it is, a single base as a list of one. */
  function BaseNames(v: Value): seq<Value> {
    if v.List? then v.items else [v]
  }

  /** What a walk puts in front of the collection and what it puts behind it. */
  datatype Split = Split(front: seq<Value>, back: seq<Value>)

  /** The collection a split leaves behind around `coll`. */
  function Place(s: Split, coll: seq<Value>): seq<Value> {
    s.front + coll + s.back
  }

  /**
   * `loadBase(name, collection, prefix)`: the model's own bases go in front
   * (always with `prefix` set), then the name itself. `depth` is the stack
   * the walk may still use: a cycle of bases exhausts it.
   */
  function Loaded(store: Store, name: Value, prefix: bool, depth: nat): Result<Split>
    decreases depth, 0, 0
  {
    if depth == 0 then Err(StackOverflow)
    else
      var model :- LoadModel(store, name);
      var inner :- if TruthyAt(model, BaseKey) then Gather(store, model, true, depth - 1) else Ok(Split([], []));
      if prefix then Ok(Split([name] + inner.front, inner.back))
      else Ok(Split(inner.front, inner.back + [name]))
  }

  /** The walk of `collectBases(model, collection, prefix)`; nothing when the model has no base. */
  function Gather(store: Store, model: Obj, prefix: bool, depth: nat): Result<Split>
    decreases depth, 2, 0
  {
    if !TruthyAt(model, BaseKey) then Ok(Split([], []))
    else GatherNames(store, BaseNames(model.fields[BaseKey]), prefix, depth)
  }

  /** `loadBase` on each of `names` in turn, all on the same collection. */
  function GatherNames(store: Store, names: seq<Value>, prefix: bool, depth: nat): Result<Split>
    decreases depth, 1, |names|
  {
    if |names| == 0 then Ok(Split([], []))
    else
      var s :- GatherNames(store, names[..|names| - 1], prefix, depth);
      var t :- Loaded(store, names[|names| - 1], prefix, depth);
      Ok(Split(t.front + s.front, s.back + t.back))
  }

  /** tab.js:58: a model whose bases were collected loses its `base`. */
  function Consumed(model: Obj): Obj {
    if TruthyAt(model, BaseKey) then Remove(model, BaseKey) else model
  }

  /** `collectBases`: the collection afterwards and the model afterwards. */
  function Collect(store: Store, model: Obj, coll: seq<Value>, prefix: bool, depth: nat): Result<(seq<Value>, Obj)> {
    var s :- Gather(store, model, prefix, depth);
    Ok((Place(s, coll), Consumed(model)))
  }

  /** tab.js:34-41, with the model loaded through `tab.loadModel` and its own bases collected. */
  method LoadBase(store: Store, modelName: Value, collection: seq<Value>, prefix: bool, depth: nat)
    returns (r: Result<seq<Value>>)
    ensures Loaded(store, modelName, prefix, depth).Ok? <==> r.Ok?
    ensures r.Ok? ==> r.value == Place(Loaded(store, modelName, prefix, depth).value, collection)
    ensures r.Err? ==> r.fault == Loaded(store, modelName, prefix, depth).fault
    decreases depth, 0
  {
    if depth == 0 {
      return Err(StackOverflow);
    }
    var loaded := LoadModel(store, modelName);
    if loaded.Err? {
      return Err(loaded.fault);
    }
    var modelJSON := loaded.value;
    var coll := collection;
    if TruthyAt(modelJSON, BaseKey) {
      var inner := CollectBases(store, modelJSON, coll, true, depth - 1);
      if inner.Err? {
        return Err(inner.fault);
      }
      coll := inner.value.0;
    }
    if prefix {
      coll := [modelName] + coll;
    } else {
      coll := coll + [modelName];
    }
    return Ok(coll);
  }

  /** tab.js:50-60. */
  method CollectBases(store: Store, model: Obj, collection: seq<Value>, prefix: bool, depth: nat)
    returns (r: Result<(seq<Value>, Obj)>)
    ensures r == Collect(store, model, collection, prefix, depth)
    decreases depth, 2
  {
    if !TruthyAt(model, BaseKey) {
      assert Place(Split([], []), collection) == collection;
      return Ok((collection, model));
    }
    var bases := BaseNames(model.fields[BaseKey]);
    var coll := collection;
    for i := 0 to |bases|
      invariant GatherNames(store, bases[..i], prefix, depth).Ok?
      invariant coll == Place(GatherNames(store, bases[..i], prefix, depth).value, collection)
    {
      GatherNext(store, bases, prefix, depth, i);
      var next := LoadBase(store, bases[i], coll, prefix, depth);
      if next.Err? {
        GatherErrSticks(store, bases, prefix, depth, i + 1, next.fault);
        return Err(next.fault);
      }
      PlaceCombine(GatherNames(store, bases[..i], prefix, depth).value, Loaded(store, bases[i], prefix, depth).value, collection);
      coll := next.value;
    }
    assert bases[..|bases|] == bases;
    return Ok((coll, Remove(model, BaseKey)));
  }

  /** One more base of the loop in `collectBases`. */
  lemma GatherNext(store: Store, names: seq<Value>, prefix: bool, depth: nat, i: nat)
    requires i < |names|
    ensures GatherNames(store, names[..i + 1], prefix, depth) ==
      match GatherNames(store, names[..i], prefix, depth)
      case Err(e) => Err(e)
      case Ok(s) => (match Loaded(store, names[i], prefix, depth)
                     case Err(e) => Err(e)
                     case Ok(t) => Ok(Split(t.front + s.front, s.back + t.back)))
  {
    assert names[..i + 1][..i] == names[..i];
  }

  /** Placing two walks one after the other. */
  lemma PlaceCombine(s: Split, t: Split, coll: seq<Value>)
    ensures Place(t, Place(s, coll)) == Place(Split(t.front + s.front, s.back + t.back), coll)
  {
    assert t.front + (s.front + coll + s.back) + t.back == (t.front + s.front) + coll + (s.back + t.back);
  }

  /** Once a prefix of the bases fails, the whole walk fails the same way. */
  lemma {:induction false} GatherErrSticks(store: Store, names: seq<Value>, prefix: bool, depth: nat, i: nat, e: Fault)
    requires i <= |names|
    requires GatherNames(store, names[..i], prefix, depth) == Err(e)
    ensures GatherNames(store, names, prefix, depth) == Err(e)
  {
    if i < |names| {
      var p := names[..|names| - 1];
      assert p[..i] == names[..i];
      GatherErrSticks(store, p, prefix, depth, i, e);
    } else {
      assert names[..i] == names;
    }
  }

  // Properties of the walk.

  /**
   * With `prefix` set, everything a walk collects goes in front of the
   * collection; without it, exactly the listed names are appended, in their
   * listed order, and their ancestors go in front.
   */
  lemma {:induction false} GatherBack(store: Store, names: seq<Value>, prefix: bool, depth: nat)
    requires GatherNames(store, names, prefix, depth).Ok?
    ensures GatherNames(store, names, prefix, depth).value.back == if prefix then [] else names
    decreases |names|
  {
    if prefix {
      GatherPrefixBack(store, names, depth);
    } else if |names| > 0 {
      var p := names[..|names| - 1];
      var n := names[|names| - 1];
      GatherLast(store, names, false, depth);
      GatherBack(store, p, false, depth);
      LoadedBack(store, n, false, depth);
      LastSplit(names);
    }
  }

  /** The walk of a non-empty list: the walk of all but the last name, then `loadBase` on the last. */
  lemma GatherLast(store: Store, names: seq<Value>, prefix: bool, depth: nat)
    requires |names| > 0 && GatherNames(store, names, prefix, depth).Ok?
    ensures GatherNames(store, names[..|names| - 1], prefix, depth).Ok?
    ensures Loaded(store, names[|names| - 1], prefix, depth).Ok?
    ensures var s := GatherNames(store, names[..|names| - 1], prefix, depth).value;
      var t := Loaded(store, names[|names| - 1], prefix, depth).value;
      GatherNames(store, names, prefix, depth).value == Split(t.front + s.front, s.back + t.back)
  {
  }

  /** With `prefix` set, a walk puts nothing behind the collection. */
  lemma {:induction false} GatherPrefixBack(store: Store, names: seq<Value>, depth: nat)
    requires GatherNames(store, names, true, depth).Ok?
    ensures GatherNames(store, names, true, depth).value.back == []
    decreases depth, 1, |names|
  {
    if |names| > 0 {
      GatherPrefixBack(store, names[..|names| - 1], depth);
      LoadedBack(store, names[|names| - 1], true, depth);
    }
  }

  /** `loadBase` puts only the name itself behind the collection, and only without `prefix`. */
  lemma {:induction false} LoadedBack(store: Store, n: Value, prefix: bool, depth: nat)
    requires Loaded(store, n, prefix, depth).Ok?
    ensures Loaded(store, n, prefix, depth).value.back == if prefix then [] else [n]
    decreases depth, 0
  {
    var inner := LoadedParts(store, n, prefix, depth);
    var model := LoadModel(store, n).value;
    if TruthyAt(model, BaseKey) {
      GatherPrefixBack(store, BaseNames(model.fields[BaseKey]), depth - 1);
    }
  }

  /** A successful `loadBase`: the walk of the named model's own bases, then the name. */
  lemma LoadedParts(store: Store, n: Value, prefix: bool, depth: nat) returns (inner: Split)
    requires Loaded(store, n, prefix, depth).Ok?
    ensures depth > 0 && LoadModel(store, n).Ok?
    ensures var model := LoadModel(store, n).value;
      if TruthyAt(model, BaseKey)
      then depth > 0 && GatherNames(store, BaseNames(model.fields[BaseKey]), true, depth - 1) == Ok(inner)
      else inner == Split([], [])
    ensures Loaded(store, n, prefix, depth).value
      == if prefix then Split([n] + inner.front, inner.back) else Split(inner.front, inner.back + [n])
  {
    var model := LoadModel(store, n).value;
    inner := if TruthyAt(model, BaseKey) then Gather(store, model, true, depth - 1).value else Split([], []);
  }

  /** `collectBases` without `prefix` appends the model's own bases, in order, after the collection. */
  lemma CollectAppendsBases(store: Store, model: Obj, coll: seq<Value>, depth: nat)
    requires TruthyAt(model, BaseKey)
    requires Collect(store, model, coll, false, depth).Ok?
    ensures Collect(store, model, coll, false, depth).value.0
      == Gather(store, model, false, depth).value.front + coll + BaseNames(model.fields[BaseKey])
  {
    GatherBack(store, BaseNames(model.fields[BaseKey]), false, depth);
  }

  /** Every name a walk collects is a model in the store. */
  lemma {:induction false} GatherStored(store: Store, names: seq<Value>, prefix: bool, depth: nat)
    requires GatherNames(store, names, prefix, depth).Ok?
    ensures forall v :: v in GatherNames(store, names, prefix, depth).value.front ==> Text(v) in store
    ensures forall v :: v in GatherNames(store, names, prefix, depth).value.back ==> Text(v) in store
    decreases depth, |names|
  {
    if |names| > 0 {
      var p := names[..|names| - 1];
      var n := names[|names| - 1];
      GatherStored(store, p, prefix, depth);
      var t := Loaded(store, n, prefix, depth).value;
      assert depth > 0 && Text(n) in store;
      var model := LoadModel(store, n).value;
      if TruthyAt(model, BaseKey) {
        assert Gather(store, model, true, depth - 1) == GatherNames(store, BaseNames(model.fields[BaseKey]), true, depth - 1);
        GatherStored(store, BaseNames(model.fields[BaseKey]), true, depth - 1);
      }
      assert forall v :: v in t.front + t.back ==> v == n || Text(v) in store;
    }
  }

  /** Every name `collectBases` leaves in the collection beyond what was there is a model in the store. */
  lemma CollectStored(store: Store, model: Obj, coll: seq<Value>, prefix: bool, depth: nat)
    requires Collect(store, model, coll, prefix, depth).Ok?
    ensures forall v :: v in Collect(store, model, coll, prefix, depth).value.0 ==> v in coll || Text(v) in store
  {
    if TruthyAt(model, BaseKey) {
      GatherStored(store, BaseNames(model.fields[BaseKey]), prefix, depth);
    }
  }

  /** The names `v` lists as its bases, when `v` names a stored model that has any. */
  function BasesOf(store: Store, v: Value): seq<Value> {
    if Text(v) in store && TruthyAt(store[Text(v)], BaseKey) then BaseNames(store[Text(v)].fields[BaseKey]) else []
  }

  /** Every base of every name a walk collects is itself collected in front. */
  predicate Closed(store: Store, s: Split) {
    forall v, b | v in s.front + s.back && b in BasesOf(store, v) :: b in s.front
  }

  /**
   * A walk collects every listed name, and with each collected name its
   * bases, so the bases of those bases and so on: every ancestor.
   */
  lemma {:induction false} GatherComplete(store: Store, names: seq<Value>, prefix: bool, depth: nat)
    requires GatherNames(store, names, prefix, depth).Ok?
    ensures forall v | v in names :: v in GatherNames(store, names, prefix, depth).value.front + GatherNames(store, names, prefix, depth).value.back
    ensures Closed(store, GatherNames(store, names, prefix, depth).value)
    decreases depth, 1, |names|
  {
    if |names| > 0 {
      var p := names[..|names| - 1];
      var n := names[|names| - 1];
      GatherLast(store, names, prefix, depth);
      GatherComplete(store, p, prefix, depth);
      LoadedComplete(store, n, prefix, depth);
      var s := GatherNames(store, p, prefix, depth).value;
      var t := Loaded(store, n, prefix, depth).value;
      var r := GatherNames(store, names, prefix, depth).value;
      assert r == Split(t.front + s.front, s.back + t.back);
      forall v | v in names ensures v in r.front + r.back {
        LastSplit(names);
        assert v in p || v == n;
      }
      forall v, b | v in r.front + r.back && b in BasesOf(store, v) ensures b in r.front {
        assert v in s.front + s.back || v in t.front + t.back;
      }
    }
  }

  /**
   * `loadBase` collects the name itself and, in front of everything, the
   * bases of its model, each closed under its own bases; with `prefix` the
   * name comes first, ahead of its ancestors.
   */
  lemma {:induction false} LoadedComplete(store: Store, n: Value, prefix: bool, depth: nat)
    requires Loaded(store, n, prefix, depth).Ok?
    ensures n in Loaded(store, n, prefix, depth).value.front + Loaded(store, n, prefix, depth).value.back
    ensures prefix ==> |Loaded(store, n, prefix, depth).value.front| > 0 && Loaded(store, n, prefix, depth).value.front[0] == n
    ensures forall b | b in BasesOf(store, n) :: b in Loaded(store, n, prefix, depth).value.front
    ensures Closed(store, Loaded(store, n, prefix, depth).value)
    decreases depth, 0
  {
    var inner := LoadedParts(store, n, prefix, depth);
    var model := LoadModel(store, n).value;
    var t := Loaded(store, n, prefix, depth).value;
    if TruthyAt(model, BaseKey) {
      GatherComplete(store, BaseNames(model.fields[BaseKey]), true, depth - 1);
      GatherPrefixBack(store, BaseNames(model.fields[BaseKey]), depth - 1);
    }
    assert BasesOf(store, n) == if TruthyAt(model, BaseKey) then BaseNames(model.fields[BaseKey]) else [];
    assert forall v | v in inner.front :: v in t.front;
    forall v, b | v in t.front + t.back && b in BasesOf(store, v) ensures b in t.front {
      assert v == n || v in inner.front + inner.back;
    }
  }

  /**
   * tab.js:44, 50-57: `collectBases` leaves in the collection every base the
   * model lists and, with each collected name, all of that name's bases, so
   * every ancestor of the model.
   */
  lemma CollectGathersAncestors(store: Store, model: Obj, coll: seq<Value>, prefix: bool, depth: nat)
    requires TruthyAt(model, BaseKey)
    requires Collect(store, model, coll, prefix, depth).Ok?
    ensures forall b | b in BaseNames(model.fields[BaseKey]) :: b in Collect(store, model, coll, prefix, depth).value.0
    ensures var s := Gather(store, model, prefix, depth).value;
      forall v, b | v in s.front + s.back && b in BasesOf(store, v) :: b in Collect(store, model, coll, prefix, depth).value.0
  {
    var s := Gather(store, model, prefix, depth).value;
    GatherComplete(store, BaseNames(model.fields[BaseKey]), prefix, depth);
    assert Collect(store, model, coll, prefix, depth).value.0 == s.front + coll + s.back;
  }

  /** tab.js:58: after a walk the model no longer has a `base`, and keeps everything else. */
  lemma CollectConsumesBase(store: Store, model: Obj, coll: seq<Value>, prefix: bool, depth: nat)
    requires Collect(store, model, coll, prefix, depth).Ok?
    ensures !TruthyAt(Collect(store, model, coll, prefix, depth).value.1, BaseKey)
    ensures forall k :: k != BaseKey ==> Lookup(Collect(store, model, coll, prefix, depth).value.1, k) == Lookup(model, k)
    ensures Valid(model) ==> Valid(Collect(store, model, coll, prefix, depth).value.1)
  {
  }

  /** tab.js:51-53: a model without a truthy `base` leaves the collection and itself as they were. */
  lemma CollectWithoutBase(store: Store, model: Obj, coll: seq<Value>, prefix: bool, depth: nat)
    requires !TruthyAt(model, BaseKey)
    ensures Collect(store, model, coll, prefix, depth) == Ok((coll, model))
  {
    assert Place(Split([], []), coll) == coll;
  }

  /** tab.js:54: a single base name behaves exactly as a list holding only that name. */
  lemma SingleBaseIsList(store: Store, model: Obj, name: string, coll: seq<Value>, prefix: bool, depth: nat)
    requires |name| > 0
    ensures Collect(store, Put(model, BaseKey, Str(name)), coll, prefix, depth)
         == Collect(store, Put(model, BaseKey, List([Str(name)])), coll, prefix, depth)
  {
    var a := Put(model, BaseKey, Str(name));
    var b := Put(model, BaseKey, List([Str(name)]));
    assert a.order == b.order;
    assert BaseNames(a.fields[BaseKey]) == BaseNames(b.fields[BaseKey]);
    assert a.fields - {BaseKey} == b.fields - {BaseKey};
  }

  /** A model that names itself as its base never finishes: the stack runs out at any depth. */
  lemma {:induction false} SelfBaseOverflows(store: Store, n: string, prefix: bool, depth: nat)
    requires n in store && TruthyAt(store[n], BaseKey)
    requires BaseNames(store[n].fields[BaseKey]) == [Str(n)]
    ensures Loaded(store, Str(n), prefix, depth) == Err(StackOverflow)
    decreases depth
  {
    if depth > 0 {
      SelfBaseOverflows(store, n, true, depth - 1);
      var names := [Str(n)];
      assert names[..0] == [];
      assert GatherNames(store, names, true, depth - 1) == Err(StackOverflow);
    }
  }

  // The source as written.

  /**
   * tab.js:34-41 and 50-60 as written: `loadModel` is not defined in the
   * module (only `tab.loadModel` is), so the first base a model lists
   * throws a ReferenceError before anything is collected.
   */
  function CollectAsWritten(model: Obj, coll: seq<Value>): Result<(seq<Value>, Obj)> {
    if !TruthyAt(model, BaseKey) then Ok((coll, model))
    else if |BaseNames(model.fields[BaseKey])| == 0 then Ok((coll, Remove(model, BaseKey)))
    else Err(ReferenceError("loadModel"))
  }

  /**
   * `loadBase` with lines 35 and 39 corrected but line 37 as written: it
   * hands `modelJSON.base`, a name or a list of names, to `collectBases`,
   * which finds no `base` on it, so the loaded model's own bases are never
   * collected.
   */
  function LoadedAsWritten(store: Store, name: Value, prefix: bool): Result<Split> {
    var model :- LoadModel(store, name);
    if prefix then Ok(Split([name], [])) else Ok(Split([], [name]))
  }

  /** A model with one base: as written the walk throws, corrected it collects the base. */
  lemma AsWrittenThrows()
    ensures var store := map["thing" := Empty];
      var model := Obj([BaseKey], map[BaseKey := Str("thing")]);
      CollectAsWritten(model, []) == Err(ReferenceError("loadModel"))
      && Collect(store, model, [], false, 2) == Ok(([Str("thing")], Empty))
  {
    var store := map["thing" := Empty];
    var model := Obj([BaseKey], map[BaseKey := Str("thing")]);
    var names := BaseNames(model.fields[BaseKey]);
    assert names == [Str("thing")] && names[..0] == [];
    assert LoadModel(store, Str("thing")) == Ok(Empty);
    assert [] + [Str("thing")] == [Str("thing")];
    assert Loaded(store, Str("thing"), false, 2) == Ok(Split([], [Str("thing")]));
    assert GatherNames(store, names[..0], false, 2) == Ok(Split([], []));
    assert [] + [Str("thing")] == [Str("thing")];
    var nothing: seq<Value> := [];
    assert nothing + nothing == nothing;
    assert GatherNames(store, names, false, 2) == Ok(Split([], [Str("thing")]));
    assert [] + [] + [Str("thing")] == [Str("thing")];
    assert Erase([BaseKey], BaseKey) == [];
    assert model.fields - {BaseKey} == map[];
  }

  /** The store of a three-level chain: container on object on thing. */
  function ChainStore(): Store {
    map[
      "container" := Obj([BaseKey], map[BaseKey := Str("object")]),
      "object" := Obj([BaseKey], map[BaseKey := Str("thing")]),
      "thing" := Empty
    ]
  }

  /** Line 37 as written stops at the first level; corrected, the whole chain is collected. */
  lemma AsWrittenStopsAtFirstLevel()
    ensures LoadedAsWritten(ChainStore(), Str("container"), false) == Ok(Split([], [Str("container")]))
    ensures Loaded(ChainStore(), Str("container"), false, 3) == Ok(Split([Str("object"), Str("thing")], [Str("container")]))
  {
    var store := ChainStore();
    var thing, obj, container := Str("thing"), Str("object"), Str("container");
    assert LoadModel(store, thing) == Ok(Empty);
    assert LoadModel(store, obj) == Ok(store["object"]);
    assert LoadModel(store, container) == Ok(store["container"]);
    assert [thing][..0] == [] && [obj][..0] == [];
    assert [thing] + [] == [thing];
    assert Loaded(store, thing, true, 1) == Ok(Split([thing], []));
    var nothing: seq<Value> := [];
    assert nothing + nothing == nothing;
    assert GatherNames(store, [thing][..0], true, 1) == Ok(Split([], []));
    assert GatherNames(store, [thing], true, 1) == Ok(Split([thing], []));
    assert [obj] + [thing] == [obj, thing] && [obj, thing] + [] == [obj, thing];
    assert Loaded(store, obj, true, 2) == Ok(Split([obj, thing], []));
    assert GatherNames(store, [obj], true, 2) == Ok(Split([obj, thing], []));
    assert [] + [container] == [container];
  }
}
