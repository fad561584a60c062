/**
 * Property access on a built thing (the Proxy `get` of tab.js:121-135). A
 * truthy attribute is returned as it is. Otherwise the thing's `behaviors`
 * (an empty list when missing, which is also written back) are scanned in
 * order and the first behaviour module exporting a function of that name
 * supplies it; failing that the property is undefined.
 */
module Capabilities {
  import opened Json

  const BehaviorsKey := "behaviors"

  /** Behaviour name to the names of the functions its module exports (`./behaviors/<name>`). */
  type BehaviorStore = map<string, set<string>>

  /** What reading a property yields: an attribute, a behaviour's function, or `undefined`. */
  datatype Access = Attr(value: Value) | Cap(behavior: string) | Absent

  /** tab.js:126: `target.behaviors || []`. */
  function BehaviorList(attrs: Obj): Value {
    if TruthyAt(attrs, BehaviorsKey) then attrs.fields[BehaviorsKey] else List([])
  }

  /** tab.js:127-132: the first of `bs` whose module exports `name`. */
  function Scan(store: BehaviorStore, bs: seq<Value>, name: string): (r: Result<Access>)
    ensures r.Ok? ==> !r.value.Attr?
  {
    if |bs| == 0 then Ok(Absent)
    else
      var b := Text(bs[0]);
      if b !in store then Err(BehaviorNotFound(b))
      else if name in store[b] then Ok(Cap(b))
      else Scan(store, bs[1..], name)
  }

  /** The value of `thing[name]`. */
  function Dispatch(store: BehaviorStore, attrs: Obj, name: string): (r: Result<Access>)
    ensures r.Ok? && r.value.Attr? <==> TruthyAt(attrs, name)
  {
    if TruthyAt(attrs, name) then Ok(Attr(attrs.fields[name]))
    else
      var list := BehaviorList(attrs);
      if !Iterable(list) then Err(TypeError("target.behaviors is not iterable"))
      else Scan(store, Items(list), name)
  }

  /** The attributes after `thing[name]`: a read that misses writes `behaviors` back. */
  function AfterGet(attrs: Obj, name: string): Obj {
    if TruthyAt(attrs, name) then attrs else Put(attrs, BehaviorsKey, BehaviorList(attrs))
  }

  /** tab.js:122-134, on the thing's own attributes. */
  method Get(t: Thing, store: BehaviorStore, name: string) returns (r: Result<Access>)
    modifies t
    ensures r == Dispatch(store, old(t.attributes), name)
    ensures t.attributes == AfterGet(old(t.attributes), name)
  {
    if TruthyAt(t.attributes, name) {
      return Ok(Attr(t.attributes.fields[name]));
    }
    t.attributes := Put(t.attributes, BehaviorsKey, BehaviorList(t.attributes));
    var behaviors := t.attributes.fields[BehaviorsKey];
    if !Iterable(behaviors) {
      return Err(TypeError("target.behaviors is not iterable"));
    }
    var items := Items(behaviors);
    for i := 0 to |items|
      invariant Scan(store, items[i..], name) == Scan(store, items, name)
    {
      assert items[i..][1..] == items[i + 1..];
      var behavior := Text(items[i]);
      if behavior !in store {
        return Err(BehaviorNotFound(behavior));
      }
      if name in store[behavior] {
        return Ok(Cap(behavior));
      }
    }
    return Ok(Absent);
  }

  // Properties of dispatch.

  /** Behaviour `b` is known and exports `name`. */
  predicate Provides(store: BehaviorStore, b: string, name: string) {
    b in store && name in store[b]
  }

  /** Every one of `bs` is a known behaviour that does not export `name`. */
  predicate NoneProvide(store: BehaviorStore, bs: seq<Value>, name: string) {
    forall j | 0 <= j < |bs| :: Text(bs[j]) in store && name !in store[Text(bs[j])]
  }

  /** The scan picks the behaviour at `i` exactly when it is the first that exports `name`. */
  lemma {:induction false} ScanFindsFirst(store: BehaviorStore, bs: seq<Value>, name: string, i: nat)
    requires i < |bs|
    ensures Scan(store, bs, name) == Ok(Cap(Text(bs[i])))
        <== NoneProvide(store, bs[..i], name) && Provides(store, Text(bs[i]), name)
  {
    if NoneProvide(store, bs[..i], name) && Provides(store, Text(bs[i]), name) && i > 0 {
      assert Text(bs[0]) in store && name !in store[Text(bs[0])] by {
        assert bs[..i][0] == bs[0];
      }
      assert bs[1..][..i - 1] == bs[1..i];
      forall j | 0 <= j < i - 1 ensures Text(bs[1..][j]) in store && name !in store[Text(bs[1..][j])] {
        assert bs[1..][j] == bs[..i][j + 1];
      }
      ScanFindsFirst(store, bs[1..], name, i - 1);
    }
  }

  /** A behaviour the scan picks is the first of the list that exports `name`. */
  lemma {:induction false} ScanPicksFirst(store: BehaviorStore, bs: seq<Value>, name: string, b: string)
    returns (i: nat)
    requires Scan(store, bs, name) == Ok(Cap(b))
    ensures i < |bs| && Text(bs[i]) == b && Provides(store, b, name)
    ensures NoneProvide(store, bs[..i], name)
  {
    if Provides(store, Text(bs[0]), name) {
      i := 0;
    } else {
      var k := ScanPicksFirst(store, bs[1..], name, b);
      i := k + 1;
      forall j | 0 <= j < i ensures Text(bs[..i][j]) in store && name !in store[Text(bs[..i][j])] {
        if j > 0 {
          assert bs[..i][j] == bs[1..][..k][j - 1];
        }
      }
    }
  }

  /** The scan finds nothing exactly when every behaviour is known and none exports `name`. */
  lemma {:induction false} ScanAbsent(store: BehaviorStore, bs: seq<Value>, name: string)
    ensures Scan(store, bs, name) == Ok(Absent) <==> NoneProvide(store, bs, name)
  {
    if |bs| > 0 {
      ScanAbsent(store, bs[1..], name);
      if NoneProvide(store, bs, name) {
        assert forall j | 0 <= j < |bs| - 1 :: bs[1..][j] == bs[j + 1];
      } else if Scan(store, bs, name) == Ok(Absent) {
        forall j | 0 <= j < |bs| ensures Text(bs[j]) in store && name !in store[Text(bs[j])] {
          if j > 0 {
            assert bs[j] == bs[1..][j - 1];
          }
        }
      }
    }
  }

  /**
   * tab.js:123-124: a truthy attribute is the answer whatever the
   * behaviours are; tab.js:126-133: otherwise the answer depends only on
   * the behaviour list.
   */
  lemma AttributeBeforeBehaviors(store: BehaviorStore, other: BehaviorStore, attrs: Obj, name: string)
    ensures TruthyAt(attrs, name) ==> Dispatch(store, attrs, name) == Dispatch(other, attrs, name) == Ok(Attr(attrs.fields[name]))
    ensures !TruthyAt(attrs, name) && Iterable(BehaviorList(attrs)) ==>
      Dispatch(store, attrs, name) == Scan(store, Items(BehaviorList(attrs)), name)
  {
  }

  /** tab.js:126: a thing without behaviours has no capabilities. */
  lemma NoBehaviorsNoCapability(store: BehaviorStore, attrs: Obj, name: string)
    requires !TruthyAt(attrs, name) && !TruthyAt(attrs, BehaviorsKey)
    ensures Dispatch(store, attrs, name) == Ok(Absent)
    ensures Lookup(AfterGet(attrs, name), BehaviorsKey) == Some(List([]))
  {
    ScanAbsent(store, [], name);
  }

  /** Reading a property other than `behaviors` twice gives the same answer twice. */
  lemma {:induction false} DispatchStable(store: BehaviorStore, attrs: Obj, name: string)
    requires name != BehaviorsKey
    ensures Dispatch(store, AfterGet(attrs, name), name) == Dispatch(store, attrs, name)
    ensures AfterGet(AfterGet(attrs, name), name) == AfterGet(attrs, name)
  {
    var a := AfterGet(attrs, name);
    if !TruthyAt(attrs, name) {
      assert Lookup(a, name) == Lookup(attrs, name);
      assert TruthyAt(attrs, BehaviorsKey) ==> BehaviorList(a) == BehaviorList(attrs);
      assert !TruthyAt(attrs, BehaviorsKey) ==> BehaviorList(a) == List([]) == BehaviorList(attrs);
      PutPut(attrs, BehaviorsKey, BehaviorList(attrs), BehaviorList(a));
    }
  }

  /**
   * `behaviors` itself is the exception: on a thing without it, the first
   * read is undefined but writes an empty list, which the second read returns.
   */
  lemma BehaviorsReadTwice(store: BehaviorStore)
    ensures Dispatch(store, Empty, BehaviorsKey) == Ok(Absent)
    ensures Dispatch(store, AfterGet(Empty, BehaviorsKey), BehaviorsKey) == Ok(Attr(List([])))
  {
  }

  /** A ball that is an object and a thing: object's functions come from object, the rest from thing. */
  lemma BallDispatch()
    ensures var store := map["thing" := {"fullName", "describe"}, "object" := {"moveTo", "weigh", "describe"}];
      var ball := Obj([BehaviorsKey, "mass"], map[BehaviorsKey := List([Str("thing"), Str("object")]), "mass" := Num(1)]);
      Dispatch(store, ball, "weigh") == Ok(Cap("object"))
      && Dispatch(store, ball, "describe") == Ok(Cap("thing"))
      && Dispatch(store, ball, "mass") == Ok(Attr(Num(1)))
      && Dispatch(store, ball, "bounce") == Ok(Absent)
  {
    var bs := [Str("thing"), Str("object")];
    assert bs[1..] == [Str("object")];
    assert bs[1..][1..] == [];
  }
}
