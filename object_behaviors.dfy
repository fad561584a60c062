/**
 * The `object` behaviours of the vr catalog (catalog/vr/objectBehaviors.js):
 * moving a thing into a container, which updates both things in place, and
 * reading its mass.
 */
module ObjectBehaviors {
  import opened Json
  import opened Capabilities

  const ContentsKey := "contents"
  const LocationKey := "location"
  const MassKey := "mass"

  /** The attributes after `contents.push(item)` on an array-valued `contents`. */
  function Pushed(attrs: Obj, item: Value): (r: Obj)
    requires ContentsKey in attrs.fields && attrs.fields[ContentsKey].List?
    ensures ContentsKey in r.fields && r.fields[ContentsKey].List?
    ensures var before := attrs.fields[ContentsKey].items;
      var after := r.fields[ContentsKey].items;
      |after| == |before| + 1 && after[..|before|] == before && after[|before|] == item
    ensures forall k :: k != ContentsKey ==> Lookup(r, k) == Lookup(attrs, k)
    ensures r.order == attrs.order
  {
    Put(attrs, ContentsKey, List(attrs.fields[ContentsKey].items + [item]))
  }

  /** The attributes after `this.location = destination`. */
  function Located(attrs: Obj, destination: Thing): (r: Obj)
    ensures Lookup(r, LocationKey) == Some(Ref(destination))
    ensures forall k :: k != LocationKey ==> Lookup(r, k) == Lookup(attrs, k)
  {
    Put(attrs, LocationKey, Ref(destination))
  }

  /**
   * What `destination.contents` is when it is read to push onto it: the
   * array, or the fault the read or the `push` throws. A falsy `contents` is
   * looked up among the behaviours, and nothing found there has `push`.
   */
  function ContentsArray(store: BehaviorStore, destination: Obj): (r: Result<seq<Value>>)
    ensures r.Ok? <==> TruthyAt(destination, ContentsKey) && destination.fields[ContentsKey].List?
    ensures r.Ok? ==> destination.fields[ContentsKey] == List(r.value)
  {
    match Dispatch(store, destination, ContentsKey)
    case Ok(Attr(List(xs))) => Ok(xs)
    case Ok(_) => Err(TypeError("destination.contents.push is not a function"))
    case Err(e) => Err(e)
  }

  /** objectBehaviors.js:1-6: `mover.moveTo(destination)`. */
  method MoveTo(mover: Thing, destination: Thing?, store: BehaviorStore) returns (r: Outcome)
    modifies mover, destination
    ensures destination == null ==>
      r.Fail? && r.fault.TypeError? && mover.attributes == old(mover.attributes)
    ensures destination != null && ContentsKey !in old(destination.attributes.fields) ==>
      r == Pass && mover.attributes == old(mover.attributes) && destination.attributes == old(destination.attributes)
    ensures destination != null && ContentsKey in old(destination.attributes.fields) ==>
      var found := ContentsArray(store, old(destination.attributes));
      (found.Err? ==>
        r == Fail(found.fault)
        && destination.attributes == AfterGet(old(destination.attributes), ContentsKey)
        && (mover != destination ==> mover.attributes == old(mover.attributes)))
      && (found.Ok? && mover != destination ==>
        r == Pass
        && destination.attributes == Pushed(old(destination.attributes), Ref(mover))
        && mover.attributes == Located(old(mover.attributes), destination))
      && (found.Ok? && mover == destination ==>
        r == Pass && mover.attributes == Located(Pushed(old(mover.attributes), Ref(mover)), mover))
  {
    if destination == null {
      return Fail(TypeError("Cannot read properties of undefined (reading 'hasOwnProperty')"));
    }
    if ContentsKey !in destination.attributes.fields {
      return Pass;
    }
    var contents := Get(destination, store, ContentsKey);
    if contents.Err? {
      return Fail(contents.fault);
    }
    if !(contents.value.Attr? && contents.value.value.List?) {
      return Fail(TypeError("destination.contents.push is not a function"));
    }
    destination.attributes := Put(destination.attributes, ContentsKey, List(contents.value.value.items + [Ref(mover)]));
    mover.attributes := Put(mover.attributes, LocationKey, Ref(destination));
    return Pass;
  }

  /** objectBehaviors.js:8-10: `this.mass`, `None` when undefined. */
  function Weigh(attrs: Obj): (r: Option<Value>)
    ensures r.Some? <==> MassKey in attrs.fields
    ensures r.Some? ==> r.value == attrs.fields[MassKey]
  {
    Lookup(attrs, MassKey)
  }

  /**
   * A move touches only the mover and the destination: moving a pebble out
   * of one box into another leaves the pebble listed in the first box too.
   */
  method MoveOnward(pebble: Thing, first: Thing, second: Thing, store: BehaviorStore)
    requires pebble != first && pebble != second && first != second
    requires TruthyAt(first.attributes, ContentsKey) && first.attributes.fields[ContentsKey].List?
    requires TruthyAt(second.attributes, ContentsKey) && second.attributes.fields[ContentsKey].List?
    modifies pebble, first, second
    ensures first.attributes == Pushed(old(first.attributes), Ref(pebble))
    ensures second.attributes == Pushed(old(second.attributes), Ref(pebble))
    ensures Lookup(pebble.attributes, LocationKey) == Some(Ref(second))
  {
    var moved := MoveTo(pebble, first, store);
    assert moved == Pass;
    moved := MoveTo(pebble, second, store);
    assert moved == Pass;
  }

  /** index.js:13-14: a pebble moved into an empty box is the box's only content, and is located in it. */
  method MoveIntoBox(store: BehaviorStore) returns (pebble: Thing, box: Thing)
    ensures Lookup(box.attributes, ContentsKey) == Some(List([Ref(pebble)]))
    ensures Lookup(pebble.attributes, LocationKey) == Some(Ref(box))
    ensures Weigh(pebble.attributes) == Some(Num(1))
  {
    pebble := new Thing(Obj([NameKey, MassKey], map[NameKey := Str("pebble"), MassKey := Num(1)]));
    box := new Thing(Obj([NameKey, ContentsKey], map[NameKey := Str("box"), ContentsKey := List([])]));
    var moved := MoveTo(pebble, box, store);
    assert moved == Pass;
  }
}
