/**
 * `tab.makeThing` (tab.js:102-119): the `thing` model overlaid with the
 * given model, its bases and the addon's bases collected, duplicates
 * dropped, and then each collected model loaded, merged with the data built
 * so far, and copied back onto it.
 */
module Make {
  import opened OrderedSet
  import opened Json
  import opened Merging
  import opened Bases

  const ThingName := "thing"

  /** One pass of the `forEach` of tab.js:111-119. */
  function FoldStep(store: Store, data: Obj, name: Value): (r: Result<Obj>)
    requires ValidStore(store) && Valid(data)
    ensures r.Ok? ==> Valid(r.value)
  {
    var loaded :- LoadModel(store, name);
    var merged :- Merge(loaded, data);
    Ok(Overlay(data, merged))
  }

  /** The data after the `forEach` has visited `names` in order. */
  function FoldAlong(store: Store, data: Obj, names: seq<Value>): (r: Result<Obj>)
    requires ValidStore(store) && Valid(data)
    ensures r.Ok? ==> Valid(r.value)
  {
    if |names| == 0 then Ok(data)
    else
      var prev :- FoldAlong(store, data, names[..|names| - 1]);
      FoldStep(store, prev, names[|names| - 1])
  }

  /**
   * tab.js:103-110: the base names to merge, without duplicates, and the
   * model data they are merged into.
   */
  function Collected(store: Store, model: Obj, addon: Option<Obj>, depth: nat): (r: Result<(seq<Value>, Obj)>)
    requires ValidStore(store) && Valid(model)
    ensures r.Ok? ==> NoDup(r.value.0) && Valid(r.value.1)
  {
    var thing :- LoadModel(store, Str(ThingName));
    var data := Overlay(thing, model);
    var first :- Collect(store, data, [], false, depth);
    var names :- if addon.Some? then
        var second :- Collect(store, addon.value, first.0, false, depth);
        Ok(second.0)
      else Ok(first.0);
    DedupNoDup(names);
    CollectConsumesBase(store, data, [], false, depth);
    Ok((Dedup(names), first.1))
  }

  /** What `makeThing(model, addon)` builds. An absent model is the empty object. */
  function Made(store: Store, model: Obj, addon: Option<Obj>, depth: nat): Result<Obj>
    requires ValidStore(store) && Valid(model)
  {
    var c :- Collected(store, model, addon, depth);
    FoldAlong(store, c.1, c.0)
  }

  /** tab.js:102-119, up to the proxy around the result. */
  method MakeThing(store: Store, model: Obj, addonModel: Option<Obj>, depth: nat) returns (r: Result<Obj>)
    requires ValidStore(store) && Valid(model)
    ensures r == Made(store, model, addonModel, depth)
  {
    var collected := CollectNames(store, model, addonModel, depth);
    if collected.Err? {
      return Err(collected.fault);
    }
    var clean := collected.value.0;
    var modelData := collected.value.1;
    ghost var start := modelData;
    for i := 0 to |clean|
      invariant FoldAlong(store, start, clean[..i]) == Ok(modelData)
    {
      FoldNext(store, start, clean, i);
      var next := MergeBase(store, modelData, clean[i]);
      if next.Err? {
        FoldErrSticks(store, start, clean, i + 1, next.fault);
        return Err(next.fault);
      }
      modelData := next.value;
    }
    assert clean[..|clean|] == clean;
    return Ok(modelData);
  }

  /** tab.js:103-110: the de-duplicated base names and the data they are merged into. */
  method CollectNames(store: Store, model: Obj, addonModel: Option<Obj>, depth: nat) returns (r: Result<(seq<Value>, Obj)>)
    requires ValidStore(store) && Valid(model)
    ensures r == Collected(store, model, addonModel, depth)
  {
    var thingModel := LoadModel(store, Str(ThingName));
    if thingModel.Err? {
      return Err(thingModel.fault);
    }
    var modelData := Overlay(thingModel.value, model);
    var first := CollectBases(store, modelData, [], false, depth);
    if first.Err? {
      return Err(first.fault);
    }
    var baseCollection := first.value.0;
    modelData := first.value.1;
    if addonModel.Some? {
      var second := CollectBases(store, addonModel.value, baseCollection, false, depth);
      if second.Err? {
        return Err(second.fault);
      }
      baseCollection := second.value.0;
    }
    return Ok((Dedup(baseCollection), modelData));
  }

  /** The body of the `forEach` of tab.js:111-119 for one base name. */
  method MergeBase(store: Store, modelData: Obj, name: Value) returns (r: Result<Obj>)
    requires ValidStore(store) && Valid(modelData)
    ensures r == FoldStep(store, modelData, name)
  {
    var baseModelData := LoadModel(store, name);
    if baseModelData.Err? {
      return Err(baseModelData.fault);
    }
    var merged := MergeModels(baseModelData.value, modelData);
    if merged.Err? {
      return Err(merged.fault);
    }
    return Ok(Overlay(modelData, merged.value));
  }

  /** One more name of the `forEach`. */
  lemma FoldNext(store: Store, data: Obj, names: seq<Value>, i: nat)
    requires ValidStore(store) && Valid(data)
    requires i < |names|
    ensures FoldAlong(store, data, names[..i]).Err? ==>
      FoldAlong(store, data, names[..i + 1]) == FoldAlong(store, data, names[..i])
    ensures FoldAlong(store, data, names[..i]).Ok? ==>
      FoldAlong(store, data, names[..i + 1]) == FoldStep(store, FoldAlong(store, data, names[..i]).value, names[i])
  {
    assert names[..i + 1][..i] == names[..i];
  }

  /** Once a prefix of the names fails, the whole fold fails the same way. */
  lemma {:induction false} FoldErrSticks(store: Store, data: Obj, names: seq<Value>, i: nat, e: Fault)
    requires ValidStore(store) && Valid(data)
    requires i <= |names|
    requires FoldAlong(store, data, names[..i]) == Err(e)
    ensures FoldAlong(store, data, names) == Err(e)
  {
    if i < |names| {
      var p := names[..|names| - 1];
      assert p[..i] == names[..i];
      FoldErrSticks(store, data, p, i, e);
    } else {
      assert names[..i] == names;
    }
  }

  // Properties of the fold.

  /** No model in the store declares `k` additive. */
  predicate NeverAdditive(store: Store, k: string) {
    forall n | n in store :: !Declares(store[n], k)
  }

  /**
   * The value the earliest provider gives `k`: the starting data if it has
   * `k`, otherwise the first model in `names` that has it.
   */
  function FirstValue(store: Store, data: Obj, names: seq<Value>, k: string): Option<Value> {
    if |names| == 0 then Lookup(data, k)
    else
      var f := FirstValue(store, data, names[..|names| - 1], k);
      if f.Some? then f
      else if Text(names[|names| - 1]) in store then Lookup(store[Text(names[|names| - 1])], k)
      else None
  }

  /**
   * One pass: a key nobody declares additive keeps the value it had, or
   * takes the loaded model's if it had none, and stays not additive.
   */
  lemma FoldStepKeeps(store: Store, data: Obj, name: Value, k: string)
    requires ValidStore(store) && Valid(data)
    requires k != GrammarKey && NeverAdditive(store, k) && !Declares(data, k)
    requires FoldStep(store, data, name).Ok?
    ensures Text(name) in store
    ensures Lookup(FoldStep(store, data, name).value, k)
      == if k in data.fields then Some(data.fields[k]) else Lookup(store[Text(name)], k)
    ensures !Declares(FoldStep(store, data, name).value, k)
  {
    var b := store[Text(name)];
    var m := Merge(b, data).value;
    if k in data.fields {
      MergeReplaces(b, data, k);
    } else {
      MergeFrame(b, data, k);
    }
    AlongDeclares(b, data, data.order, k);
    var r := Overlay(data, m);
    if AdditiveKey in m.fields {
      AdditiveByEntry(r, m, k);
    } else {
      AdditiveByEntry(r, data, k);
    }
  }

  /**
   * tab.js:111-119: for a key nobody declares additive (other than
   * `grammar`), the built data holds the value of the earliest provider:
   * the model data if it has the key, else the first collected base that has
   * it. Later bases never override earlier ones.
   */
  lemma {:induction false} FoldFirstWins(store: Store, data: Obj, names: seq<Value>, k: string)
    requires ValidStore(store) && Valid(data)
    requires k != GrammarKey && NeverAdditive(store, k) && !Declares(data, k)
    requires FoldAlong(store, data, names).Ok?
    ensures Lookup(FoldAlong(store, data, names).value, k) == FirstValue(store, data, names, k)
    ensures !Declares(FoldAlong(store, data, names).value, k)
  {
    if |names| > 0 {
      var p := names[..|names| - 1];
      FoldFirstWins(store, data, p, k);
      FoldStepKeeps(store, FoldAlong(store, data, p).value, names[|names| - 1], k);
    }
  }

  /** No key appears that neither the starting data nor some collected model has. */
  lemma {:induction false} FoldKeys(store: Store, data: Obj, names: seq<Value>, k: string)
    requires ValidStore(store) && Valid(data)
    requires k !in data.fields
    requires forall n | n in store :: k !in store[n].fields
    requires FoldAlong(store, data, names).Ok?
    ensures k !in FoldAlong(store, data, names).value.fields
  {
    if |names| > 0 {
      var p := names[..|names| - 1];
      FoldKeys(store, data, p, k);
      var d := FoldAlong(store, data, p).value;
      var b := LoadModel(store, names[|names| - 1]).value;
      MergeFrame(b, d, k);
    }
  }

  /**
   * tab.js:104: an attribute of the given model, other than `base` and
   * `grammar`, that nobody declares additive is in the built thing as the
   * model gave it.
   */
  lemma MadeKeepsModel(store: Store, model: Obj, addon: Option<Obj>, depth: nat, k: string)
    requires ValidStore(store) && Valid(model)
    requires k in model.fields && k != BaseKey && k != GrammarKey
    requires NeverAdditive(store, k) && !Declares(model, k)
    requires Made(store, model, addon, depth).Ok?
    ensures Lookup(Made(store, model, addon, depth).value, k) == Some(model.fields[k])
  {
    var thing := store[ThingName];
    var data := Overlay(thing, model);
    CollectConsumesBase(store, data, [], false, depth);
    var c := Collected(store, model, addon, depth).value;
    assert Lookup(c.1, k) == Some(model.fields[k]);
    if AdditiveKey in model.fields {
      AdditiveByEntry(c.1, model, k);
    } else {
      AdditiveByEntry(c.1, thing, k);
    }
    FoldFirstWins(store, c.1, c.0, k);
    FirstFromData(store, c.1, c.0, k);
  }

  /** The starting data, when it has the key, is the earliest provider. */
  lemma {:induction false} FirstFromData(store: Store, data: Obj, names: seq<Value>, k: string)
    requires k in data.fields
    ensures FirstValue(store, data, names, k) == Some(data.fields[k])
  {
    if |names| > 0 {
      FirstFromData(store, data, names[..|names| - 1], k);
    }
  }

  /**
   * tab.js:107-109: of the addon only its bases are used. An attribute that
   * only the addon has never reaches the built thing.
   */
  lemma MadeIgnoresAddonAttributes(store: Store, model: Obj, addon: Obj, depth: nat, k: string)
    requires ValidStore(store) && Valid(model)
    requires k !in model.fields && forall n | n in store :: k !in store[n].fields
    requires Made(store, model, Some(addon), depth).Ok?
    ensures k !in Made(store, model, Some(addon), depth).value.fields
  {
    var thing := store[ThingName];
    var data := Overlay(thing, model);
    CollectConsumesBase(store, data, [], false, depth);
    var c := Collected(store, model, Some(addon), depth).value;
    assert Lookup(c.1, k) == None;
    FoldKeys(store, c.1, c.0, k);
  }

  /** tab.js:110: each collected name is merged once, however often it was collected. */
  lemma MadeMergesOnce(store: Store, model: Obj, addon: Option<Obj>, depth: nat)
    requires ValidStore(store) && Valid(model)
    requires Collected(store, model, addon, depth).Ok?
    ensures NoDup(Collected(store, model, addon, depth).value.0)
    ensures forall v :: v in Collected(store, model, addon, depth).value.0 ==> Text(v) in store
  {
    var thing := store[ThingName];
    var data := Overlay(thing, model);
    CollectStored(store, data, [], false, depth);
    if addon.Some? {
      var first := Collect(store, data, [], false, depth).value;
      CollectStored(store, addon.value, first.0, false, depth);
    }
  }
}
