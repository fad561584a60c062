/**
 * `tab.mergeModels` (tab.js:68-94): applies the attributes of an addon model
 * to a base model. An attribute the base declares additive becomes the
 * ordered union of both values, `grammar` rules fold into the base grammar's
 * `noun`, `nouns` and `adjectives` lists, and anything else is replaced.
 */
module Merging {
  import opened OrderedSet
  import opened Json

  const AdditiveKey := "additiveAttributes"
  const GrammarKey := "grammar"

  /** `v.includes(k)`: membership for an array, a substring test for a string. */
  function Includes(v: Value, k: string): Result<bool> {
    match v
    case List(xs) => Ok(Str(k) in xs)
    case Str(s) => Ok(IsSubstring(k, s))
    case _ => Err(TypeError("additiveAttributes.includes is not a function"))
  }

  /** `k` occurs in `s` starting at index `i`. */
  predicate OccursAt(k: string, s: string, i: int) {
    0 <= i <= |s| - |k| && s[i..i + |k|] == k
  }

  predicate IsSubstring(k: string, s: string) {
    exists i | 0 <= i <= |s| - |k| :: OccursAt(k, s, i)
  }

  /** The test of tab.js:70 against the model as it stands. */
  function IsAdditive(model: Obj, k: string): Result<bool> {
    if TruthyAt(model, AdditiveKey) then Includes(model.fields[AdditiveKey], k) else Ok(false)
  }

  /** `model` currently declares `k` additive. */
  predicate Declares(model: Obj, k: string) {
    IsAdditive(model, k) == Ok(true)
  }

  /** The elements `[...(prev || [])]` spreads. */
  function Prior(prev: Option<Value>): Result<seq<Value>> {
    if prev.Some? && Truthy(prev.value) then
      if Iterable(prev.value) then Ok(Items(prev.value)) else Err(TypeError("not iterable"))
    else Ok([])
  }

  /** `Array.from(new Set([...(prev || []), ...add]))`. */
  function UnionValue(prev: Option<Value>, add: Value): (r: Result<Value>)
    ensures r.Ok? <==> Prior(prev).Ok? && Iterable(add)
    ensures r.Ok? ==> r.value == List(Union(Prior(prev).value, Items(add)))
  {
    var prior :- Prior(prev);
    if Iterable(add) then Ok(List(Union(prior, Items(add)))) else Err(TypeError("not iterable"))
  }

  /** `g?.[key]`: only a plain object has the sub-keys a grammar rule targets. */
  function Member(g: Option<Value>, key: string): Option<Value> {
    match g
    case Some(Record(o)) => Lookup(o, key)
    case _ => None
  }

  /** The grammar sub-key a rule adds to: `noun` and `nouns` keep their name, everything else is an adjective. */
  function RuleTarget(rule: string): (t: string)
    ensures t == "noun" || t == "nouns" || t == "adjectives"
    ensures t == rule <==> rule == "noun" || rule == "nouns" || rule == "adjectives"
    ensures rule != "noun" && rule != "nouns" ==> t == "adjectives"
  {
    if rule == "noun" || rule == "nouns" then rule else "adjectives"
  }

  /** One pass of the inner loop of tab.js:77-87. */
  function GrammarStep(g: Option<Value>, rule: string, v: Value): Result<Value> {
    var key := RuleTarget(rule);
    var u :- UnionValue(Member(g, key), v);
    Ok(Record(Put(SpreadObj(g), key, u)))
  }

  /** The grammar after folding in `rules` one by one; untouched when there are none. */
  function GrammarMerge(g: Option<Value>, rules: seq<(string, Value)>): (r: Result<Option<Value>>)
    ensures r.Ok? && r.value.None? ==> g.None?
  {
    if |rules| == 0 then Ok(g)
    else
      var prev :- GrammarMerge(g, rules[..|rules| - 1]);
      var next :- GrammarStep(prev, rules[|rules| - 1].0, rules[|rules| - 1].1);
      Ok(Some(next))
  }

  /** What a key that is not additive holds after the merge (tab.js:76-91). */
  function Replacement(prev: Option<Value>, k: string, v: Value): (r: Result<Option<Value>>)
    ensures r.Ok? && r.value.None? ==> prev.None?
  {
    if k == GrammarKey then GrammarMerge(prev, ForIn(v)) else Ok(Some(v))
  }

  /** Sets `k` when there is a value for it. */
  function SetOpt(o: Obj, k: string, ov: Option<Value>): Obj {
    if ov.Some? then Put(o, k, ov.value) else o
  }

  /** One pass of the outer loop of tab.js:69-92, for the addon's attribute `k`. */
  function MergeStep(model: Obj, k: string, v: Value): (r: Result<Obj>)
    ensures r.Ok? ==> forall j :: j != k ==> Lookup(r.value, j) == Lookup(model, j)
    ensures r.Ok? && Valid(model) ==> Valid(r.value)
    ensures r.Ok? ==> model.fields.Keys <= r.value.fields.Keys <= model.fields.Keys + {k}
    ensures r.Ok? && k != GrammarKey ==> k in r.value.fields
  {
    var additive :- IsAdditive(model, k);
    if additive then
      var u :- UnionValue(Lookup(model, k), v);
      Ok(Put(model, k, u))
    else
      var nv :- Replacement(Lookup(model, k), k, v);
      Ok(SetOpt(model, k, nv))
  }

  /**
   * The base after the outer loop has visited `keys` of the addon in order.
   * Only visited keys change, and none disappears.
   */
  function MergeAlong(base: Obj, addon: Obj, keys: seq<string>): (r: Result<Obj>)
    requires forall k | k in keys :: k in addon.fields
    ensures r.Ok? ==> forall j :: j !in keys ==> Lookup(r.value, j) == Lookup(base, j)
    ensures r.Ok? && Valid(base) ==> Valid(r.value)
    ensures r.Ok? ==> base.fields.Keys <= r.value.fields.Keys
    ensures r.Ok? ==> forall j :: j in r.value.fields ==> j in base.fields || j in keys
    ensures r.Ok? ==> forall j :: j in keys && j != GrammarKey ==> j in r.value.fields
  {
    if |keys| == 0 then Ok(base)
    else
      var p := keys[..|keys| - 1];
      var k := keys[|keys| - 1];
      assert forall y :: y in keys <==> y in p || y == k by {
        assert keys == p + [k];
      }
      var prev :- MergeAlong(base, addon, p);
      MergeStep(prev, k, addon.fields[k])
  }

  /** `mergeModels(base, addon)`, visiting the addon's attributes in their order. */
  function Merge(base: Obj, addon: Obj): Result<Obj>
    requires Valid(addon)
  {
    MergeAlong(base, addon, addon.order)
  }

  /** tab.js:68-94, updating the base attribute by attribute. */
  method MergeModels(baseModel: Obj, additionalModel: Obj) returns (r: Result<Obj>)
    requires Valid(additionalModel)
    ensures r == Merge(baseModel, additionalModel)
  {
    var model := baseModel;
    var keys := additionalModel.order;
    for i := 0 to |keys|
      invariant MergeAlong(baseModel, additionalModel, keys[..i]) == Ok(model)
    {
      AlongNext(baseModel, additionalModel, keys, i);
      var next := MergeAttribute(model, keys[i], additionalModel.fields[keys[i]]);
      if next.Err? {
        AlongErrSticks(baseModel, additionalModel, keys, i + 1, next.fault);
        return Err(next.fault);
      }
      model := next.value;
    }
    assert keys[..|keys|] == keys;
    return Ok(model);
  }

  /** The body of the outer loop of tab.js:69-92 for one attribute. */
  method MergeAttribute(model: Obj, attribute: string, value: Value) returns (r: Result<Obj>)
    ensures r == MergeStep(model, attribute, value)
  {
    var additive := IsAdditive(model, attribute);
    if additive.Err? {
      return Err(additive.fault);
    }
    if additive.value {
      var u := UnionValue(Lookup(model, attribute), value);
      if u.Err? {
        return Err(u.fault);
      }
      return Ok(Put(model, attribute, u.value));
    } else if attribute == GrammarKey {
      var updated := model;
      var rules := ForIn(value);
      for j := 0 to |rules|
        invariant GrammarMerge(Lookup(model, attribute), rules[..j]) == Ok(Lookup(updated, attribute))
        invariant updated == SetOpt(model, attribute, Lookup(updated, attribute))
      {
        GrammarNext(Lookup(model, attribute), rules, j);
        var next := GrammarStep(Lookup(updated, attribute), rules[j].0, rules[j].1);
        if next.Err? {
          GrammarErrSticks(Lookup(model, attribute), rules, j + 1, next.fault);
          return Err(next.fault);
        }
        if Lookup(updated, attribute).Some? {
          PutPut(model, attribute, Lookup(updated, attribute).value, next.value);
        }
        updated := Put(updated, attribute, next.value);
      }
      assert rules[..|rules|] == rules;
      return Ok(updated);
    } else {
      return Ok(Put(model, attribute, value));
    }
  }

  /** One more key of the outer loop. */
  lemma AlongNext(base: Obj, addon: Obj, keys: seq<string>, i: nat)
    requires forall k | k in keys :: k in addon.fields
    requires i < |keys|
    ensures MergeAlong(base, addon, keys[..i + 1]) ==
      match MergeAlong(base, addon, keys[..i])
      case Ok(m) => MergeStep(m, keys[i], addon.fields[keys[i]])
      case Err(e) => Err(e)
  {
    assert keys[..i + 1][..i] == keys[..i];
  }

  /** One more rule of the inner loop. */
  lemma GrammarNext(g: Option<Value>, rules: seq<(string, Value)>, j: nat)
    requires j < |rules|
    ensures GrammarMerge(g, rules[..j + 1]) ==
      match GrammarMerge(g, rules[..j])
      case Ok(h) => (match GrammarStep(h, rules[j].0, rules[j].1) case Ok(v) => Ok(Some(v)) case Err(e) => Err(e))
      case Err(e) => Err(e)
  {
    assert rules[..j + 1][..j] == rules[..j];
  }

  /** Once a prefix of the keys fails, the whole merge fails the same way. */
  lemma {:induction false} AlongErrSticks(base: Obj, addon: Obj, keys: seq<string>, i: nat, e: Fault)
    requires forall k | k in keys :: k in addon.fields
    requires i <= |keys|
    requires MergeAlong(base, addon, keys[..i]) == Err(e)
    ensures MergeAlong(base, addon, keys) == Err(e)
  {
    if i < |keys| {
      var p := keys[..|keys| - 1];
      assert p[..i] == keys[..i];
      AlongErrSticks(base, addon, p, i, e);
    } else {
      assert keys[..i] == keys;
    }
  }

  /** Once a prefix of the rules fails, the whole grammar fold fails the same way. */
  lemma {:induction false} GrammarErrSticks(g: Option<Value>, rules: seq<(string, Value)>, i: nat, e: Fault)
    requires i <= |rules|
    requires GrammarMerge(g, rules[..i]) == Err(e)
    ensures GrammarMerge(g, rules) == Err(e)
  {
    if i < |rules| {
      var p := rules[..|rules| - 1];
      assert p[..i] == rules[..i];
      GrammarErrSticks(g, p, i, e);
    } else {
      assert rules[..i] == rules;
    }
  }

  // Properties of a merge.

  /** A name that iterating the additive list yields is one that `includes` finds. */
  lemma ItemIncluded(v: Value, k: string)
    requires Str(k) in Items(v)
    ensures Truthy(v) && Includes(v, k) == Ok(true)
  {
    if v.Str? {
      var i :| 0 <= i < |Items(v)| && Items(v)[i] == Str(k);
      assert OccursAt(k, v.s, i);
    }
  }

  /** Whether a model declares `k` additive depends only on its `additiveAttributes`. */
  lemma AdditiveByEntry(a: Obj, b: Obj, k: string)
    requires Lookup(a, AdditiveKey) == Lookup(b, AdditiveKey)
    ensures IsAdditive(a, k) == IsAdditive(b, k)
  {
  }

  /** A step declares `k` additive only if the model or the addon already did. */
  lemma StepDeclares(model: Obj, addon: Obj, j: string, k: string)
    requires j in addon.fields
    requires MergeStep(model, j, addon.fields[j]).Ok?
    ensures Declares(MergeStep(model, j, addon.fields[j]).value, k) ==> Declares(model, k) || Declares(addon, k)
  {
    var v := addon.fields[j];
    var r := MergeStep(model, j, v).value;
    if j != AdditiveKey {
      AdditiveByEntry(r, model, k);
    } else if IsAdditive(model, j).value {
      var prior := Prior(Lookup(model, j)).value;
      if Str(k) in prior {
        ItemIncluded(model.fields[j], k);
      }
      if Str(k) in Items(v) {
        ItemIncluded(v, k);
      }
    } else {
      AdditiveByEntry(r, addon, k);
    }
  }

  /** Along any keys, `k` becomes additive only if the base or the addon declares it. */
  lemma {:induction false} AlongDeclares(base: Obj, addon: Obj, keys: seq<string>, k: string)
    requires forall j | j in keys :: j in addon.fields
    requires MergeAlong(base, addon, keys).Ok?
    ensures Declares(MergeAlong(base, addon, keys).value, k) ==> Declares(base, k) || Declares(addon, k)
  {
    if |keys| > 0 {
      var p := keys[..|keys| - 1];
      assert forall j | j in p :: j in keys;
      AlongDeclares(base, addon, p, k);
      StepDeclares(MergeAlong(base, addon, p).value, addon, keys[|keys| - 1], k);
    }
  }

  /** After a step that is not additive, `k` holds the replacement value. */
  lemma ReplaceStep(model: Obj, k: string, v: Value)
    requires MergeStep(model, k, v).Ok?
    requires IsAdditive(model, k) == Ok(false)
    ensures Replacement(Lookup(model, k), k, v).Ok?
    ensures Lookup(MergeStep(model, k, v).value, k) == Replacement(Lookup(model, k), k, v).value
  {
  }

  /** A key that neither model declares additive takes its replacement value. */
  lemma {:induction false} AlongReplace(base: Obj, addon: Obj, keys: seq<string>, k: string)
    requires forall j | j in keys :: j in addon.fields
    requires NoDup(keys) && k in keys
    requires !Declares(base, k) && !Declares(addon, k)
    requires MergeAlong(base, addon, keys).Ok?
    ensures Replacement(Lookup(base, k), k, addon.fields[k]).Ok?
    ensures Lookup(MergeAlong(base, addon, keys).value, k) == Replacement(Lookup(base, k), k, addon.fields[k]).value
  {
    var p := keys[..|keys| - 1];
    var j := keys[|keys| - 1];
    SnocParts(keys);
    var s := MergeAlong(base, addon, p).value;
    if j == k {
      AlongDeclares(base, addon, p, k);
      ReplaceStep(s, k, addon.fields[k]);
    } else {
      AlongReplace(base, addon, p, k);
    }
  }

  /**
   * tab.js:89-91: an attribute that neither model declares additive, other
   * than `grammar`, is the addon's value after the merge.
   */
  lemma MergeReplaces(base: Obj, addon: Obj, k: string)
    requires Valid(addon) && k in addon.fields && k != GrammarKey
    requires !Declares(base, k) && !Declares(addon, k)
    requires Merge(base, addon).Ok?
    ensures Lookup(Merge(base, addon).value, k) == Some(addon.fields[k])
  {
    AlongReplace(base, addon, addon.order, k);
  }

  /**
   * Merging leaves alone every attribute the addon does not have, drops
   * none, and adds only the addon's; every addon attribute but `grammar`
   * (which an addon without rules leaves absent) is present afterwards.
   */
  lemma MergeFrame(base: Obj, addon: Obj, k: string)
    requires Valid(addon) && Merge(base, addon).Ok?
    ensures k !in addon.fields ==> Lookup(Merge(base, addon).value, k) == Lookup(base, k)
    ensures k in Merge(base, addon).value.fields ==> k in base.fields || k in addon.fields
    ensures k in base.fields ==> k in Merge(base, addon).value.fields
    ensures k in addon.fields && k != GrammarKey ==> k in Merge(base, addon).value.fields
  {
    assert k in addon.fields ==> k in addon.order;
  }

  /** The additive list of `model` is an array that lists `k`. */
  predicate ListsAdditive(model: Obj, k: string) {
    Lookup(model, AdditiveKey).Some? && Lookup(model, AdditiveKey).value.List?
    && Str(k) in Lookup(model, AdditiveKey).value.items
  }

  /**
   * When the base's additive list is an array naming `k` (and naming
   * itself, should the addon carry one), `k` stays additive throughout and
   * ends up as the union of both values.
   */
  lemma {:induction false} AlongUnion(base: Obj, addon: Obj, keys: seq<string>, k: string)
    requires forall j | j in keys :: j in addon.fields
    requires NoDup(keys)
    requires ListsAdditive(base, k)
    requires AdditiveKey in keys ==> ListsAdditive(base, AdditiveKey)
    requires MergeAlong(base, addon, keys).Ok?
    ensures ListsAdditive(MergeAlong(base, addon, keys).value, k)
    ensures k in keys ==> UnionValue(Lookup(base, k), addon.fields[k]).Ok?
    ensures k in keys ==> Lookup(MergeAlong(base, addon, keys).value, k) == Some(UnionValue(Lookup(base, k), addon.fields[k]).value)
  {
    if |keys| > 0 {
      var p := keys[..|keys| - 1];
      var j := keys[|keys| - 1];
      SnocParts(keys);
      AlongUnion(base, addon, p, k);
      var s := MergeAlong(base, addon, p).value;
      UnionStep(s, j, addon.fields[j], k, Lookup(base, k));
    }
  }

  /** One step of `AlongUnion`. */
  lemma UnionStep(s: Obj, j: string, v: Value, k: string, baseValue: Option<Value>)
    requires ListsAdditive(s, k)
    requires j == AdditiveKey ==> ListsAdditive(s, AdditiveKey)
    requires j == k ==> Lookup(s, k) == baseValue
    requires MergeStep(s, j, v).Ok?
    ensures ListsAdditive(MergeStep(s, j, v).value, k)
    ensures j == k ==> UnionValue(baseValue, v).Ok?
    ensures j == k ==> Lookup(MergeStep(s, j, v).value, k) == Some(UnionValue(baseValue, v).value)
  {
    var r := MergeStep(s, j, v).value;
    if j == AdditiveKey {
      var ys := Lookup(s, AdditiveKey).value.items;
      assert IsAdditive(s, j) == Ok(true);
      assert Prior(Lookup(s, j)) == Ok(ys);
      assert Lookup(r, AdditiveKey) == Some(List(Union(ys, Items(v))));
    } else {
      assert Lookup(r, AdditiveKey) == Lookup(s, AdditiveKey);
      if j == k {
        assert IsAdditive(s, j) == Ok(true);
      }
    }
  }

  /**
   * tab.js:70-74: when the base's `additiveAttributes` array names `k` (and
   * itself, if the addon replaces it), the merged `k` is the base's values
   * followed by the addon's new ones, each once.
   */
  lemma MergeUnion(base: Obj, addon: Obj, k: string)
    requires Valid(addon) && k in addon.fields
    requires ListsAdditive(base, k)
    requires AdditiveKey in addon.fields ==> ListsAdditive(base, AdditiveKey)
    requires Merge(base, addon).Ok?
    ensures Prior(Lookup(base, k)).Ok? && Iterable(addon.fields[k])
    ensures Lookup(Merge(base, addon).value, k) == Some(List(Union(Prior(Lookup(base, k)).value, Items(addon.fields[k]))))
  {
    AlongUnion(base, addon, addon.order, k);
  }

  /** `{...g}[key]`: sub-key `key` of the grammar as an object. */
  function SubKey(g: Option<Value>, key: string): Option<Value> {
    Lookup(SpreadObj(g), key)
  }

  /** Some rule adds to sub-key `t`. */
  predicate Targets(rules: seq<(string, Value)>, t: string) {
    |rules| > 0 && (Targets(rules[..|rules| - 1], t) || RuleTarget(rules[|rules| - 1].0) == t)
  }

  /** The values the rules add to sub-key `t`, in order. */
  function Gathered(rules: seq<(string, Value)>, t: string): (r: seq<Value>)
    ensures !Targets(rules, t) ==> r == []
  {
    if |rules| == 0 then []
    else
      var last := rules[|rules| - 1];
      Gathered(rules[..|rules| - 1], t) + (if RuleTarget(last.0) == t then Items(last.1) else [])
  }

  /** On the sub-keys a rule targets, `g?.[key]` and `{...g}[key]` agree. */
  lemma MemberIsSubKey(g: Option<Value>, key: string)
    requires |key| > 0 && !('0' <= key[0] <= '9')
    ensures Member(g, key) == SubKey(g, key)
  {
  }

  /**
   * Folding grammar rules: a sub-key some rule targets becomes the union of
   * what the grammar had there and everything the rules give it, in rule
   * order; every other sub-key keeps its value.
   */
  lemma {:induction false} GrammarFold(g: Option<Value>, rules: seq<(string, Value)>, t: string)
    requires GrammarMerge(g, rules).Ok?
    ensures Targets(rules, t) ==> Prior(SubKey(g, t)).Ok?
    ensures Targets(rules, t) ==>
      SubKey(GrammarMerge(g, rules).value, t) == Some(List(Union(Prior(SubKey(g, t)).value, Gathered(rules, t))))
    ensures !Targets(rules, t) ==> SubKey(GrammarMerge(g, rules).value, t) == SubKey(g, t)
  {
    if |rules| > 0 {
      var p := rules[..|rules| - 1];
      var rule := rules[|rules| - 1].0;
      var v := rules[|rules| - 1].1;
      GrammarFold(g, p, t);
      var h := GrammarMerge(g, p).value;
      GrammarStepSubKey(h, rule, v, t);
      assert GrammarMerge(g, rules).value == Some(GrammarStep(h, rule, v).value);
      var next := GrammarMerge(g, rules).value;
      if RuleTarget(rule) == t {
        var gp := Gathered(p, t);
        assert Gathered(rules, t) == gp + Items(v);
        if Targets(p, t) {
          UnionOnto(SubKey(h, t), Prior(SubKey(g, t)).value, gp, Items(v));
        } else {
          assert gp + Items(v) == Items(v);
        }
      } else {
        assert Gathered(rules, t) == Gathered(p, t) + [];
        assert Gathered(p, t) + [] == Gathered(p, t);
      }
    }
  }

  /** A sub-key already holding a union takes the next rule's values into the same union. */
  lemma UnionOnto(before: Option<Value>, p0: seq<Value>, gp: seq<Value>, xs: seq<Value>)
    requires before == Some(List(Union(p0, gp)))
    ensures Prior(before) == Ok(Union(p0, gp))
    ensures Union(Prior(before).value, xs) == Union(p0, gp + xs)
  {
    UnionAssociative(p0, gp, xs);
  }

  /** One rule changes only the sub-key it targets, to the union of its old list and the rule's values. */
  lemma GrammarStepSubKey(h: Option<Value>, rule: string, v: Value, t: string)
    requires GrammarStep(h, rule, v).Ok?
    ensures RuleTarget(rule) != t ==> SubKey(Some(GrammarStep(h, rule, v).value), t) == SubKey(h, t)
    ensures RuleTarget(rule) == t ==> Prior(SubKey(h, t)).Ok?
    ensures RuleTarget(rule) == t ==>
      SubKey(Some(GrammarStep(h, rule, v).value), t) == Some(List(Union(Prior(SubKey(h, t)).value, Items(v))))
  {
    var key := RuleTarget(rule);
    MemberIsSubKey(h, key);
    var u := UnionValue(Member(h, key), v).value;
    var o := Put(SpreadObj(h), key, u);
    assert GrammarStep(h, rule, v).value == Record(o);
    assert SubKey(Some(Record(o)), t) == Lookup(o, t);
  }

  /**
   * tab.js:76-87: the merged grammar, viewed as an object, has each targeted
   * sub-key (`noun`, `nouns`, or `adjectives` for every other rule name) as
   * the union of the base grammar's list and the addon's rule values, and
   * every other sub-key of the base grammar unchanged.
   */
  lemma MergeGrammar(base: Obj, addon: Obj, t: string)
    requires Valid(addon) && GrammarKey in addon.fields
    requires !Declares(base, GrammarKey) && !Declares(addon, GrammarKey)
    requires Merge(base, addon).Ok?
    ensures var rules := ForIn(addon.fields[GrammarKey]);
      Targets(rules, t) ==> Prior(SubKey(Lookup(base, GrammarKey), t)).Ok?
    ensures var rules := ForIn(addon.fields[GrammarKey]);
      Targets(rules, t) ==>
        SubKey(Lookup(Merge(base, addon).value, GrammarKey), t)
        == Some(List(Union(Prior(SubKey(Lookup(base, GrammarKey), t)).value, Gathered(rules, t))))
    ensures var rules := ForIn(addon.fields[GrammarKey]);
      !Targets(rules, t) ==>
        SubKey(Lookup(Merge(base, addon).value, GrammarKey), t) == SubKey(Lookup(base, GrammarKey), t)
  {
    AlongReplace(base, addon, addon.order, GrammarKey);
    GrammarFold(Lookup(base, GrammarKey), ForIn(addon.fields[GrammarKey]), t);
  }
}
