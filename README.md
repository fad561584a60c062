# TAB engine in Dafny

A model of the core of TAB ("Things with Attributes and Behaviors"). TAB is a
small JavaScript engine that makes *things* out of JSON *models*. The model
covers these parts:

- **Merging models** (`tab.mergeModels`). Attributes the base declares additive become
  duplicate-free unions. `grammar` rules are unioned into `noun`, `nouns` or
  `adjectives`. Every other attribute is replaced.
- **Collecting bases** (`tab.collectBases`, `tab.loadBase`). A model's `base`, one
  name or a list of names, is walked recursively. Ancestors go in front of the
  collection and the model's own bases go at its end. The `base` key is then
  consumed.
- **Making a thing** (`tab.makeThing`). The `thing` model is overlaid with the given
  model. The bases of that result and of the addon are collected and
  de-duplicated. Each base is then loaded, merged with the data built so far
  and copied back onto it.
- **Property access on a thing** (the Proxy `get`). A truthy attribute is returned.
  Otherwise the thing's `behaviors` are scanned in order for a behaviour module
  exporting a function of that name. Otherwise the result is undefined.
- **The behaviour modules**:
  - `fullName` and `describe` of behaviors/thing.js;
  - `fullName` and `describe` of catalog/tab/thingBehaviors.js, with the
    a/an rule and the grammar article;
  - `moveTo` and `weigh` of catalog/vr/objectBehaviors.js.

Supporting modules:

- **`OrderedSet`** covers `Array.from(new Set(...))`: `Dedup` and `Union`, with the union laws.
- **`Json`** covers JSON values, objects with their property order, and the
  mutable `Thing` class. It also has JavaScript truthiness and the string
  coercion that `+` applies.

Each imperative part of the engine is a method. Each method is proved equal to
a function that specifies it:

- `MergeModels`/`MergeAttribute` equal `Merge`/`MergeStep`;
- `LoadBase`/`CollectBases` equal `Loaded`/`Collect`;
- `MakeThing` equals `Made`;
- `Get` equals `Dispatch`, and its in-place update equals `AfterGet`.

The lemmas state the engine's rules about those functions. `moveTo` updates
two things in place, and its contract gives both new states.

Models live in a store, a map from name to model. Behaviour modules live in a
map from behaviour name to the names of the functions they export. A thing's
attributes are an `Obj`, which keeps both the values and the order in which
properties were added. `for…in` visits properties in that order. The order
matters in three places:

- a merge visits the addon's `additiveAttributes` before or after the other keys;
- several grammar rules fold into `adjectives` one after another;
- `Object.assign` appends new properties.

Where the code departs from what its own comments and names suggest, the model follows the code:

- **The addon's attributes are never merged.** `makeThing(model, addon)` uses
  only the addon's `base` names (tab.js:107-109). `Make.MadeIgnoresAddonAttributes`
  shows that an attribute found only on the addon is absent from the built thing.
- **Nothing catches a cycle of bases.** The walk simply recurses until the stack
  runs out. This is modelled by a `depth` budget that ends in `StackOverflow`.
  `Bases.SelfBaseOverflows` shows it for every budget.
- **A built thing can regain a `base` key.** Loaded bases are copied onto the
  thing's data (tab.js:118), and with them any `base` key they carry.
- **A non-string name can make `fullName` throw.** In catalog/tab/thingBehaviors.js
  the name is a string whenever it is missing or a string. Only then is
  `name[0]` certain to be defined. A truthy name that is a number has no first
  letter, and `fullName` throws a TypeError (`TabThingBehaviors.NonStringNames`).

## Model

| member | source | states |
|---|---|---|
| OrderedSet.Dedup | tab.js:110 | `Array.from(new Set(s))` holds exactly the elements of `s` and is no longer than `s` |
| OrderedSet.DedupNoDup | tab.js:110 | the de-duplicated list has no repeated element |
| OrderedSet.DedupSnoc | tab.js:110 | de-duplication keeps first occurrences: a later repeat is dropped and a new element goes last |
| OrderedSet.DedupOfNoDup | tab.js:110 | a list without repeats is left as it is |
| OrderedSet.DedupAppend | tab.js:110 | de-duplicating `a + b` keeps `a`'s survivors first and then `b`'s new elements, each at its first occurrence |
| OrderedSet.Union | tab.js:71-74 | the union of the base list and the addon list has no repeats and holds exactly the elements of both; for a repeat-free base it is the base in order followed by the addon's new elements in first-occurrence order |
| OrderedSet.UnionIdempotent | tab.js:71-74 | unioning the same addon twice gives the same list as once |
| OrderedSet.UnionAssociative | tab.js:77-87 | unioning `b` and then `c` equals unioning `b + c` once; this lets successive grammar rules accumulate |
| OrderedSet.UnionEmptyAddon | tab.js:71-74 | an empty addon leaves a repeat-free base unchanged |
| Json.Put | tab.js:90 | `o[k] = v` (also at tab.js:71, 80 and 126): `k` now holds `v` and every other property is unchanged; an existing key keeps its place and a new key goes last; well-formedness is preserved |
| Json.PutPut | tab.js:80-86 | writing a property twice equals writing only the second value |
| Json.Remove | tab.js:58 | `delete o[k]`: `k` is gone and every other property is unchanged; well-formedness is preserved; the remaining properties keep their order, with the deleted key's slot closed up, and an absent key leaves the order as it was |
| Json.Overlay | tab.js:118 | `Object.assign(a, b)`, and `{...a, ...b}` at tab.js:104: the result's properties are `a`'s updated by `b`'s, with `b` winning; `a`'s properties keep their places and `b`'s new ones follow in `b`'s order |
| Json.Indexed | tab.js:81 | spreading an array gives an object holding element `i` under the name `String(i)`, with exactly the names `String(0)` … `String(n-1)` as keys; every key begins with a digit, so none can be `noun`, `nouns` or `adjectives` |
| Json.NatTextInjective | tab.js:81 | different indices have different decimal names, so spreading never lets one element overwrite another |
| Merging.UnionValue | tab.js:71-74 | `Array.from(new Set([...(prev \|\| []), ...add]))` fails with a TypeError exactly when a truthy `prev` or the `add` value is not iterable; otherwise it is the ordered union of their items; tab.js:82-85 uses the same union |
| Merging.RuleTarget | tab.js:78-79 | a grammar rule targets `noun` or `nouns` under its own name and `adjectives` otherwise; the target equals the rule name exactly for those three names |
| Merging.MergeStep | tab.js:69-92 | one attribute of the addon changes only that attribute of the base and removes none; every attribute other than `grammar` is present afterwards |
| Merging.MergeAlong | tab.js:69-92 | after visiting some of the addon's keys, unvisited keys are unchanged; keys only come from the base or the visited keys; no base key is dropped |
| Merging.MergeModels | tab.js:68-94 | the loop over the addon's keys computes exactly `Merge(base, addon)`, including its failures |
| Merging.MergeAttribute | tab.js:69-92 | the loop body, including the inner loop over grammar rules, computes exactly `MergeStep` |
| Merging.MergeReplaces | tab.js:89-91 | an attribute other than `grammar` that neither model declares additive holds exactly the addon's value |
| Merging.MergeFrame | tab.js:69 | attributes the addon lacks are unchanged; no attribute appears that neither model has; none of the base's is dropped |
| Merging.AlongDeclares | tab.js:70 | an attribute becomes additive during a merge only if the base or the addon declares it additive |
| Merging.MergeUnion | tab.js:70-74 | an attribute the base's `additiveAttributes` array lists becomes the base's elements in order followed by the addon's new ones, without repeats, provided that, when the addon has its own `additiveAttributes`, the base's list also names `additiveAttributes` (otherwise the addon's list replaces the base's before the attribute is reached) |
| Merging.GrammarFold | tab.js:77-87 | folding grammar rules makes every targeted sub-key the union of its old list and all values given to it, in rule order; other sub-keys keep their values |
| Merging.MergeGrammar | tab.js:76-87 | the merged `grammar` has `noun`/`nouns` rules unioned into the same-named sub-key, all other rules unioned into `adjectives`, and untargeted sub-keys of the base grammar preserved |
| Bases.LoadBase | tab.js:34-41 | loads the model, collects its own bases in front, then adds the name at the front or the back; the result equals the walk `Loaded` placed around the collection |
| Bases.CollectBases | tab.js:50-60 | the loop over the base names computes exactly `Collect`: the collection afterwards and the model without its `base` |
| Bases.CollectWithoutBase | tab.js:51-53 | a model without a truthy `base` leaves the collection and the model unchanged |
| Bases.SingleBaseIsList | tab.js:54 | a single base name behaves exactly like a list holding only that name |
| Bases.CollectConsumesBase | tab.js:58 | after the walk the model has no truthy `base`, and all its other attributes are unchanged |
| Bases.GatherBack | tab.js:39-57 | without `prefix`, exactly the listed names are appended, in order; with `prefix`, nothing is appended at the back |
| Bases.CollectAppendsBases | tab.js:37-57 | without `prefix`, `collectBases` appends the model's own bases, in their listed order, after the collection; everything else it collects goes in front |
| Bases.GatherComplete | tab.js:55-57 | walking a list of bases collects every listed name, and the bases of every collected name are collected too, in front |
| Bases.LoadedComplete | tab.js:34-40 | `loadBase` collects the name and, in front, all bases of its model, closed under their own bases; with `prefix` the name comes first |
| Bases.CollectGathersAncestors | tab.js:44-57 | `collectBases` leaves every base the model lists in the collection, and with every collected name all of that name's bases, so every ancestor of the model |
| Bases.CollectStored | tab.js:35-57 | every collected name is already in the collection or names a model in the store |
| Bases.SelfBaseOverflows | tab.js:36-57 | a model that names itself as its base exhausts any stack budget |
| Make.FoldStep | tab.js:112-118 | one base load, merge and copy-back keeps the data well-formed |
| Make.Collected | tab.js:103-110 | the names to merge have no repeats, and the starting data is well-formed |
| Make.MakeThing | tab.js:102-119 | the loop computes exactly `Made`: overlay, collect, de-duplicate, then load, merge and copy back each base in order |
| Make.CollectNames | tab.js:103-110 | the statements before the `forEach` compute exactly `Collected`: the de-duplicated names, or the first fault |
| Make.MergeBase | tab.js:112-118 | one pass of the `forEach` computes exactly `FoldStep`: load the base, merge the data into it and copy it back, or the first fault |
| Make.FoldFirstWins | tab.js:111-119 | for an attribute nobody declares additive (other than `grammar`), the built data holds the earliest provider's value: the data's own if it has one, else the first collected base's |
| Make.FoldKeys | tab.js:111-119 | the fold adds no attribute that neither the data nor any stored model has |
| Make.MadeKeepsModel | tab.js:104-119 | a non-additive attribute of the given model other than `base` and `grammar` survives into the built thing unchanged |
| Make.MadeIgnoresAddonAttributes | tab.js:107-109 | an attribute only the addon has never reaches the built thing |
| Make.MadeMergesOnce | tab.js:110 | the name values merged have no repeats, so no base name is merged twice, and each names a stored model |
| Capabilities.Dispatch | tab.js:122-134 | reading a property yields an attribute exactly when the thing has it truthy |
| Capabilities.Scan | tab.js:127-132 | the behaviour scan never yields an attribute |
| Capabilities.Get | tab.js:122-134 | the `get` trap returns `Dispatch` of the old attributes and leaves the attributes as `AfterGet` |
| Capabilities.ScanFindsFirst | tab.js:127-132 | if the behaviour at `i` is the first known one exporting the name, the scan picks it |
| Capabilities.ScanPicksFirst | tab.js:127-132 | a behaviour the scan picks is exported by its module, and every behaviour before it is known and does not export the name |
| Capabilities.ScanAbsent | tab.js:127-133 | the result is undefined exactly when every listed behaviour is known and none exports the name |
| Capabilities.AttributeBeforeBehaviors | tab.js:123-133 | a truthy attribute is returned whatever the behaviours are; otherwise the answer is the scan of the behaviour list |
| Capabilities.NoBehaviorsNoCapability | tab.js:126 | a thing without behaviours has no capabilities, and the read leaves `behaviors` as an empty list |
| Capabilities.DispatchStable | tab.js:122-134 | reading a property other than `behaviors` a second time gives the same answer and the same attributes |
| Capabilities.BehaviorsReadTwice | tab.js:123-126 | on a thing without `behaviors`, the first read of `behaviors` is undefined and the second is `[]` |
| Capabilities.BallDispatch | tab.js:122-134 | with `behaviors: [thing, object]`, `weigh` comes from object, `describe` (exported by both) from thing, `mass` is the attribute and an unknown name is undefined |
| TabThingBehaviors.FullName | catalog/tab/thingBehaviors.js:1-9 | the full name ends with the name (`thing` when missing), and cannot fail without an article when the name is a string |
| TabThingBehaviors.UnnamedIsAThing | catalog/tab/thingBehaviors.js:2-6 | a thing without a name or article is "a thing" |
| TabThingBehaviors.VowelRule | catalog/tab/thingBehaviors.js:6 | without an article, a string name gets "an " exactly when its first letter is a vowel in either case, and "a " exactly when it is not |
| TabThingBehaviors.ArticleRule | catalog/tab/thingBehaviors.js:3-4 | with a truthy article the full name is the article, a space and the name, for every name; an article of length 0 leaves only the space |
| TabThingBehaviors.ArticleExamples | catalog/tab/thingBehaviors.js:3-4 | a truthy article replaces the a/an rule ("the ball"); an empty-array article leaves a leading space; an empty-string article falls back to a/an |
| TabThingBehaviors.NonStringNames | catalog/tab/thingBehaviors.js:6 | without an article, a truthy number, boolean or thing as the name throws; an array name succeeds exactly when its first element is a string, and takes "an " exactly when that element is a single vowel letter |
| TabThingBehaviors.NonStringExamples | catalog/tab/thingBehaviors.js:6 | `7` throws; `["Egg"]` gives "a Egg"; `["E", "gg"]` gives "an E,gg" |
| TabThingBehaviors.Describe | catalog/tab/thingBehaviors.js:11-13 | a truthy description is returned as it is; otherwise "This is " + the full name + ".", and it fails only when the full name does |
| TabThingBehaviors.DescribeByName | catalog/tab/thingBehaviors.js:6-12 | an undescribed thing with a string name and no article is "This is a <name>." or "This is an <name>." by its first letter |
| ThingBehaviors.FullName | behaviors/thing.js:1-4 | the result is always truthy, and it is the thing's own name or "some thing" |
| ThingBehaviors.NameKept | behaviors/thing.js:2 | the name is kept exactly when it is truthy; otherwise it is "some thing" |
| ThingBehaviors.Describe | behaviors/thing.js:6-9 | the result is always truthy; a truthy description is returned, otherwise "This is " followed by the full name, with no full stop |
| ThingBehaviors.DescribeExamples | behaviors/thing.js:7 | an empty thing is "This is some thing"; a pebble with an empty description is "This is pebble" |
| ObjectBehaviors.Pushed | catalog/vr/objectBehaviors.js:3 | after the push, `contents` is one longer, its old elements keep their order and values, its last element is the mover, and no other attribute changes |
| ObjectBehaviors.Located | catalog/vr/objectBehaviors.js:4 | `location` is the destination and no other attribute changes |
| ObjectBehaviors.ContentsArray | catalog/vr/objectBehaviors.js:3 | pushing is possible exactly when the destination's `contents`, read through dispatch (tab.js:123-133), is a truthy array |
| ObjectBehaviors.MoveTo | catalog/vr/objectBehaviors.js:1-6 | the contract covers each case. No destination: TypeError. No own `contents`: neither thing changes. An array `contents`: the destination gets the mover pushed and the mover's `location` becomes the destination; a thing moved into itself gets both. Anything else: the read's fault, with only the `behaviors` write-back of the read. Nothing but the two things is modified |
| ObjectBehaviors.MoveOnward | catalog/vr/objectBehaviors.js:1-6 | moving a pebble from one box to another leaves it listed in the first box; both boxes got exactly one push |
| ObjectBehaviors.MoveIntoBox | index.js:12-14 | a pebble moved into an empty box is the box's only content and is located in the box |
| ObjectBehaviors.Weigh | catalog/vr/objectBehaviors.js:8-10 | the result is the `mass` attribute, and undefined exactly when there is none |

## Left out

- File and JSON loading (`tab.loadModel`, tab.js:23-25) are not modelled. The model store is a map, and a missing model is a `ModelNotFound` fault.
- A loaded model that is not an object (tab.js:113-116, with its `console.log`) is not modelled. A store holds only objects.
- The dynamic `require` of behaviour modules (tab.js:128) is not modelled. A behaviour store maps each behaviour name to the names of the functions it exports, and an unknown behaviour is a `BehaviorNotFound` fault. Module caching and non-function exports are not modelled.
- The Proxy and `bind` mechanics are not modelled. Dispatch says which behaviour supplies a function, and the behaviour functions take the thing's attributes as an explicit receiver. Calling the result of dispatch is not modelled.
- Symbol-keyed properties, inherited `Object.prototype` members and their use (for example `hasOwnProperty` in catalog/vr/objectBehaviors.js:2, taken as an own-property test) are not modelled.
- String coercion of a `Ref` (a thing inside a value) is approximated as "[object Object]". The behaviour lookups such a coercion would trigger through the proxy are not modelled.
- Property reads on a `Ref` behave as on a value without properties.
- Numbers are unbounded integers. Floating point, `NaN` and the text of non-integral numbers are not modelled.
- `for…in` lists integer-like keys first in JavaScript. The model keeps plain insertion order for all keys.
- A JavaScript `Set` keeps object elements apart by identity. The model compares values structurally.
- MadeMergesOnce: base names are compared as values, as `new Set` does, so names of different types with the same text (`"1"` and `1`, or `"thing"` and `["thing"]`) both survive and load the same model twice. The model merges that model twice, as the source does; no base model is promised to be merged only once.
- Pushed: arrays are values in the model, so copying one copies its contents. In the source, `{ ...thingModel, ...model }` (tab.js:104), `baseModel[attribute] = additionalModel[attribute]` (tab.js:90) and `Object.assign` (tab.js:118) copy references to the same array, so a built thing's `contents` can be the caller's `model.contents`, shared by every thing built from that model object (unless `contents` is additive). A `destination.contents.push(this)` (catalog/vr/objectBehaviors.js:3) is then seen by every sharer; in the model each push changes only the destination's own list. Aliasing of arrays between things and models is not modelled.
- The call stack is a `depth` budget. How deep real JavaScript can recurse is not modelled.
- The shared `collection` array is threaded through the walk as a value. The model returns what the walk puts in front of it and what it puts behind it.
- The addon's `base` deletion (tab.js:58 on the addon) is visible to the caller of `makeThing`. The model returns the collection only, and the caller's addon object is not modelled.
- `makeThing` with a string model (index.js:6, which spreads the string into index keys) is not modelled. Models are objects.
- `IsVowel` treats exactly A, E, I, O and U in either case as vowels. This assumes no other character lower-cases to one of them.
- The functions of index.js that this `tab.js` lacks (`activeCatalogSections`, a third `makeThing` argument, `behaviors.delete`) are not modelled.
- ThingBehaviors.Describe: `this.fullName()` is taken to be the same module's `fullName`. Through a corrected proxy it would be whichever behaviour first exports `fullName`.
- TabThingBehaviors.Describe: `this.fullName()` is taken to be the same module's `fullName`, as for the other `describe`.

## Findings

| source | as written | input that shows it | evidently intended | confidence | as-written member | corrected member |
|---|---|---|---|---|---|---|
| tab.js:35-39 | `loadBase` calls a bare `loadModel`, which this module never defines (only `tab.loadModel`), and then refers to an undeclared `base`. Any model with a base throws a ReferenceError | model `{base: "thing"}` with `thing` in the store | load the base through `tab.loadModel` and add `modelName` to the collection | high, not executed | Bases.AsWrittenThrows | Bases.LoadBase |
| tab.js:37 | the loaded model's `base` value (a name or a list of names) is passed to `collectBases`, which finds no `base` on it. The recursion never descends | chain container → object → thing: only `container` is collected | recurse into the loaded model (`modelJSON`), so that `object` and `thing` are collected in front | high, not executed | Bases.AsWrittenStopsAtFirstLevel | Bases.LoadBase |
| behaviors/thing.js:7 | the function is bound to the raw data (tab.js:130), so `this.fullName` is undefined. `describe` throws for every thing without a description | a thing with no description | "This is " followed by the full name | medium, not executed | ThingBehaviors.DescribeAsWrittenThrows | ThingBehaviors.Describe |
| catalog/tab/thingBehaviors.js:12 | the same binding: `this.fullName()` on the raw data throws for every thing without a description | a thing with no description | "This is a thing." | medium, not executed | TabThingBehaviors.DescribeAsWrittenThrows | TabThingBehaviors.Describe |
