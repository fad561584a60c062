/**
 * The default `thing` behaviours (behaviors/thing.js): a name that falls
 * back to "some thing" and a description that falls back to naming the
 * thing. Both read the thing's attributes and change nothing, so they are
 * functions of them.
 */
module ThingBehaviors {
  import opened Json

  const DefaultName := "some thing"

  /** thing.js:1-4. */
  function FullName(attrs: Obj): (r: Value)
    ensures Truthy(r)
    ensures Lookup(attrs, NameKey) == Some(r) || r == Str(DefaultName)
  {
    if TruthyAt(attrs, NameKey) then attrs.fields[NameKey] else Str(DefaultName)
  }

  /** thing.js:6-9, with `this.fullName()` being this module's `fullName`. */
  function Describe(attrs: Obj): (r: Value)
    ensures Truthy(r)
    ensures TruthyAt(attrs, DescriptionKey) ==> r == attrs.fields[DescriptionKey]
    ensures !TruthyAt(attrs, DescriptionKey) ==>
      r.Str? && StartsWith(r.s, "This is ") && EndsWith(r.s, Text(FullName(attrs)))
    ensures !TruthyAt(attrs, DescriptionKey) ==> r == Str("This is " + Text(FullName(attrs)))
  {
    if TruthyAt(attrs, DescriptionKey) then attrs.fields[DescriptionKey]
    else Str("This is " + Text(FullName(attrs)))
  }

  /**
   * thing.js:7 as tab.js:130 runs it: `this` is the thing's raw data, not
   * the proxy, and plain data has no `fullName` function to call.
   */
  function DescribeAsWritten(attrs: Obj): (r: Result<Value>)
    ensures r.Err? <==> !TruthyAt(attrs, DescriptionKey)
    ensures r.Ok? ==> r.value == Describe(attrs)
  {
    if TruthyAt(attrs, DescriptionKey) then Ok(attrs.fields[DescriptionKey])
    else Err(TypeError("this.fullName is not a function"))
  }

  /** thing.js:2: the name is kept exactly when it is truthy. */
  lemma NameKept(attrs: Obj)
    ensures FullName(attrs) == Str(DefaultName) <== !TruthyAt(attrs, NameKey)
    ensures TruthyAt(attrs, NameKey) <==> Lookup(attrs, NameKey) == Some(FullName(attrs))
  {
  }

  /** thing.js:7: an undescribed thing is described by name, with no full stop. */
  lemma DescribeExamples()
    ensures Describe(Empty) == Str("This is some thing")
    ensures Describe(Obj([NameKey], map[NameKey := Str("pebble")])) == Str("This is pebble")
    ensures Describe(Obj([NameKey, DescriptionKey], map[NameKey := Str("pebble"), DescriptionKey := Str("")]))
      == Str("This is pebble")
  {
    UnnamedDescription();
    PebbleDescription();
  }

  lemma UnnamedDescription()
    ensures Describe(Empty) == Str("This is some thing")
  {
    assert "This is " + DefaultName == "This is some thing";
  }

  lemma PebbleDescription()
    ensures Describe(Obj([NameKey], map[NameKey := Str("pebble")])) == Str("This is pebble")
    ensures Describe(Obj([NameKey, DescriptionKey], map[NameKey := Str("pebble"), DescriptionKey := Str("")]))
      == Str("This is pebble")
  {
    assert "This is " + "pebble" == "This is pebble";
  }

  /**
   * The description as the code runs it fails on every thing without a
   * description, where the intended one names the thing.
   */
  lemma DescribeAsWrittenThrows()
    ensures DescribeAsWritten(Empty).Err?
    ensures Describe(Empty) == Str("This is some thing")
  {
  }
}
