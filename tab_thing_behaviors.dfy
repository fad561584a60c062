/**
 * The `thing` behaviours of the tab catalog (catalog/tab/thingBehaviors.js):
 * a thing's full name with its article, and its description. Both read the
 * thing's attributes and change nothing, so they are functions of them.
 */
module TabThingBehaviors {
  import opened Json
  import Merging

  const ArticleKey := "article"
  const DefaultName := "thing"
  const Vowels := "aeiouAEIOU"

  /** thingBehaviors.js:2: the name, `thing` when it is missing or falsy. */
  function NameOf(attrs: Obj): Value {
    if TruthyAt(attrs, NameKey) then attrs.fields[NameKey] else Str(DefaultName)
  }

  /** `this.grammar && this.grammar.article`, when that is truthy. */
  function Article(attrs: Obj): Option<Value> {
    if TruthyAt(attrs, Merging.GrammarKey) && attrs.fields[Merging.GrammarKey].Record?
       && TruthyAt(attrs.fields[Merging.GrammarKey].obj, ArticleKey)
    then Some(attrs.fields[Merging.GrammarKey].obj.fields[ArticleKey])
    else None
  }

  /** `v.length === 0`. */
  predicate LengthIsZero(v: Value) {
    match v
    case Str(s) => |s| == 0
    case List(xs) => |xs| == 0
    case Record(o) => Lookup(o, "length") == Some(Num(0))
    case _ => false
  }

  /** `v[0]`, with `None` for `undefined`. */
  function FirstElement(v: Value): Option<Value> {
    match v
    case Str(s) => if |s| > 0 then Some(Str([s[0]])) else None
    case List(xs) => if |xs| > 0 then Some(xs[0]) else None
    case Record(o) => Lookup(o, "0")
    case _ => None
  }

  /** `["a", "e", "i", "o", "u"].includes(c.toLowerCase())`. */
  predicate IsVowel(c: string) {
    |c| == 1 && c[0] in Vowels
  }

  /**
   * thingBehaviors.js:6: "an " before a vowel and "a " otherwise. Only a
   * string has `toLowerCase`, so a name whose first element is not one throws.
   */
  function IndefiniteArticle(name: Value): Result<string> {
    match FirstElement(name)
    case Some(Str(c)) => Ok(if IsVowel(c) then "an " else "a ")
    case _ => Err(TypeError("name[0].toLowerCase is not a function"))
  }

  /** thingBehaviors.js:1-9. */
  function FullName(attrs: Obj): (r: Result<string>)
    ensures r.Ok? ==> EndsWith(r.value, Text(NameOf(attrs)))
    ensures Article(attrs).None? && NameOf(attrs).Str? ==> r.Ok?
  {
    var name := NameOf(attrs);
    match Article(attrs)
    case Some(a) => Ok((if LengthIsZero(a) then "" else Text(a)) + " " + Text(name))
    case None =>
      var lead :- IndefiniteArticle(name);
      Ok(lead + Text(name))
  }

  /** thingBehaviors.js:11-13, with `this.fullName()` being this module's `fullName`. */
  function Describe(attrs: Obj): (r: Result<Value>)
    ensures TruthyAt(attrs, DescriptionKey) ==> r == Ok(attrs.fields[DescriptionKey])
    ensures r.Err? <==> !TruthyAt(attrs, DescriptionKey) && FullName(attrs).Err?
    ensures r.Ok? && !TruthyAt(attrs, DescriptionKey) ==>
      r.value.Str? && StartsWith(r.value.s, "This is ") && EndsWith(r.value.s, Text(NameOf(attrs)) + ".")
    ensures r.Ok? && !TruthyAt(attrs, DescriptionKey) ==> r.value == Str("This is " + FullName(attrs).value + ".")
  {
    if TruthyAt(attrs, DescriptionKey) then Ok(attrs.fields[DescriptionKey])
    else
      var full :- FullName(attrs);
      Framed(full, Text(NameOf(attrs)));
      Ok(Str("This is " + full + "."))
  }

  /** A sentence built around a full name ending in `name` ends in `name` and a full stop. */
  lemma Framed(full: string, name: string)
    requires EndsWith(full, name)
    ensures StartsWith("This is " + full + ".", "This is ")
    ensures EndsWith("This is " + full + ".", name + ".")
  {
    var s := "This is " + full + ".";
    assert s[|s| - |name + "."|..] == full[|full| - |name|..] + ".";
  }

  /**
   * thingBehaviors.js:12 as tab.js:130 runs it: `this` is the thing's raw
   * data, not the proxy, and plain data has no `fullName` function to call.
   */
  function DescribeAsWritten(attrs: Obj): (r: Result<Value>)
    ensures r.Err? <==> !TruthyAt(attrs, DescriptionKey)
    ensures r.Ok? ==> r == Describe(attrs)
  {
    if TruthyAt(attrs, DescriptionKey) then Ok(attrs.fields[DescriptionKey])
    else Err(TypeError("this.fullName is not a function"))
  }

  // Properties of the full name.

  /** thingBehaviors.js:2, 6: a thing without a name is "a thing". */
  lemma UnnamedIsAThing(attrs: Obj)
    requires !TruthyAt(attrs, NameKey) && Article(attrs).None?
    ensures FullName(attrs) == Ok("a thing")
  {
    assert FirstElement(Str(DefaultName)) == Some(Str("t"));
    assert !IsVowel("t");
    assert IndefiniteArticle(Str(DefaultName)) == Ok("a ");
    assert "a " + DefaultName == "a thing";
  }

  /** thingBehaviors.js:6: "an" exactly before a vowel, in either case. */
  lemma {:induction false} VowelRule(attrs: Obj, s: string)
    requires Article(attrs).None? && Lookup(attrs, NameKey) == Some(Str(s)) && |s| > 0
    ensures FullName(attrs) == Ok("an " + s) <==> s[0] in Vowels
    ensures FullName(attrs) == Ok("a " + s) <==> s[0] !in Vowels
  {
    assert FirstElement(Str(s)) == Some(Str([s[0]]));
    assert ("an " + s)[1] == 'n' && ("a " + s)[1] == ' ';
  }

  /**
   * thingBehaviors.js:3-4: with a truthy article the full name is that
   * article, a space and the name, whatever the name is; an article of
   * length 0 (an empty array) leaves only the space.
   */
  lemma ArticleRule(attrs: Obj, a: Value)
    requires Article(attrs) == Some(a)
    ensures a.Str? ==> FullName(attrs) == Ok(a.s + " " + Text(NameOf(attrs)))
    ensures LengthIsZero(a) ==> FullName(attrs) == Ok(" " + Text(NameOf(attrs)))
    ensures !LengthIsZero(a) ==> FullName(attrs) == Ok(Text(a) + " " + Text(NameOf(attrs)))
  {
    if a.Str? {
      assert |a.s| > 0;
    }
    if LengthIsZero(a) {
      assert "" + " " + Text(NameOf(attrs)) == " " + Text(NameOf(attrs));
    }
  }

  /** thingBehaviors.js:3-4: a truthy article replaces the a/an rule; an empty array one leaves a bare space. */
  lemma ArticleExamples()
    ensures FullName(Graded("ball", Str("the"))) == Ok("the ball")
    ensures FullName(Graded("ball", List([]))) == Ok(" ball")
    ensures FullName(Graded("apple", Str(""))) == Ok("an apple")
  {
    TheBall();
    BareBall();
    AnApple();
  }

  /** A thing called `name` whose grammar gives `article`. */
  function Graded(name: string, article: Value): Obj {
    Obj([NameKey, Merging.GrammarKey],
      map[NameKey := Str(name), Merging.GrammarKey := Record(Obj([ArticleKey], map[ArticleKey := article]))])
  }

  lemma TheBall()
    ensures FullName(Graded("ball", Str("the"))) == Ok("the ball")
  {
    assert Article(Graded("ball", Str("the"))) == Some(Str("the"));
    assert "the" + " " + "ball" == "the ball";
  }

  lemma BareBall()
    ensures FullName(Graded("ball", List([]))) == Ok(" ball")
  {
    assert Article(Graded("ball", List([]))) == Some(List([]));
    assert "" + " " + "ball" == " ball";
  }

  lemma AnApple()
    ensures FullName(Graded("apple", Str(""))) == Ok("an apple")
  {
    assert Article(Graded("apple", Str(""))) == None;
    assert FirstElement(Str("apple")) == Some(Str("a"));
    assert IndefiniteArticle(Str("apple")) == Ok("an ");
    assert "an " + "apple" == "an apple";
  }

  /**
   * thingBehaviors.js:6 without an article: a truthy name that is a number,
   * a boolean or a thing has no `[0]` to lower-case, so `fullName` throws;
   * an array name is judged by its first element, which must be a string,
   * and counts as a vowel only when it is a single vowel letter.
   */
  lemma NonStringNames(attrs: Obj, v: Value)
    requires Article(attrs).None? && Lookup(attrs, NameKey) == Some(v) && Truthy(v)
    ensures v.Num? || v.Bool? || v.Ref? ==> FullName(attrs).Err?
    ensures v.List? ==> (FullName(attrs).Ok? <==> |v.items| > 0 && v.items[0].Str?)
    ensures v.List? && |v.items| > 0 && v.items[0].Str? ==>
      FullName(attrs) == Ok((if |v.items[0].s| == 1 && v.items[0].s[0] in Vowels then "an " else "a ") + Text(v))
  {
    assert NameOf(attrs) == v;
  }

  /** A number name throws; "Egg" as an array element is not one letter, "E" is. */
  lemma NonStringExamples()
    ensures FullName(Obj([NameKey], map[NameKey := Num(7)])).Err?
    ensures FullName(Obj([NameKey], map[NameKey := List([Str("Egg")])])) == Ok("a Egg")
    ensures FullName(Obj([NameKey], map[NameKey := List([Str("E"), Str("gg")])])) == Ok("an E,gg")
  {
    OneElementName();
    TwoElementName();
  }

  lemma OneElementName()
    ensures FullName(Obj([NameKey], map[NameKey := List([Str("Egg")])])) == Ok("a Egg")
  {
    var one := [Str("Egg")];
    var oneParts := seq(|one|, i requires 0 <= i < |one| => if one[i].Null? then "" else Text(one[i]));
    assert oneParts == ["Egg"];
    assert Text(List(one)) == "Egg";
    assert IndefiniteArticle(List(one)) == Ok("a ");
    assert "a " + "Egg" == "a Egg";
  }

  lemma TwoElementName()
    ensures FullName(Obj([NameKey], map[NameKey := List([Str("E"), Str("gg")])])) == Ok("an E,gg")
  {
    var two := [Str("E"), Str("gg")];
    var twoParts := seq(|two|, i requires 0 <= i < |two| => if two[i].Null? then "" else Text(two[i]));
    assert twoParts == ["E", "gg"];
    assert twoParts[..1] == ["E"];
    assert Join(twoParts) == "E" + "," + "gg" == "E,gg";
    assert Text(List(two)) == "E,gg";
    assert IndefiniteArticle(List(two)) == Ok("an ");
    assert "an " + "E,gg" == "an E,gg";
  }

  /**
   * thingBehaviors.js:6, 12: an undescribed thing with a string name and no
   * article is "This is a <name>." or "This is an <name>.", by its first letter.
   */
  lemma DescribeByName(attrs: Obj, s: string)
    requires !TruthyAt(attrs, DescriptionKey) && Article(attrs).None?
    requires Lookup(attrs, NameKey) == Some(Str(s)) && |s| > 0
    ensures Describe(attrs) == Ok(Str("This is " + (if s[0] in Vowels then "an " else "a ") + s + "."))
  {
    VowelRule(attrs, s);
    var lead := if s[0] in Vowels then "an " else "a ";
    assert FullName(attrs) == Ok(lead + s);
    assert "This is " + (lead + s) + "." == "This is " + lead + s + ".";
  }

  /**
   * The description as the code runs it fails on every thing without a
   * description, where the intended one names the thing.
   */
  lemma DescribeAsWrittenThrows()
    ensures DescribeAsWritten(Empty).Err?
    ensures Describe(Empty) == Ok(Str("This is a thing."))
  {
    UnnamedIsAThing(Empty);
    assert "This is " + "a thing" + "." == "This is a thing.";
  }
}
