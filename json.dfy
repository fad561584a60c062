/**
 * The data the engine works on: JSON-like values, JavaScript objects with
 * their property insertion order, and the mutable objects ("things") that
 * behaviours update in place.
 */
module Json {
  import opened OrderedSet

  datatype Option<+T> = None | Some(value: T)

  /** The ways an operation of the engine can throw. */
  datatype Fault =
    | TypeError(reason: string)
    | ReferenceError(name: string)
    | ModelNotFound(name: string)
    | BehaviorNotFound(name: string)
    | StackOverflow

  datatype Result<+T> = Ok(value: T) | Err(fault: Fault) {
    predicate IsFailure() { Err? }

    function PropagateFailure<U>(): Result<U>
      requires Err?
    {
      Err(fault)
    }

    function Extract(): T
      requires Ok?
    {
      value
    }
  }

  datatype Outcome = Pass | Fail(fault: Fault)

  /**
   * A property value. `Record` is a plain object, `List` an array and `Ref`
   * a reference to a thing (what `moveTo` stores in `contents` and
   * `location`). Numbers are integers.
   */
  datatype Value =
    | Null
    | Bool(b: bool)
    | Num(n: int)
    | Str(s: string)
    | List(items: seq<Value>)
    | Record(obj: Obj)
    | Ref(thing: Thing)

  /** A plain object: its properties and the order in which they were added. */
  datatype Obj = Obj(order: seq<string>, fields: map<string, Value>)

  /** A thing whose properties behaviours read and update in place. */
  class Thing {
    var attributes: Obj

    constructor (attributes: Obj)
      ensures this.attributes == attributes
    {
      this.attributes := attributes;
    }
  }

  const Empty: Obj := Obj([], map[])

  /** Attributes the behaviours read. */
  const NameKey := "name"
  const DescriptionKey := "description"

  /** Every property is listed exactly once in the order. */
  ghost predicate Valid(o: Obj) {
    NoDup(o.order) && (forall k :: k in o.order <==> k in o.fields)
  }

  /** `o[k]`, with `None` for `undefined`. */
  function Lookup(o: Obj, k: string): Option<Value> {
    if k in o.fields then Some(o.fields[k]) else None
  }

  /** `o[k] = v`: an existing property keeps its place, a new one goes last. */
  function Put(o: Obj, k: string, v: Value): (r: Obj)
    ensures r.fields == o.fields[k := v]
    ensures Lookup(r, k) == Some(v)
    ensures forall j :: j != k ==> Lookup(r, j) == Lookup(o, j)
    ensures Valid(o) ==> Valid(r)
    ensures k in o.fields ==> r.order == o.order
    ensures k !in o.fields ==> r.order == o.order + [k]
  {
    var r := Obj(if k in o.fields then o.order else o.order + [k], o.fields[k := v]);
    assert Valid(o) ==> Valid(r) by {
      if Valid(o) && k !in o.fields {
        assert k !in o.order;
      }
    }
    r
  }

  /** Writing a property twice keeps only the second write. */
  lemma PutPut(o: Obj, k: string, v: Value, w: Value)
    ensures Put(Put(o, k, v), k, w) == Put(o, k, w)
  {
  }

  /** The names of `s` other than `k`, in order. */
  function Erase(s: seq<string>, k: string): (r: seq<string>)
    ensures forall x :: x in r <==> x in s && x != k
    ensures NoDup(s) ==> NoDup(r)
  {
    if |s| == 0 then []
    else
      var p := Erase(s[..|s| - 1], k);
      var x := s[|s| - 1];
      assert forall y :: y in s <==> y in s[..|s| - 1] || y == x by {
        assert s == s[..|s| - 1] + [x];
      }
      assert NoDup(s) ==> NoDup(s[..|s| - 1]) && x !in s[..|s| - 1];
      if x == k then p else p + [x]
  }

  /** Erasing a name that is not there changes nothing. */
  lemma {:induction false} EraseAbsent(s: seq<string>, k: string)
    requires k !in s
    ensures Erase(s, k) == s
  {
    if |s| > 0 {
      SnocParts(s);
      EraseAbsent(s[..|s| - 1], k);
    }
  }

  /** Erasing the name at position `i` closes the gap it leaves. */
  lemma {:induction false} EraseAt(s: seq<string>, k: string, i: int)
    requires NoDup(s) && 0 <= i < |s| && s[i] == k
    ensures Erase(s, k) == s[..i] + s[i + 1..]
  {
    var p := s[..|s| - 1];
    SnocParts(s);
    if i == |s| - 1 {
      EraseAbsent(p, k);
      assert s[i + 1..] == [];
      assert s[..i] == p;
    } else {
      assert p[i] == k;
      EraseAt(p, k, i);
      assert s[|s| - 1] != k;
      ClosedGap(s, i);
    }
  }

  lemma ClosedGap(s: seq<string>, i: int)
    requires 0 <= i < |s| - 1
    ensures s[..|s| - 1][..i] + s[..|s| - 1][i + 1..] + [s[|s| - 1]] == s[..i] + s[i + 1..]
  {
    assert s[..|s| - 1][..i] == s[..i];
    assert s[..|s| - 1][i + 1..] + [s[|s| - 1]] == s[i + 1..];
  }

  /** `delete o[k]`: the other properties keep their order. */
  function Remove(o: Obj, k: string): (r: Obj)
    ensures r.fields == o.fields - {k}
    ensures Lookup(r, k) == None
    ensures forall j :: j != k ==> Lookup(r, j) == Lookup(o, j)
    ensures Valid(o) ==> Valid(r)
    ensures k !in o.order ==> r.order == o.order
    ensures Valid(o) ==> forall i :: 0 <= i < |o.order| && o.order[i] == k ==> r.order == o.order[..i] + o.order[i + 1..]
  {
    EraseOrder(o.order, k);
    Obj(Erase(o.order, k), o.fields - {k})
  }

  lemma EraseOrder(s: seq<string>, k: string)
    ensures k !in s ==> Erase(s, k) == s
    ensures NoDup(s) ==> forall i :: 0 <= i < |s| && s[i] == k ==> Erase(s, k) == s[..i] + s[i + 1..]
  {
    if k !in s {
      EraseAbsent(s, k);
    }
    forall i | NoDup(s) && 0 <= i < |s| && s[i] == k
      ensures Erase(s, k) == s[..i] + s[i + 1..]
    {
      EraseAt(s, k, i);
    }
  }

  /** Copies the properties `keys` of `b` onto `a`, one by one, in order. */
  function OverlayKeys(a: Obj, b: Obj, keys: seq<string>): (r: Obj)
    ensures Valid(a) ==> Valid(r)
    ensures forall j :: j in keys && j in b.fields ==> Lookup(r, j) == Some(b.fields[j])
    ensures forall j :: j !in keys || j !in b.fields ==> Lookup(r, j) == Lookup(a, j)
    ensures Valid(a) && (forall j :: j in keys ==> j in b.fields) ==>
      r.order == a.order + Dedup(Without(keys, a.order))
  {
    if |keys| == 0 then a
    else
      var q := keys[..|keys| - 1];
      var p := OverlayKeys(a, b, q);
      var k := keys[|keys| - 1];
      assert forall y :: y in keys <==> y in q || y == k by {
        assert keys == q + [k];
      }
      var r := if k in b.fields then Put(p, k, b.fields[k]) else p;
      assert Valid(a) && (forall j :: j in keys ==> j in b.fields) ==>
        r.order == a.order + Dedup(Without(keys, a.order)) by {
        if Valid(a) && (forall j :: j in keys ==> j in b.fields) {
          OverlayKeysStep(a.order, q, k, p.order);
          assert keys == q + [k];
        }
      }
      r
  }

  /** One more key copied by `OverlayKeys`: it goes last exactly when it is new. */
  lemma OverlayKeysStep(o: seq<string>, q: seq<string>, k: string, p: seq<string>)
    requires p == o + Dedup(Without(q, o))
    ensures (if k in p then p else p + [k]) == o + Dedup(Without(q + [k], o))
  {
    var w := Without(q, o);
    WithoutSnoc(q, o, k);
    DedupSnoc(w, k);
    assert k in Dedup(w) <==> k in w;
    Regroup(o, Dedup(w), [k]);
  }

  /** `{...a, ...b}`, and equally `Object.assign(a, b)`: b's properties win. */
  function Overlay(a: Obj, b: Obj): (r: Obj)
    ensures Valid(a) ==> Valid(r)
    ensures Valid(b) ==> r.fields == a.fields + b.fields
    ensures Valid(a) && Valid(b) ==> r.order == a.order + Without(b.order, a.order)
  {
    OverlayFields(a, b);
    OverlayOrder(a, b);
    OverlayKeys(a, b, b.order)
  }

  lemma OverlayFields(a: Obj, b: Obj)
    ensures Valid(b) ==> OverlayKeys(a, b, b.order).fields == a.fields + b.fields
  {
    var r := OverlayKeys(a, b, b.order);
    if Valid(b) {
      forall j ensures j in r.fields <==> j in (a.fields + b.fields) {
        assert Lookup(r, j).Some? <==> j in r.fields;
      }
      forall j | j in r.fields ensures r.fields[j] == (a.fields + b.fields)[j] {
        assert Lookup(r, j) == Some(r.fields[j]);
      }
    }
  }

  lemma OverlayOrder(a: Obj, b: Obj)
    ensures Valid(a) && Valid(b) ==> OverlayKeys(a, b, b.order).order == a.order + Without(b.order, a.order)
  {
    if Valid(a) && Valid(b) {
      WithoutNoDup(b.order, a.order);
      DedupOfNoDup(Without(b.order, a.order));
    }
  }

  /** JavaScript truthiness. */
  predicate Truthy(v: Value) {
    match v
    case Null => false
    case Bool(b) => b
    case Num(n) => n != 0
    case Str(s) => |s| > 0
    case _ => true
  }

  /** `o[k]` is present and truthy. */
  predicate TruthyAt(o: Obj, k: string) {
    k in o.fields && Truthy(o.fields[k])
  }

  /** The one-character strings of `s`, which is what iterating a string yields. */
  function Chars(s: string): (r: seq<Value>)
    ensures |r| == |s|
    ensures forall i :: 0 <= i < |s| ==> r[i] == Str([s[i]])
  {
    seq(|s|, i requires 0 <= i < |s| => Str([s[i]]))
  }

  /** `[...v]` and `for (x of v)` accept arrays and strings and throw otherwise. */
  predicate Iterable(v: Value) {
    v.List? || v.Str?
  }

  /** What iterating `v` yields. */
  function Items(v: Value): seq<Value> {
    match v
    case List(xs) => xs
    case Str(s) => Chars(s)
    case _ => []
  }

  predicate StartsWith(s: string, prefix: string) {
    |prefix| <= |s| && s[..|prefix|] == prefix
  }

  predicate EndsWith(s: string, suffix: string) {
    |suffix| <= |s| && s[|s| - |suffix|..] == suffix
  }

  /** The decimal digit for `d`. */
  function Digit(d: nat): (c: char)
    requires d < 10
    ensures '0' <= c <= '9'
  {
    ('0' as int + d) as char
  }

  /** The decimal digits of `n`. */
  function NatText(n: nat): (r: string)
    ensures |r| > 0
    ensures forall i :: 0 <= i < |r| ==> '0' <= r[i] <= '9'
    ensures n >= 10 ==> |r| >= 2
  {
    if n < 10 then [Digit(n)]
    else NatText(n / 10) + [Digit(n % 10)]
  }

  /** Different numbers have different decimal texts. */
  lemma {:induction false} NatTextInjective(a: nat, b: nat)
    ensures NatText(a) == NatText(b) ==> a == b
  {
    if NatText(a) == NatText(b) && a >= 10 && b >= 10 {
      var ta, tb := NatText(a), NatText(b);
      assert ta[..|ta| - 1] == NatText(a / 10) && tb[..|tb| - 1] == NatText(b / 10);
      NatTextInjective(a / 10, b / 10);
      assert Digit(a % 10) == ta[|ta| - 1] == tb[|tb| - 1] == Digit(b % 10);
    }
  }

  /** `String(n)` for an integer. */
  function IntText(n: int): string {
    if n < 0 then "-" + NatText(-n) else NatText(n)
  }

  /** `parts.join(",")`. */
  function Join(parts: seq<string>): string {
    if |parts| == 0 then ""
    else if |parts| == 1 then parts[0]
    else Join(parts[..|parts| - 1]) + "," + parts[|parts| - 1]
  }

  /**
   * `String(v)`, the text that `+` concatenates: arrays join their
   * elements with commas (null elements become empty), objects and things
   * print as "[object Object]".
   */
  function Text(v: Value): string {
    match v
    case Null => "null"
    case Bool(b) => if b then "true" else "false"
    case Num(n) => IntText(n)
    case Str(s) => s
    case List(xs) => Join(seq(|xs|, i requires 0 <= i < |xs| => if xs[i].Null? then "" else Text(xs[i])))
    case Record(_) => "[object Object]"
    case Ref(_) => "[object Object]"
  }

  /** The object `{...xs}` builds from an array: its indices as property names. */
  function Indexed(xs: seq<Value>): (r: Obj)
    ensures IndexedBy(r, xs)
    ensures forall j :: j in r.fields ==> |j| > 0 && '0' <= j[0] <= '9'
  {
    if |xs| == 0 then Empty
    else
      var n := |xs| - 1;
      IndexedSnoc(xs[..n], Indexed(xs[..n]), xs[n]);
      LastSplit(xs);
      Put(Indexed(xs[..n]), NatText(n), xs[n])
  }

  /** `o` holds `xs[i]` under the name `String(i)`, and has no other properties. */
  predicate IndexedBy(o: Obj, xs: seq<Value>) {
    (forall i | 0 <= i < |xs| :: Lookup(o, NatText(i)) == Some(xs[i]))
    && o.fields.Keys == IndexNames(|xs|)
  }

  /** The names `String(i)` for `0 <= i < n`. */
  function IndexNames(n: nat): (r: set<string>)
    ensures forall i | 0 <= i < n :: NatText(i) in r
  {
    if n == 0 then {} else IndexNames(n - 1) + {NatText(n - 1)}
  }

  lemma IndexedSnoc(xs: seq<Value>, prev: Obj, x: Value)
    requires IndexedBy(prev, xs)
    ensures IndexedBy(Put(prev, NatText(|xs|), x), xs + [x])
  {
    IndexedSnocValues(xs, prev, x);
    IndexedSnocKeys(xs, prev, x);
  }

  lemma IndexedSnocValues(xs: seq<Value>, prev: Obj, x: Value)
    requires forall i | 0 <= i < |xs| :: Lookup(prev, NatText(i)) == Some(xs[i])
    ensures forall i | 0 <= i < |xs| + 1 :: Lookup(Put(prev, NatText(|xs|), x), NatText(i)) == Some((xs + [x])[i])
  {
    forall i | 0 <= i < |xs| + 1 ensures Lookup(Put(prev, NatText(|xs|), x), NatText(i)) == Some((xs + [x])[i]) {
      NatTextInjective(i, |xs|);
    }
  }

  lemma IndexedSnocKeys(xs: seq<Value>, prev: Obj, x: Value)
    requires prev.fields.Keys == IndexNames(|xs|)
    ensures Put(prev, NatText(|xs|), x).fields.Keys == IndexNames(|xs| + 1)
  {
  }

  /** `{...v}` for a possibly undefined value. */
  function SpreadObj(v: Option<Value>): Obj {
    match v
    case Some(Record(o)) => o
    case Some(List(xs)) => Indexed(xs)
    case Some(Str(s)) => Indexed(Chars(s))
    case _ => Empty
  }

  /** The `[name, value]` pairs of `o` in property order. */
  function Entries(o: Obj, keys: seq<string>): (r: seq<(string, Value)>)
    ensures forall e :: e in r ==> e.0 in keys && e.0 in o.fields && e.1 == o.fields[e.0]
  {
    if |keys| == 0 then []
    else
      var p := Entries(o, keys[..|keys| - 1]);
      var k := keys[|keys| - 1];
      if k in o.fields then p + [(k, o.fields[k])] else p
  }

  /** The `[index, element]` pairs of an array. */
  function IndexEntries(xs: seq<Value>): (r: seq<(string, Value)>)
    ensures |r| == |xs|
    ensures forall i :: 0 <= i < |xs| ==> r[i] == (NatText(i), xs[i])
  {
    seq(|xs|, i requires 0 <= i < |xs| => (NatText(i), xs[i]))
  }

  /** What `for (key in v)` visits, each key with `v[key]`. */
  function ForIn(v: Value): seq<(string, Value)> {
    match v
    case Record(o) => Entries(o, o.order)
    case List(xs) => IndexEntries(xs)
    case Str(s) => IndexEntries(Chars(s))
    case _ => []
  }
}
