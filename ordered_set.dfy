/**
 * Insertion-ordered sets, the meaning of `Array.from(new Set([...xs, ...ys]))`
 * in tab.js: duplicates collapse onto their first occurrence and the
 * survivors keep the order in which they were first seen.
 */
module OrderedSet {

  /** No element occurs twice. */
  predicate NoDup<T(==)>(s: seq<T>) {
    forall i, j | 0 <= i < j < |s| :: s[i] != s[j]
  }

  /** `s` with every element after its first occurrence removed. */
  function Dedup<T(==)>(s: seq<T>): (r: seq<T>)
    ensures forall x {:trigger x in r} :: x in r ==> x in s
    ensures forall x {:trigger x in r} :: x in s ==> x in r
    ensures |r| <= |s|
  {
    if |s| == 0 then []
    else
      var d := Dedup(s[..|s| - 1]);
      var x := s[|s| - 1];
      assert forall y :: y in s ==> y in s[..|s| - 1] || y == x by {
        assert s == s[..|s| - 1] + [x];
      }
      if x in d then d else d + [x]
  }

  /** What `Dedup` returns has no duplicates. */
  lemma {:induction false} DedupNoDup<T>(s: seq<T>)
    ensures NoDup(Dedup(s))
  {
    if |s| > 0 {
      DedupNoDup(s[..|s| - 1]);
    }
  }

  /** The elements of `b`, in order, that do not occur in `a`. */
  function Without<T(==)>(b: seq<T>, a: seq<T>): (r: seq<T>)
    ensures forall x :: x in r ==> x in b && x !in a
    ensures forall x :: x in b && x !in a ==> x in r
  {
    if |b| == 0 then []
    else
      var w := Without(b[..|b| - 1], a);
      var x := b[|b| - 1];
      assert forall y :: y in b ==> y in b[..|b| - 1] || y == x by {
        assert b == b[..|b| - 1] + [x];
      }
      if x in a then w else w + [x]
  }

  /** Filtering a duplicate-free sequence leaves it duplicate-free. */
  lemma {:induction false} WithoutNoDup<T>(b: seq<T>, a: seq<T>)
    requires NoDup(b)
    ensures NoDup(Without(b, a))
  {
    if |b| > 0 {
      SnocParts(b);
      WithoutNoDup(b[..|b| - 1], a);
      WithoutSnoc(b[..|b| - 1], a, b[|b| - 1]);
    }
  }

  /** A non-empty sequence is its front followed by its last element. */
  lemma SnocParts<T>(s: seq<T>)
    requires |s| > 0
    ensures s == s[..|s| - 1] + [s[|s| - 1]]
    ensures forall y :: y in s[..|s| - 1] ==> y in s
    ensures NoDup(s) ==> NoDup(s[..|s| - 1]) && s[|s| - 1] !in s[..|s| - 1]
  {
    LastSplit(s);
  }

  lemma LastSplit<T>(s: seq<T>)
    requires |s| > 0
    ensures s == s[..|s| - 1] + [s[|s| - 1]]
  {
  }

  /** A duplicate-free sequence is its own de-duplication. */
  lemma {:induction false} DedupOfNoDup<T>(s: seq<T>)
    requires NoDup(s)
    ensures Dedup(s) == s
  {
    if |s| > 0 {
      var p := s[..|s| - 1];
      assert NoDup(p);
      DedupOfNoDup(p);
      assert s[|s| - 1] !in p;
      assert s == p + [s[|s| - 1]];
    }
  }

  /**
   * De-duplicating a concatenation keeps the de-duplicated first part
   * intact and appends only the new elements of the second part.
   */
  lemma {:induction false} DedupAppend<T>(a: seq<T>, b: seq<T>)
    ensures Dedup(a + b) == Dedup(a) + Dedup(Without(b, a))
  {
    if |b| == 0 {
      assert a + b == a;
      assert Without(b, a) == [];
      assert Dedup(a) + [] == Dedup(a);
    } else {
      var p := b[..|b| - 1];
      var x := b[|b| - 1];
      assert b == p + [x];
      assert a + b == (a + p) + [x];
      DedupAppend(a, p);
      DedupAppendStep(a, p, x);
    }
  }

  lemma DedupAppendStep<T>(a: seq<T>, p: seq<T>, x: T)
    requires Dedup(a + p) == Dedup(a) + Dedup(Without(p, a))
    ensures Dedup((a + p) + [x]) == Dedup(a) + Dedup(Without(p + [x], a))
  {
    DedupSnoc(a + p, x);
    WithoutSnoc(p, a, x);
    if x !in a {
      DedupAppendNew(a, p, x);
    }
  }

  lemma DedupAppendNew<T>(a: seq<T>, p: seq<T>, x: T)
    requires Dedup(a + p) == Dedup(a) + Dedup(Without(p, a))
    requires x !in a
    ensures Dedup(a + p + [x]) == Dedup(a) + Dedup(Without(p, a) + [x])
  {
    var w := Without(p, a);
    DedupSnoc(a + p, x);
    DedupSnoc(w, x);
    NewInBoth(a, p, x);
    SnocSplit(Dedup(a), Dedup(w), x);
  }

  /** Appending a new element to the second part of a concatenation. */
  lemma SnocSplit<T>(d: seq<T>, e: seq<T>, x: T)
    ensures (if x in d + e then d + e else d + e + [x]) == d + (if x in e then e else e + [x]) <== x !in d
  {
    assert d + e + [x] == d + (e + [x]);
  }

  lemma NewInBoth<T>(a: seq<T>, p: seq<T>, x: T)
    requires x !in a
    ensures x in Dedup(a + p) <==> x in Dedup(Without(p, a))
  {
    assert x in Dedup(a + p) <==> x in a + p;
    assert x in Dedup(Without(p, a)) <==> x in Without(p, a);
  }

  lemma DedupSnoc<T>(s: seq<T>, x: T)
    ensures Dedup(s + [x]) == if x in Dedup(s) then Dedup(s) else Dedup(s) + [x]
  {
    assert (s + [x])[..|s + [x]| - 1] == s;
  }

  lemma WithoutSnoc<T>(b: seq<T>, a: seq<T>, x: T)
    ensures Without(b + [x], a) == if x in a then Without(b, a) else Without(b, a) + [x]
  {
    assert (b + [x])[..|b + [x]| - 1] == b;
  }

  /** Elements already present add nothing. */
  lemma {:induction false} DedupIgnoresPresent<T>(a: seq<T>, c: seq<T>)
    requires forall y :: y in c ==> y in a
    ensures Dedup(a + c) == Dedup(a)
  {
    if |c| == 0 {
      assert a + c == a;
    } else {
      var p := c[..|c| - 1];
      var x := c[|c| - 1];
      SnocParts(c);
      DedupIgnoresPresent(a, p);
      Regroup(a, p, [x]);
      DedupSnoc(a + p, x);
      assert x in a + p;
    }
  }

  /** De-duplicating in two stages is the same as de-duplicating once. */
  lemma {:induction false} DedupAbsorb<T>(a: seq<T>, b: seq<T>)
    ensures Dedup(Dedup(a) + b) == Dedup(a + b)
  {
    if |b| == 0 {
      assert a + b == a;
      assert Dedup(a) + b == Dedup(a);
      DedupNoDup(a);
      DedupOfNoDup(Dedup(a));
    } else {
      var p := b[..|b| - 1];
      DedupAbsorb(a, p);
      assert (Dedup(a) + b)[..|Dedup(a) + b| - 1] == Dedup(a) + p;
      assert (Dedup(a) + b)[|Dedup(a) + b| - 1] == b[|b| - 1];
      assert (a + b)[..|a + b| - 1] == a + p;
      assert (a + b)[|a + b| - 1] == b[|b| - 1];
    }
  }

  /**
   * The union of tab.js: base elements first, in their first-seen order,
   * then the addon's elements that are new, without duplicates.
   */
  function Union<T(==)>(a: seq<T>, b: seq<T>): (r: seq<T>)
    ensures NoDup(r)
    ensures forall x {:trigger x in r} :: x in r ==> x in a || x in b
    ensures forall x {:trigger x in r} :: x in a ==> x in r
    ensures forall x {:trigger x in r} :: x in b ==> x in r
    ensures NoDup(a) ==> r == a + Dedup(Without(b, a))
  {
    DedupAppend(a, b);
    DedupNoDup(a + b);
    assert NoDup(a) ==> Dedup(a) == a by {
      if NoDup(a) { DedupOfNoDup(a); }
    }
    Dedup(a + b)
  }

  /** Unioning the same addon a second time changes nothing. */
  lemma UnionIdempotent<T>(a: seq<T>, b: seq<T>)
    ensures Union(Union(a, b), b) == Union(a, b)
  {
    var u := Union(a, b);
    DedupIgnoresPresent(u, b);
    DedupOfNoDup(u);
  }

  /** Folding two addons one after the other equals one union with both. */
  lemma UnionAssociative<T>(a: seq<T>, b: seq<T>, c: seq<T>)
    ensures Union(Union(a, b), c) == Union(a, b + c)
  {
    UnionIsDedup(a, b);
    UnionIsDedup(Union(a, b), c);
    UnionIsDedup(a, b + c);
    DedupRegroup(a, b, c);
  }

  lemma DedupRegroup<T>(a: seq<T>, b: seq<T>, c: seq<T>)
    ensures Dedup(Dedup(a + b) + c) == Dedup(a + (b + c))
  {
    DedupAbsorb(a + b, c);
    Regroup(a, b, c);
  }

  lemma Regroup<T>(a: seq<T>, b: seq<T>, c: seq<T>)
    ensures a + b + c == a + (b + c)
  {
  }

  lemma UnionIsDedup<T>(a: seq<T>, b: seq<T>)
    ensures Union(a, b) == Dedup(a + b)
  {
  }

  /** An empty addon leaves a duplicate-free base as it is. */
  lemma UnionEmptyAddon<T>(a: seq<T>)
    requires NoDup(a)
    ensures Union(a, []) == a
  {
    assert a + [] == a;
    DedupOfNoDup(a);
  }
}
