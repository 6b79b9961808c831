/** The order in which a `BTreeMap<String, _>` yields its keys:
    lexicographic comparison character by character, a proper prefix
    coming first. */
module KeyOrder {

  /** `a < b` in lexicographic order. */
  predicate Below(a: string, b: string)
    decreases |a|
  {
    if a == [] then b != []
    else if b == [] then false
    else a[0] < b[0] || (a[0] == b[0] && Below(a[1..], b[1..]))
  }

  /** Each key is strictly below every later key. */
  predicate StrictlySorted(keys: seq<string>)
  {
    forall i, j | 0 <= i < j < |keys| :: Below(keys[i], keys[j])
  }

  /** Nothing is below itself. */
  lemma {:induction false} BelowIrreflexive(a: string)
    ensures !Below(a, a)
    decreases |a|
  {
    if a != [] {
      BelowIrreflexive(a[1..]);
    }
  }

  lemma {:induction false} BelowTransitive(a: string, b: string, c: string)
    requires Below(a, b) && Below(b, c)
    ensures Below(a, c)
    decreases |a|
  {
    if a != [] && a[0] == b[0] && b[0] == c[0] {
      BelowTransitive(a[1..], b[1..], c[1..]);
    }
  }

  /** Any two distinct keys are ordered one way or the other. */
  lemma {:induction false} BelowTotal(a: string, b: string)
    requires a != b
    ensures Below(a, b) || Below(b, a)
    decreases |a|
  {
    if a != [] && b != [] && a[0] == b[0] {
      assert a == [a[0]] + a[1..] && b == [b[0]] + b[1..];
      BelowTotal(a[1..], b[1..]);
    }
  }

  /** A key extended by more characters is never below the key itself. */
  lemma {:induction false} ExtensionNotBelow(a: string, s: string)
    ensures !Below(a + s, a)
    decreases |a|
  {
    if a != [] {
      assert (a + s)[1..] == a[1..] + s;
      ExtensionNotBelow(a[1..], s);
    }
  }

  /** Keys that start with `q` form one contiguous block in sorted order: a
      key between two keys that start with `q` starts with `q` too. */
  lemma {:induction false} PrefixBlock(q: string, a: string, b: string, c: string)
    requires |q| <= |a| && a[..|q|] == q
    requires |q| <= |c| && c[..|q|] == q
    requires a == b || Below(a, b)
    requires Below(b, c)
    ensures |q| <= |b| && b[..|q|] == q
    decreases |q|
  {
    if q != [] {
      assert a[0] == q[0] && c[0] == q[0];
      assert a[1..][..|q| - 1] == q[1..] && c[1..][..|q| - 1] == q[1..];
      PrefixBlock(q[1..], a[1..], b[1..], c[1..]);
      assert b == [b[0]] + b[1..];
      assert q == [q[0]] + q[1..];
    }
  }

  /** The least key of a non-empty finite set of keys. */
  ghost function Least(keys: set<string>): (least: string)
    requires keys != {}
    ensures least in keys
    ensures forall j | j in keys && j != least :: Below(least, j)
    decreases keys
  {
    var x :| x in keys;
    if keys == {x} then x
    else
      var y := Least(keys - {x});
      LeastOfTwo(keys, x, y);
      if Below(x, y) then x else y
  }

  /** Comparing a key with the least of the others gives the least of all. */
  lemma LeastOfTwo(keys: set<string>, x: string, y: string)
    requires x in keys && y in keys - {x}
    requires forall j | j in keys - {x} && j != y :: Below(y, j)
    ensures Below(x, y) ==> forall j | j in keys && j != x :: Below(x, j)
    ensures !Below(x, y) ==> forall j | j in keys && j != y :: Below(y, j)
  {
    BelowTotal(x, y);
    if Below(x, y) {
      forall j | j in keys && j != x
        ensures Below(x, j)
      {
        if j != y {
          BelowTransitive(x, y, j);
        }
      }
    }
  }

  /** The keys of a map in `BTreeMap` order: every key exactly once, in
      strictly ascending order. */
  method SortedKeys(keys: set<string>) returns (sorted: seq<string>)
    ensures StrictlySorted(sorted)
    ensures forall k :: k in sorted <==> k in keys
    ensures |sorted| == |keys|
  {
    sorted := [];
    var rest := keys;
    while rest != {}
      invariant StrictlySorted(sorted)
      invariant forall k :: k in keys <==> k in sorted || k in rest
      invariant forall k | k in sorted :: k !in rest
      invariant forall i, k | 0 <= i < |sorted| && k in rest :: Below(sorted[i], k)
      invariant |sorted| + |rest| == |keys|
      decreases rest
    {
      ghost var smallest := Least(rest);
      var least :| least in rest && forall j | j in rest && j != least :: Below(least, j);
      sorted := sorted + [least];
      rest := rest - {least};
    }
  }
}
