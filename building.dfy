/** The scan `from_map` makes over a flat map's keys in ascending order,
    stated on trees: after each key, the entries built so far together
    with the child still being collected are exactly `Build` of the keys
    seen. */
module Building {
  import opened Tensors
  import opened DottedKeys
  import opened KeyOrder
  import opened Trees

  /** What the scan knows about the keys `seen` so far.  While a child is
      being collected (`hasChild`), `last` is the latest dotted key, every
      dotted key seen is `last` or below it, the child's name `cn` is the
      first segment of `last`, and `pending` is that name's child map.
      Before the first dotted key, no key seen has a dot. */
  ghost predicate ScanState(seen: map<string, TensorCell>, hasChild: bool, cn: string,
                            pending: map<string, TensorCell>, last: string)
  {
    if hasChild then
      && last in seen && HasDot(last) && cn == First(last) && pending == Sub(seen, cn)
      && forall k | k in seen && HasDot(k) :: k == last || Below(k, last)
    else
      forall k | k in seen :: !HasDot(k)
  }

  /** The entries built so far, with the child being collected put in
      place as it will be once it is built. */
  ghost function Pending(entries: map<string, Entry>, hasChild: bool, cn: string,
                         pending: map<string, TensorCell>): map<string, Entry>
  {
    if hasChild then entries[cn := Child(Build(pending))] else entries
  }

  /** A key that starts with the segment `f` and a dot has first segment
      `f`. */
  lemma FirstOfPrefixed(f: string, k: string)
    requires '.' !in f && |f| + 1 <= |k| && k[..|f| + 1] == f + "."
    ensures HasDot(k) && First(k) == f
  {
    assert k == f + "." + k[|f| + 1..];
    SegmentDot(f, k[|f| + 1..]);
  }

  /** A dotted key starts with its first segment and a dot. */
  lemma DottedPrefix(k: string)
    requires HasDot(k)
    ensures |First(k)| + 1 <= |k| && k[..|First(k)| + 1] == First(k) + "."
  {
    KeyParts(k);
    assert k == (First(k) + ".") + ChildKey(k);
  }

  /** A key without a dot, above every key seen, adds a leaf under its own
      name: a dotted key of that name would have sorted after it. */
  lemma ScanLeaf(seen: map<string, TensorCell>, hasChild: bool, cn: string,
                 pending: map<string, TensorCell>, last: string,
                 entries: map<string, Entry>, k: string, v: TensorCell)
    requires ScanState(seen, hasChild, cn, pending, last)
    requires Pending(entries, hasChild, cn, pending) == Build(seen).entries
    requires !HasDot(k) && forall j | j in seen :: Below(j, k)
    ensures ScanState(seen[k := v], hasChild, cn, pending, last)
    ensures Pending(entries[k := Leaf(v)], hasChild, cn, pending) == Build(seen[k := v]).entries
  {
    KeyParts(k);
    assert k !in DottedHeads(seen) by {
      if j :| j in seen && HasDot(j) && First(j) == k {
        KeyParts(j);
        assert j == k + ("." + ChildKey(j));
        ExtensionNotBelow(k, "." + ChildKey(j));
      }
    }
    assert ScanState(seen[k := v], hasChild, cn, pending, last) by {
      SubAdd(seen, k, v, cn);
    }
    assert Pending(entries[k := Leaf(v)], hasChild, cn, pending) == Build(seen[k := v]).entries by {
      BuildAddLeaf(seen, k, v);
      if hasChild {
        assert cn in DottedHeads(seen);
        UpdatesCommute(entries, k, Leaf(v), cn, Child(Build(pending)));
      }
    }
  }

  /** A dotted key under the name of the child being collected joins that
      child's map. */
  lemma ScanDottedSame(seen: map<string, TensorCell>, cn: string,
                       pending: map<string, TensorCell>, last: string,
                       entries: map<string, Entry>, k: string, v: TensorCell)
    requires ScanState(seen, true, cn, pending, last)
    requires Pending(entries, true, cn, pending) == Build(seen).entries
    requires HasDot(k) && First(k) == cn && forall j | j in seen :: Below(j, k)
    ensures ScanState(seen[k := v], true, cn, pending[ChildKey(k) := v], k)
    ensures Pending(entries, true, cn, pending[ChildKey(k) := v]) == Build(seen[k := v]).entries
  {
    assert ScanState(seen[k := v], true, cn, pending[ChildKey(k) := v], k) by {
      SubAdd(seen, k, v, cn);
    }
    assert Pending(entries, true, cn, pending[ChildKey(k) := v]) == Build(seen[k := v]).entries by {
      BuildAddDotted(seen, k, v);
      UpdateOverride(entries, cn, Child(Build(pending)), Child(Build(pending[ChildKey(k) := v])));
    }
  }

  /** A dotted key under a new name starts a new child, the child collected
      so far (if any) being complete: keys of one first segment are
      contiguous in sorted order, so no earlier key has this name. */
  lemma ScanDottedNew(seen: map<string, TensorCell>, hasChild: bool, cn: string,
                      pending: map<string, TensorCell>, last: string,
                      entries: map<string, Entry>, k: string, v: TensorCell)
    requires ScanState(seen, hasChild, cn, pending, last)
    requires Pending(entries, hasChild, cn, pending) == Build(seen).entries
    requires HasDot(k) && (!hasChild || First(k) != cn) && forall j | j in seen :: Below(j, k)
    ensures ScanState(seen[k := v], true, First(k), map[ChildKey(k) := v], k)
    ensures Pending(Pending(entries, hasChild, cn, pending), true, First(k), map[ChildKey(k) := v])
         == Build(seen[k := v]).entries
  {
    var f := First(k);
    KeyParts(k);
    assert Sub(seen, f) == map[] by {
      if j :| j in seen && HasDot(j) && First(j) == f {
        DottedPrefix(j);
        DottedPrefix(k);
        if j != last {
          PrefixBlock(f + ".", j, last, k);
          FirstOfPrefixed(f, last);
        }
      }
    }
    assert Sub(seen, f)[ChildKey(k) := v] == map[ChildKey(k) := v];
    assert ScanState(seen[k := v], true, f, map[ChildKey(k) := v], k) by {
      SubAdd(seen, k, v, f);
    }
    BuildAddDotted(seen, k, v);
  }

  /** The child collected so far has shorter keys than the whole map, so
      building it recursively terminates. */
  lemma PendingShorter(m: map<string, TensorCell>, seen: map<string, TensorCell>, last: string)
    requires seen.Keys <= m.Keys
    requires last in seen && HasDot(last)
    ensures MaxLen(Sub(seen, First(last)).Keys) < MaxLen(m.Keys)
  {
    var f := First(last);
    forall r | r in Sub(seen, f) ensures r in Sub(m, f) {
      var j :| j in seen && HasDot(j) && First(j) == f && ChildKey(j) == r;
      assert j in m;
    }
    SubShorter(m, f);
    MaxLenSubset(Sub(seen, f).Keys, Sub(m, f).Keys);
  }

  /** `seen` is the map restricted to its first `i` keys in ascending
      order, each below every key still to come. */
  ghost predicate SeenPrefix(m: map<string, TensorCell>, keys: seq<string>, i: nat, seen: map<string, TensorCell>)
  {
    && i <= |keys|
    && (forall p | 0 <= p < i :: keys[p] in seen)
    && forall k | k in seen :: k in m && seen[k] == m[k] && forall p | i <= p < |keys| :: Below(k, keys[p])
  }

  /** Taking the next key in order keeps the seen keys a prefix, and that
      key is above every key seen. */
  lemma SeenStep(m: map<string, TensorCell>, keys: seq<string>, i: nat, seen: map<string, TensorCell>)
    requires StrictlySorted(keys) && forall k :: k in keys <==> k in m
    requires SeenPrefix(m, keys, i, seen) && i < |keys|
    ensures seen.Keys <= m.Keys && forall j | j in seen :: Below(j, keys[i])
    ensures SeenPrefix(m, keys, i + 1, seen[keys[i] := m[keys[i]]])
  {
  }

  /** Once every key has been seen, the keys seen are the whole map. */
  lemma SeenAll(m: map<string, TensorCell>, keys: seq<string>, seen: map<string, TensorCell>)
    requires forall k :: k in keys <==> k in m
    requires SeenPrefix(m, keys, |keys|, seen)
    ensures seen == m
  {
    forall k | k in m ensures k in seen {
      var p :| 0 <= p < |keys| && keys[p] == k;
    }
  }
}
