/** The parameter store as a value: a tree whose entries map local names to
    leaves (shared tensor cells) or nested trees.  Everything the heap
    structure promises is stated against these definitions. */
module Trees {
  import opened Tensors
  import opened DottedKeys

  datatype Entry = Leaf(cell: TensorCell) | Child(tree: Tree)

  datatype Tree = Tree(entries: map<string, Entry>)

  /* ---------------------------------------------------------------------
     Leaves, flattening and enumeration
     --------------------------------------------------------------------- */

  /** Every leaf of the tree with the sequence of names that leads to it. */
  ghost function Leaves(t: Tree): set<(seq<string>, TensorCell)>
    decreases t, 1
  {
    LeavesUnder(t, t.entries.Keys)
  }

  /** The leaves reached through the entries named in `names`. */
  ghost function LeavesUnder(t: Tree, names: set<string>): set<(seq<string>, TensorCell)>
    decreases t, 0
  {
    (set k | k in names && k in t.entries && t.entries[k].Leaf? :: ([k], t.entries[k].cell)) +
    (set k, x {:trigger x in Leaves(t.entries[k].tree), k in names} | k in names && k in t.entries && t.entries[k].Child? && x in Leaves(t.entries[k].tree)
       :: ([k] + x.0, x.1))
  }

  /** The cells held by the leaves of the tree. */
  ghost function Cells(t: Tree): set<TensorCell>
  {
    set x {:trigger x in Leaves(t)} | x in Leaves(t) :: x.1
  }

  /** Leaves turned into flat-map pairs: the path joined with dots. */
  ghost function Flat(leaves: set<(seq<string>, TensorCell)>): set<(string, TensorCell)>
  {
    set x {:trigger x in leaves} | x in leaves :: (Join(x.0), x.1)
  }

  /** The pairs of a flat map. */
  ghost function Pairs(m: map<string, TensorCell>): set<(string, TensorCell)>
  {
    set k | k in m :: (k, m[k])
  }

  /** `r` holds one of the pairs for every key the pairs mention, and nothing
      else.  When two pairs share a key, either may be the one kept. */
  ghost predicate Realizes(r: map<string, TensorCell>, pairs: set<(string, TensorCell)>)
  {
    Within(r, pairs) && Covers(r, pairs)
  }

  /** Every entry of `r` is one of the pairs. */
  ghost predicate Within(r: map<string, TensorCell>, pairs: set<(string, TensorCell)>)
  {
    forall k | k in r :: (k, r[k]) in pairs
  }

  /** Every key the pairs mention is a key of `r`. */
  ghost predicate Covers(r: map<string, TensorCell>, pairs: set<(string, TensorCell)>)
  {
    forall p | p in pairs :: p.0 in r
  }

  /** `cells` lists every one of the leaves exactly once, `paths[i]` being
      the path of `cells[i]`. */
  ghost predicate Enumerates(leaves: set<(seq<string>, TensorCell)>, paths: seq<seq<string>>, cells: seq<TensorCell>)
  {
    && |paths| == |cells|
    && (forall i, j | 0 <= i < j < |paths| :: paths[i] != paths[j])
    && (forall i | 0 <= i < |paths| :: (paths[i], cells[i]) in leaves)
    && (forall x | x in leaves :: x.0 in paths)
  }

  /** No entry name anywhere in the tree contains a dot. */
  ghost predicate DotFree(t: Tree)
    decreases t
  {
    forall k | k in t.entries ::
      '.' !in k && (t.entries[k].Child? ==> DotFree(t.entries[k].tree))
  }

  /** The leaves of a child named `k`, as leaves of its parent. */
  ghost function Prefixed(k: string, leaves: set<(seq<string>, TensorCell)>): set<(seq<string>, TensorCell)>
  {
    set y {:trigger y in leaves} | y in leaves :: ([k] + y.0, y.1)
  }

  /** The leaves reached through one more entry. */
  ghost function EntryLeaves(t: Tree, k: string): set<(seq<string>, TensorCell)>
    requires k in t.entries
  {
    match t.entries[k]
    case Leaf(c) => {([k], c)}
    case Child(sub) => Prefixed(k, Leaves(sub))
  }

  /** Leaves added by one more entry. */
  lemma LeavesUnderInsert(t: Tree, names: set<string>, k: string)
    requires k in t.entries
    ensures LeavesUnder(t, names + {k}) == LeavesUnder(t, names) + EntryLeaves(t, k)
  {
  }

  /** Flat pairs added by one more entry. */
  lemma FlatUnderInsert(t: Tree, names: set<string>, k: string)
    requires k in t.entries
    ensures Flat(LeavesUnder(t, names + {k})) == Flat(LeavesUnder(t, names)) + Flat(EntryLeaves(t, k))
  {
    LeavesUnderInsert(t, names, k);
  }

  /** How a leaf is reached: through the entry named by the first name of
      its path, which is either that leaf itself or a child holding the
      rest of the path. */
  lemma {:induction false} LeafStep(t: Tree, x: (seq<string>, TensorCell))
    requires x in Leaves(t)
    ensures |x.0| >= 1 && x.0[0] in t.entries
    ensures t.entries[x.0[0]].Leaf? ==> x.0 == [x.0[0]] && x.1 == t.entries[x.0[0]].cell
    ensures t.entries[x.0[0]].Child? ==>
      |x.0| >= 2 && (x.0[1..], x.1) in Leaves(t.entries[x.0[0]].tree)
    decreases t
  {
    if x !in (set k | k in t.entries && t.entries[k].Leaf? :: ([k], t.entries[k].cell)) {
      var k, y :| k in t.entries && t.entries[k].Child? && y in Leaves(t.entries[k].tree)
        && x == ([k] + y.0, y.1);
      LeafStep(t.entries[k].tree, y);
      assert x.0[1..] == y.0;
    }
  }

  /** In a dot-free tree every leaf path is made of dot-free names. */
  lemma {:induction false} LeafPathShape(t: Tree, x: (seq<string>, TensorCell))
    requires x in Leaves(t)
    ensures |x.0| >= 1
    ensures DotFree(t) ==> DotFreeParts(x.0)
    decreases t
  {
    LeafStep(t, x);
    var k := x.0[0];
    if t.entries[k].Child? {
      LeafPathShape(t.entries[k].tree, (x.0[1..], x.1));
      assert x.0 == [k] + x.0[1..];
    }
  }

  /** A path leads to at most one leaf. */
  lemma {:induction false} LeavesFunctional(t: Tree, p: seq<string>, a: TensorCell, b: TensorCell)
    requires (p, a) in Leaves(t) && (p, b) in Leaves(t)
    ensures a == b
    decreases t
  {
    LeafStep(t, (p, a));
    LeafStep(t, (p, b));
    var k := p[0];
    if t.entries[k].Child? {
      LeavesFunctional(t.entries[k].tree, p[1..], a, b);
    }
  }

  /** In a dot-free tree distinct leaf paths join to distinct keys, so the
      flat pairs name each key once. */
  lemma FlatFunctional(t: Tree, k: string, a: TensorCell, b: TensorCell)
    requires DotFree(t)
    requires (k, a) in Flat(Leaves(t)) && (k, b) in Flat(Leaves(t))
    ensures a == b
  {
    var xa :| xa in Leaves(t) && (k, a) == (Join(xa.0), xa.1);
    var xb :| xb in Leaves(t) && (k, b) == (Join(xb.0), xb.1);
    LeafPathShape(t, xa);
    LeafPathShape(t, xb);
    SplitJoin(xa.0);
    SplitJoin(xb.0);
    LeavesFunctional(t, xa.0, a, b);
  }

  /** A flat pair of a child, re-prefixed with the child's name, is a flat
      pair of the parent. */
  lemma PrefixedIn(k: string, t: Tree, ck: string, c: TensorCell)
    requires (ck, c) in Flat(Leaves(t))
    ensures (k + "." + ck, c) in Flat(Prefixed(k, Leaves(t)))
  {
    var y :| y in Leaves(t) && (ck, c) == (Join(y.0), y.1);
    LeafPathShape(t, y);
    ChildFlat(k, y.0);
    assert ([k] + y.0, y.1) in Prefixed(k, Leaves(t));
  }

  /** Every flat pair of a re-prefixed child is one of the child's flat
      pairs with the name and a dot in front. */
  lemma PrefixedFrom(k: string, t: Tree, p: (string, TensorCell)) returns (ck: string)
    requires p in Flat(Prefixed(k, Leaves(t)))
    ensures p.0 == k + "." + ck && (ck, p.1) in Flat(Leaves(t))
  {
    var x :| x in Prefixed(k, Leaves(t)) && p == (Join(x.0), x.1);
    var y :| y in Leaves(t) && x == ([k] + y.0, y.1);
    LeafPathShape(t, y);
    ChildFlat(k, y.0);
    ck := Join(y.0);
  }

  /** `r` is `r0` with every entry of the child map `sub` stored under
      `k`, a dot and its key. */
  ghost predicate StoredPrefixed(r: map<string, TensorCell>, r0: map<string, TensorCell>, k: string, sub: map<string, TensorCell>)
  {
    && (forall x | x in r0 :: x in r)
    && (forall ck | ck in sub :: k + "." + ck in r && r[k + "." + ck] == sub[ck])
    && (forall x | x in r ::
          || (x in r0 && r[x] == r0[x])
          || (|k| + 1 <= |x| && x[..|k| + 1] == k + "." && x[|k| + 1..] in sub && r[x] == sub[x[|k| + 1..]]))
  }

  /** Storing a pair keeps a map realizing the pairs seen so far. */
  lemma RealizesStore(r: map<string, TensorCell>, pairs: set<(string, TensorCell)>, k: string, c: TensorCell)
    requires Realizes(r, pairs)
    ensures Realizes(r[k := c], pairs + {(k, c)})
  {
  }

  /** Storing a batch of re-prefixed pairs keeps a map realizing the pairs
      seen so far, when the batch is exactly the prefixed pairs. */
  lemma RealizesStorePrefixed(r0: map<string, TensorCell>, r: map<string, TensorCell>, pairs: set<(string, TensorCell)>,
                              k: string, sub: map<string, TensorCell>, added: set<(string, TensorCell)>)
    requires Realizes(r0, pairs)
    requires StoredPrefixed(r, r0, k, sub)
    requires forall ck | ck in sub :: (k + "." + ck, sub[ck]) in added
    requires forall q | q in added :: |k| + 1 <= |q.0| && q.0[..|k| + 1] == k + "." && q.0[|k| + 1..] in sub
    ensures Realizes(r, pairs + added)
  {
    forall x | x in r
      ensures (x, r[x]) in pairs + added
    {
      if !(x in r0 && r[x] == r0[x]) {
        var ck := x[|k| + 1..];
        assert x == k + "." + ck;
      }
    }
    forall q | q in added
      ensures q.0 in r
    {
      var ck := q.0[|k| + 1..];
      assert q.0 == k + "." + ck;
    }
  }

  /** Every key of a child's flat map, prefixed, is a flat pair of the
      re-prefixed child. */
  lemma PrefixedPairsIn(k: string, child: Tree, sub: map<string, TensorCell>)
    requires Within(sub, Flat(Leaves(child)))
    ensures forall ck | ck in sub :: (k + "." + ck, sub[ck]) in Flat(Prefixed(k, Leaves(child)))
  {
    forall ck | ck in sub
      ensures (k + "." + ck, sub[ck]) in Flat(Prefixed(k, Leaves(child)))
    {
      PrefixedIn(k, child, ck, sub[ck]);
    }
  }

  /** Every flat pair of a re-prefixed child is a key of the child's flat
      map with the name and a dot in front. */
  lemma PrefixedPairsFrom(k: string, child: Tree, sub: map<string, TensorCell>)
    requires Covers(sub, Flat(Leaves(child)))
    ensures forall q | q in Flat(Prefixed(k, Leaves(child))) ::
      |k| + 1 <= |q.0| && q.0[..|k| + 1] == k + "." && q.0[|k| + 1..] in sub
  {
    forall q | q in Flat(Prefixed(k, Leaves(child)))
      ensures |k| + 1 <= |q.0| && q.0[..|k| + 1] == k + "." && q.0[|k| + 1..] in sub
    {
      var ck := PrefixedFrom(k, child, q);
      assert q.0[|k| + 1..] == ck;
      assert (ck, q.1) in Flat(Leaves(child));
    }
  }

  /** One step of `to_map` on a leaf entry: storing the leaf keeps the map
      realizing the flat pairs of the entries visited so far. */
  lemma FlatStepLeaf(t: Tree, done: set<string>, k: string, r: map<string, TensorCell>)
    requires k in t.entries && t.entries[k].Leaf?
    requires Realizes(r, Flat(LeavesUnder(t, done)))
    ensures Realizes(r[k := t.entries[k].cell], Flat(LeavesUnder(t, done + {k})))
  {
    FlatUnderInsert(t, done, k);
    assert Flat(EntryLeaves(t, k)) == {(k, t.entries[k].cell)} by {
      assert Join([k]) == k;
    }
    RealizesStore(r, Flat(LeavesUnder(t, done)), k, t.entries[k].cell);
  }

  /** One step of `to_map` on a child entry: storing the child's flat map,
      re-prefixed, keeps the map realizing the flat pairs of the entries
      visited so far. */
  lemma FlatStepChild(t: Tree, done: set<string>, k: string, r: map<string, TensorCell>,
                      sub: map<string, TensorCell>, stored: map<string, TensorCell>)
    requires k in t.entries && t.entries[k].Child?
    requires Realizes(r, Flat(LeavesUnder(t, done)))
    requires Realizes(sub, Flat(Leaves(t.entries[k].tree)))
    requires StoredPrefixed(stored, r, k, sub)
    ensures Realizes(stored, Flat(LeavesUnder(t, done + {k})))
  {
    FlatUnderInsert(t, done, k);
    var child := t.entries[k].tree;
    assert Flat(EntryLeaves(t, k)) == Flat(Prefixed(k, Leaves(child)));
    PrefixedPairsIn(k, child, sub);
    PrefixedPairsFrom(k, child, sub);
    RealizesStorePrefixed(r, stored, Flat(LeavesUnder(t, done)), k, sub, Flat(Prefixed(k, Leaves(child))));
  }

  /** Every leaf reached through `names` has a path starting with one of
      them. */
  lemma LeavesUnderHead(t: Tree, names: set<string>, x: (seq<string>, TensorCell))
    requires x in LeavesUnder(t, names)
    ensures |x.0| >= 1 && x.0[0] in names
  {
    if !(exists k | k in names && k in t.entries && t.entries[k].Leaf? :: x == ([k], t.entries[k].cell)) {
      var k, y :| k in names && k in t.entries && t.entries[k].Child? && y in Leaves(t.entries[k].tree)
        && x == ([k] + y.0, y.1);
    }
  }

  /** The paths of a child's enumeration with the child's name in front. */
  ghost function PrefixPaths(k: string, paths: seq<seq<string>>): (r: seq<seq<string>>)
    ensures |r| == |paths|
    ensures forall i | 0 <= i < |paths| :: r[i] == [k] + paths[i]
  {
    seq(|paths|, i requires 0 <= i < |paths| => [k] + paths[i])
  }

  /** One step of `to_vec` on a leaf entry: pushing its cell extends an
      enumeration of the entries visited so far. */
  lemma EnumStepLeaf(t: Tree, done: set<string>, k: string, paths: seq<seq<string>>, cells: seq<TensorCell>)
    requires k in t.entries && t.entries[k].Leaf? && k !in done
    requires Enumerates(LeavesUnder(t, done), paths, cells)
    ensures Enumerates(LeavesUnder(t, done + {k}), paths + [[k]], cells + [t.entries[k].cell])
  {
    var c := t.entries[k].cell;
    var leaves := LeavesUnder(t, done);
    var paths', cells' := paths + [[k]], cells + [c];
    LeavesUnderInsert(t, done, k);
    assert EntryLeaves(t, k) == {([k], c)};
    assert forall i, j | 0 <= i < j < |paths'| :: paths'[i] != paths'[j] by {
      forall i, j | 0 <= i < j < |paths'|
        ensures paths'[i] != paths'[j]
      {
        if j == |paths| {
          LeavesUnderHead(t, done, (paths[i], cells[i]));
        } else {
          assert paths'[i] == paths[i] && paths'[j] == paths[j];
        }
      }
    }
    assert forall i | 0 <= i < |paths'| :: (paths'[i], cells'[i]) in leaves + {([k], c)} by {
      forall i | 0 <= i < |paths'|
        ensures (paths'[i], cells'[i]) in leaves + {([k], c)}
      {
        if i < |paths| {
          assert paths'[i] == paths[i] && cells'[i] == cells[i];
        }
      }
    }
    assert forall x | x in leaves + {([k], c)} :: x.0 in paths' by {
      forall x | x in leaves + {([k], c)}
        ensures x.0 in paths'
      {
        if x in leaves {
          var i :| 0 <= i < |paths| && paths[i] == x.0;
          assert paths'[i] == x.0;
        } else {
          assert x.0 == paths'[|paths|];
        }
      }
    }
  }

  /** Two enumerations with no path in common enumerate the union. */
  lemma EnumUnion(a: set<(seq<string>, TensorCell)>, pa: seq<seq<string>>, ca: seq<TensorCell>,
                  b: set<(seq<string>, TensorCell)>, pb: seq<seq<string>>, cb: seq<TensorCell>)
    requires Enumerates(a, pa, ca) && Enumerates(b, pb, cb)
    requires forall i, j | 0 <= i < |pa| && 0 <= j < |pb| :: pa[i] != pb[j]
    ensures Enumerates(a + b, pa + pb, ca + cb)
  {
    var p, c := pa + pb, ca + cb;
    forall i, j | 0 <= i < j < |p|
      ensures p[i] != p[j]
    {
      if i < |pa| && j >= |pa| {
        assert p[i] == pa[i] && p[j] == pb[j - |pa|];
      } else if i >= |pa| {
        assert p[i] == pb[i - |pa|] && p[j] == pb[j - |pa|];
      }
    }
    forall i | 0 <= i < |p|
      ensures (p[i], c[i]) in a + b
    {
      if i >= |pa| {
        assert (p[i], c[i]) == (pb[i - |pa|], cb[i - |pa|]);
      }
    }
    forall x | x in a + b
      ensures x.0 in p
    {
      if x !in a {
        var j :| 0 <= j < |pb| && pb[j] == x.0;
        assert p[|pa| + j] == x.0;
      }
    }
  }

  /** An enumeration of a child, its paths under the child's name, is an
      enumeration of the child's leaves as leaves of the parent. */
  lemma EnumPrefixed(k: string, leaves: set<(seq<string>, TensorCell)>, paths: seq<seq<string>>, cells: seq<TensorCell>)
    requires Enumerates(leaves, paths, cells)
    ensures Enumerates(Prefixed(k, leaves), PrefixPaths(k, paths), cells)
  {
    var p := PrefixPaths(k, paths);
    forall i, j | 0 <= i < j < |p|
      ensures p[i] != p[j]
    {
      assert paths[i] == p[i][1..] && paths[j] == p[j][1..];
    }
    forall i | 0 <= i < |p|
      ensures (p[i], cells[i]) in Prefixed(k, leaves)
    {
      assert (paths[i], cells[i]) in leaves;
    }
    forall x | x in Prefixed(k, leaves)
      ensures x.0 in p
    {
      var y :| y in leaves && x == ([k] + y.0, y.1);
      var j :| 0 <= j < |paths| && paths[j] == y.0;
      assert p[j] == x.0;
    }
  }

  /** One step of `to_vec` on a child entry: appending the child's own
      enumeration, its paths under the child's name, extends an enumeration
      of the entries visited so far. */
  lemma EnumStepChild(t: Tree, done: set<string>, k: string, paths: seq<seq<string>>, cells: seq<TensorCell>,
                      cpaths: seq<seq<string>>, ccells: seq<TensorCell>)
    requires k in t.entries && t.entries[k].Child? && k !in done
    requires Enumerates(LeavesUnder(t, done), paths, cells)
    requires Enumerates(Leaves(t.entries[k].tree), cpaths, ccells)
    ensures Enumerates(LeavesUnder(t, done + {k}), paths + PrefixPaths(k, cpaths), cells + ccells)
  {
    LeavesUnderInsert(t, done, k);
    EnumPrefixed(k, Leaves(t.entries[k].tree), cpaths, ccells);
    var added := PrefixPaths(k, cpaths);
    forall i, j | 0 <= i < |paths| && 0 <= j < |added|
      ensures paths[i] != added[j]
    {
      LeavesUnderHead(t, done, (paths[i], cells[i]));
      assert added[j][0] == k;
    }
    EnumUnion(LeavesUnder(t, done), paths, cells, EntryLeaves(t, k), added, ccells);
  }

  /** A map that realizes pairs naming each key once is determined by them. */
  lemma RealizesUnique(r1: map<string, TensorCell>, r2: map<string, TensorCell>, pairs: set<(string, TensorCell)>)
    requires Realizes(r1, pairs) && Realizes(r2, pairs)
    requires forall k, a, b | (k, a) in pairs && (k, b) in pairs :: a == b
    ensures r1 == r2
  {
    assert r1.Keys == r2.Keys by {
      forall k | k in r1 ensures k in r2 {
        assert (k, r1[k]) in pairs;
      }
      forall k | k in r2 ensures k in r1 {
        assert (k, r2[k]) in pairs;
      }
    }
  }

  /** A map realizing the pairs of `m` is `m`. */
  lemma RealizesPairs(r: map<string, TensorCell>, m: map<string, TensorCell>)
    requires Realizes(r, Pairs(m))
    ensures r == m
  {
    forall k | k in m ensures k in r {
      assert (k, m[k]) in Pairs(m);
    }
  }

  /** A map realizing the flattened pairs of the tree built from `m` is `m`
      only when those pairs are the pairs of `m`. */
  lemma RealizedBuild(r: map<string, TensorCell>, m: map<string, TensorCell>)
    requires Realizes(r, Flat(Leaves(Build(m))))
    ensures r == m ==> Flat(Leaves(Build(m))) == Pairs(m)
  {
    BuildFlatWithin(m);
    if r == m {
      forall p | p in Pairs(m)
        ensures p in Flat(Leaves(Build(m)))
      {
        var k :| k in m && p == (k, m[k]);
      }
    }
  }

  /** Distinct paths of a sequence make a set of the same size. */
  lemma {:induction false} DistinctCard(paths: seq<seq<string>>)
    requires forall i, j | 0 <= i < j < |paths| :: paths[i] != paths[j]
    ensures |set p | p in paths| == |paths|
    decreases |paths|
  {
    if |paths| > 0 {
      var init := paths[..|paths| - 1];
      DistinctCard(init);
      assert (set p | p in paths) == (set p | p in init) + {paths[|paths| - 1]};
      assert paths[|paths| - 1] !in (set p | p in init);
    }
  }

  /** The keys the paths join to. */
  ghost function Joined(paths: set<seq<string>>): set<string>
  {
    set p | p in paths :: Join(p)
  }

  /** Joining is one-to-one on a set of non-empty dot-free paths, so the
      joined keys are as many as the paths. */
  lemma {:induction false} JoinImageCard(paths: set<seq<string>>)
    requires forall p | p in paths :: |p| >= 1 && DotFreeParts(p)
    ensures |Joined(paths)| == |paths|
    decreases paths
  {
    if paths != {} {
      var p :| p in paths;
      var rest := paths - {p};
      JoinImageCard(rest);
      if Join(p) in Joined(rest) {
        var q :| q in rest && Join(q) == Join(p);
        SplitJoin(p);
        SplitJoin(q);
        assert false;
      }
      assert Joined(paths) == Joined(rest) + {Join(p)} by {
        forall k | k in Joined(paths) ensures k in Joined(rest) + {Join(p)} {
          var q :| q in paths && Join(q) == k;
          if q != p {
            assert q in rest;
          }
        }
      }
    }
  }

  /** The paths of the leaves. */
  ghost function LeafPaths(t: Tree): set<seq<string>>
  {
    set x {:trigger x in Leaves(t)} | x in Leaves(t) :: x.0
  }

  /** An enumeration lists every leaf path once. */
  lemma EnumeratedPaths(t: Tree, paths: seq<seq<string>>, cells: seq<TensorCell>)
    requires Enumerates(Leaves(t), paths, cells)
    ensures |LeafPaths(t)| == |cells|
  {
    assert LeafPaths(t) == set p | p in paths by {
      forall i | 0 <= i < |paths| ensures paths[i] in LeafPaths(t) {
        assert (paths[i], cells[i]) in Leaves(t);
      }
    }
    DistinctCard(paths);
  }

  /** The cells listed by an enumeration of a tree's leaves are exactly the
      tree's cells. */
  lemma EnumeratedCells(t: Tree, paths: seq<seq<string>>, cells: seq<TensorCell>)
    requires Enumerates(Leaves(t), paths, cells)
    ensures forall c :: c in cells <==> c in Cells(t)
  {
    forall c | c in cells
      ensures c in Cells(t)
    {
      var i :| 0 <= i < |cells| && cells[i] == c;
      assert (paths[i], cells[i]) in Leaves(t);
    }
    forall c | c in Cells(t)
      ensures c in cells
    {
      var x :| x in Leaves(t) && x.1 == c;
      var i :| 0 <= i < |paths| && paths[i] == x.0;
      assert (paths[i], cells[i]) in Leaves(t);
      LeavesFunctional(t, x.0, x.1, cells[i]);
    }
  }

  /** The keys of a realization of the flat pairs are the joined leaf paths. */
  lemma RealizedKeys(t: Tree, r: map<string, TensorCell>)
    requires Realizes(r, Flat(Leaves(t)))
    ensures r.Keys == Joined(LeafPaths(t))
  {
    forall k | k in r ensures k in Joined(LeafPaths(t)) {
      assert (k, r[k]) in Flat(Leaves(t));
      var x :| x in Leaves(t) && (k, r[k]) == (Join(x.0), x.1);
      assert x.0 in LeafPaths(t);
    }
    forall k | k in Joined(LeafPaths(t)) ensures k in r {
      var p :| p in LeafPaths(t) && Join(p) == k;
      var x :| x in Leaves(t) && x.0 == p;
      assert (Join(x.0), x.1) in Flat(Leaves(t));
    }
  }

  /** In a dot-free tree, the flat map has as many keys as the enumeration
      has cells: `to_map` and `to_vec` agree on the number of leaves. */
  lemma FlatAndEnumerationAgree(t: Tree, r: map<string, TensorCell>, paths: seq<seq<string>>, cells: seq<TensorCell>)
    requires DotFree(t)
    requires Realizes(r, Flat(Leaves(t)))
    requires Enumerates(Leaves(t), paths, cells)
    ensures |r| == |cells|
  {
    EnumeratedPaths(t, paths, cells);
    forall p | p in LeafPaths(t) ensures |p| >= 1 && DotFreeParts(p) {
      var x :| x in Leaves(t) && x.0 == p;
      LeafPathShape(t, x);
    }
    JoinImageCard(LeafPaths(t));
    RealizedKeys(t, r);
    assert |r| == |r.Keys|;
  }

  /* ---------------------------------------------------------------------
     Building a tree from a flat map of dotted keys
     --------------------------------------------------------------------- */

  /** The first segments of the keys. */
  ghost function Heads(m: map<string, TensorCell>): set<string>
  {
    set k | k in m :: First(k)
  }

  /** The first segments of the keys that have more than one segment. */
  ghost function DottedHeads(m: map<string, TensorCell>): set<string>
  {
    set k | k in m && HasDot(k) :: First(k)
  }

  /** The flat map a child named `f` receives: every dotted key whose first
      segment is `f`, with that segment removed. */
  ghost function Sub(m: map<string, TensorCell>, f: string): (sub: map<string, TensorCell>)
  {
    SubWellDefined(m, f);
    map k | k in m && HasDot(k) && First(k) == f :: ChildKey(k) := m[k]
  }

  lemma SubWellDefined(m: map<string, TensorCell>, f: string)
    ensures forall a, b | a in m && HasDot(a) && First(a) == f && b in m && HasDot(b) && First(b) == f
      && ChildKey(a) == ChildKey(b) :: a == b
  {
    forall a, b | a in m && HasDot(a) && First(a) == f && b in m && HasDot(b) && First(b) == f
      && ChildKey(a) == ChildKey(b)
      ensures a == b
    {
      ChildKeyInjective(a, b);
    }
  }

  /** The key `f.r` is in `m` exactly when `r` is in the child map of `f`,
      with the same cell. */
  lemma SubLookup(m: map<string, TensorCell>, f: string, r: string)
    requires '.' !in f
    ensures r in Sub(m, f) <==> f + "." + r in m
    ensures r in Sub(m, f) ==> Sub(m, f)[r] == m[f + "." + r]
  {
    SegmentDot(f, r);
    if r in Sub(m, f) {
      var k :| k in m && HasDot(k) && First(k) == f && ChildKey(k) == r;
      KeyParts(k);
      assert k == f + "." + r;
      SubWellDefined(m, f);
    }
  }

  /** A child map has strictly shorter keys than the map it comes from. */
  lemma SubShorter(m: map<string, TensorCell>, f: string)
    requires f in DottedHeads(m)
    ensures MaxLen(Sub(m, f).Keys) < MaxLen(m.Keys)
  {
    var k :| k in m && HasDot(k) && First(k) == f;
    assert ChildKey(k) in Sub(m, f);
    var sub := Sub(m, f);
    var r :| r in sub.Keys && |r| == MaxLen(sub.Keys);
    var k' :| k' in m && HasDot(k') && First(k') == f && ChildKey(k') == r;
    KeyParts(k');
  }

  /** A first segment that heads no dotted key is itself a key. */
  lemma UndottedHead(m: map<string, TensorCell>, f: string)
    requires f in Heads(m) && f !in DottedHeads(m)
    ensures f in m
  {
    var k :| k in m && First(k) == f;
    KeyParts(k);
  }

  /** What `from_map` builds: one entry per first segment.  A first segment
      that heads a dotted key becomes a child built from its child map (it
      wins over a leaf of the same name); any other is a leaf holding the
      key's own cell. */
  ghost function Build(m: map<string, TensorCell>): Tree
    decreases MaxLen(m.Keys), 1
  {
    Tree(map f | f in Heads(m) :: BuildEntry(m, f))
  }

  ghost function BuildEntry(m: map<string, TensorCell>, f: string): Entry
    requires f in Heads(m)
    decreases MaxLen(m.Keys), 0
  {
    if f in DottedHeads(m) then
      SubShorter(m, f);
      Child(Build(Sub(m, f)))
    else
      UndottedHead(m, f);
      Leaf(m[f])
  }

  /** No key is a segment-prefix of another (`a` and `a.b` never both). */
  ghost predicate PrefixFree(m: map<string, TensorCell>)
  {
    forall a, b | a in m && b in m :: !SegmentPrefix(a, b)
  }

  /** Every name in a built tree is a first segment, hence dot-free. */
  lemma {:induction false} BuildDotFree(m: map<string, TensorCell>)
    ensures DotFree(Build(m))
    decreases MaxLen(m.Keys)
  {
    forall f | f in Build(m).entries
      ensures '.' !in f
      ensures Build(m).entries[f].Child? ==> DotFree(Build(m).entries[f].tree)
    {
      var k :| k in m && First(k) == f;
      KeyParts(k);
      if f in DottedHeads(m) {
        SubShorter(m, f);
        BuildDotFree(Sub(m, f));
      }
    }
  }

  /** Child maps of a prefix-free map are prefix-free. */
  lemma SubPrefixFree(m: map<string, TensorCell>, f: string)
    requires PrefixFree(m) && '.' !in f
    ensures PrefixFree(Sub(m, f))
  {
    forall a, b | a in Sub(m, f) && b in Sub(m, f)
      ensures !SegmentPrefix(a, b)
    {
      SubLookup(m, f, a);
      SubLookup(m, f, b);
      if SegmentPrefix(a, b) {
        var fa, fb := f + "." + a, f + "." + b;
        assert fb[..|fa|] == f + "." + b[..|a|];
        assert fb[|fa|] == b[|a|];
        assert SegmentPrefix(fa, fb);
        assert false;
      }
    }
  }

  /** The pairs of a child's leaves, re-prefixed with its name. */
  lemma ChildFlat(f: string, q: seq<string>)
    requires |q| >= 1
    ensures Join([f] + q) == f + "." + Join(q)
  {
    assert ([f] + q)[1..] == q;
  }

  /** Where a flattened pair of a built tree comes from: a key without a
      dot is an undotted key of the map with its own cell; a dotted key
      comes, without its first segment, from the child built for that
      segment. */
  lemma FlatOfBuild(m: map<string, TensorCell>, p: (string, TensorCell))
    requires p in Flat(Leaves(Build(m)))
    ensures !HasDot(p.0) ==> p.0 in m && p.0 !in DottedHeads(m) && p.1 == m[p.0]
    ensures HasDot(p.0) ==> First(p.0) in DottedHeads(m)
    ensures HasDot(p.0) ==> (ChildKey(p.0), p.1) in Flat(Leaves(Build(Sub(m, First(p.0)))))
  {
    var t := Build(m);
    var x :| x in Leaves(t) && p == (Join(x.0), x.1);
    LeafStep(t, x);
    var g := x.0[0];
    var gk :| gk in m && First(gk) == g;
    KeyParts(gk);
    if t.entries[g].Leaf? {
      assert p.0 == g;
      SplitDotFree(g);
      UndottedHead(m, g);
    } else {
      var y := (x.0[1..], x.1);
      assert x.0 == [g] + y.0;
      LeafPathShape(Build(Sub(m, g)), y);
      ChildFlat(g, y.0);
      SegmentDot(g, Join(y.0));
      assert (Join(y.0), y.1) in Flat(Leaves(Build(Sub(m, g))));
    }
  }

  /** Flattening a built tree gives back every pair of a prefix-free map. */
  lemma {:induction false} BuildFlatContains(m: map<string, TensorCell>)
    requires PrefixFree(m)
    ensures Pairs(m) <= Flat(Leaves(Build(m)))
    decreases MaxLen(m.Keys), 1
  {
    forall k | k in m
      ensures (k, m[k]) in Flat(Leaves(Build(m)))
    {
      KeyParts(k);
      if HasDot(k) {
        BuildFlatDotted(m, k);
      } else {
        BuildFlatUndotted(m, k);
      }
    }
  }

  /** An undotted key of a prefix-free map is a leaf of the built tree. */
  lemma {:induction false} BuildFlatUndotted(m: map<string, TensorCell>, k: string)
    requires PrefixFree(m) && k in m && !HasDot(k)
    ensures (k, m[k]) in Flat(Leaves(Build(m)))
  {
    var t := Build(m);
    var f := First(k);
    KeyParts(k);
    assert f in Heads(m);
    if k in DottedHeads(m) {
      var b :| b in m && HasDot(b) && First(b) == k;
      FirstSegmentPrefix(b);
      assert false;
    }
    assert t.entries[f] == BuildEntry(m, f) == Leaf(m[k]);
    assert ([k], m[k]) in Leaves(t);
    assert Join([k]) == k;
  }

  /** A dotted key of a prefix-free map is found, without its first
      segment, in the child built for that segment. */
  lemma {:induction false} BuildFlatDotted(m: map<string, TensorCell>, k: string)
    requires PrefixFree(m) && k in m && HasDot(k)
    ensures (k, m[k]) in Flat(Leaves(Build(m)))
    decreases MaxLen(m.Keys), 0
  {
    var t := Build(m);
    var f := First(k);
    KeyParts(k);
    assert f in Heads(m) && f in DottedHeads(m);
    SubShorter(m, f);
    SubPrefixFree(m, f);
    var sub := Sub(m, f);
    var r := ChildKey(k);
    SubLookup(m, f, r);
    BuildFlatContains(sub);
    assert (r, m[k]) in Pairs(sub);
    var y :| y in Leaves(Build(sub)) && (r, m[k]) == (Join(y.0), y.1);
    LeafPathShape(Build(sub), y);
    assert t.entries[f] == BuildEntry(m, f) == Child(Build(sub));
    assert ([f] + y.0, y.1) in Leaves(t);
    ChildFlat(f, y.0);
  }

  /** Every pair of a flattened built tree is a pair of the map, whatever
      the map. */
  lemma {:induction false} BuildFlatWithin(m: map<string, TensorCell>)
    ensures Flat(Leaves(Build(m))) <= Pairs(m)
    decreases MaxLen(m.Keys)
  {
    forall p | p in Flat(Leaves(Build(m)))
      ensures p in Pairs(m)
    {
      FlatOfBuild(m, p);
      if HasDot(p.0) {
        var f := First(p.0);
        SubShorter(m, f);
        BuildFlatWithin(Sub(m, f));
        KeyParts(p.0);
        SubLookup(m, f, ChildKey(p.0));
      }
    }
  }

  /** A dotted segment-prefix pair stays one inside the child map of its
      first segment. */
  lemma SubKeepsPrefix(m: map<string, TensorCell>, a: string, b: string)
    requires a in m && b in m && SegmentPrefix(a, b) && HasDot(a)
    ensures ChildKey(a) in Sub(m, First(a))
    ensures ChildKey(a) + "." + b[|a| + 1..] in Sub(m, First(a))
    ensures SegmentPrefix(ChildKey(a), ChildKey(a) + "." + b[|a| + 1..])
  {
    SegmentPrefixParts(a, b);
    var s := b[|a| + 1..];
    var f := First(a);
    KeyParts(a);
    var a' := ChildKey(a);
    var b' := a' + "." + s;
    assert b == f + "." + b';
    SubLookup(m, f, a');
    SubLookup(m, f, b');
    assert b'[..|a'|] == a';
  }

  /** A key that is a segment-prefix of another key is lost: no flattened
      pair of the built tree carries it. */
  lemma {:induction false} BuildLosesPrefix(m: map<string, TensorCell>, a: string, b: string)
    requires a in m && b in m && SegmentPrefix(a, b)
    ensures forall p | p in Flat(Leaves(Build(m))) :: p.0 != a
    decreases MaxLen(m.Keys)
  {
    forall p | p in Flat(Leaves(Build(m)))
      ensures p.0 != a
    {
      if p.0 == a {
        FlatOfBuild(m, p);
        if HasDot(a) {
          // `a` is `f.a'` and `b` is `f.a'.s`: the child map of `f` holds
          // `a'` and its extension, and loses `a'`.
          var f := First(a);
          SubKeepsPrefix(m, a, b);
          SubShorter(m, f);
          BuildLosesPrefix(Sub(m, f), ChildKey(a), ChildKey(a) + "." + b[|a| + 1..]);
        } else {
          // `b` is `a.s`, so `a` heads a dotted key and is not a leaf.
          HasDotIff(a);
          SegmentPrefixParts(a, b);
          SegmentDot(a, b[|a| + 1..]);
        }
      }
    }
  }

  /** Round trip: flattening the tree built from `m` gives back exactly the
      pairs of `m` if and only if no key of `m` is a segment-prefix of
      another. */
  lemma RoundTrip(m: map<string, TensorCell>)
    ensures Flat(Leaves(Build(m))) == Pairs(m) <==> PrefixFree(m)
  {
    BuildFlatWithin(m);
    if PrefixFree(m) {
      BuildFlatContains(m);
    } else {
      var a, b :| a in m && b in m && SegmentPrefix(a, b);
      BuildLosesPrefix(m, a, b);
      assert (a, m[a]) in Pairs(m);
    }
  }

  /* ---------------------------------------------------------------------
     Building one key at a time, in the order `from_map` visits the keys
     --------------------------------------------------------------------- */

  /** Adding a key changes only the child map of that key's first segment,
      and only when the key is dotted. */
  lemma SubAdd(m: map<string, TensorCell>, k: string, v: TensorCell, g: string)
    ensures HasDot(k) && First(k) == g ==> Sub(m[k := v], g) == Sub(m, g)[ChildKey(k) := v]
    ensures !(HasDot(k) && First(k) == g) ==> Sub(m[k := v], g) == Sub(m, g)
  {
    if HasDot(k) && First(k) == g {
      SubAddSame(m, k, v);
    } else {
      SubAddOther(m, k, v, g);
    }
  }

  /** A dotted key joins the child map of its own first segment. */
  lemma SubAddSame(m: map<string, TensorCell>, k: string, v: TensorCell)
    requires HasDot(k)
    ensures Sub(m[k := v], First(k)) == Sub(m, First(k))[ChildKey(k) := v]
  {
    var g, m' := First(k), m[k := v];
    var after, before := Sub(m', g), Sub(m, g);
    KeyParts(k);
    forall r
      ensures r in after <==> r in before || r == ChildKey(k)
      ensures r in after ==> after[r] == if r == ChildKey(k) then v else before[r]
    {
      SubLookup(m, g, r);
      SubLookup(m', g, r);
      assert (g + "." + r)[|g| + 1..] == r;
    }
    UpdatedMap(after, before, ChildKey(k), v);
  }

  /** A key outside the segment `g` leaves its child map alone. */
  lemma SubAddOther(m: map<string, TensorCell>, k: string, v: TensorCell, g: string)
    requires !(HasDot(k) && First(k) == g)
    ensures Sub(m[k := v], g) == Sub(m, g)
  {
    var m' := m[k := v];
    var after, before := Sub(m', g), Sub(m, g);
    forall r | r in after
      ensures r in before && after[r] == before[r]
    {
      var a :| a in m' && HasDot(a) && First(a) == g && ChildKey(a) == r;
      assert a != k && a in m;
    }
    forall r | r in before
      ensures r in after
    {
      var a :| a in m && HasDot(a) && First(a) == g && ChildKey(a) == r;
      assert a != k && a in m';
    }
  }

  /** A key without a dot, whose name heads no dotted key seen so far, adds
      a leaf under its own name and changes nothing else. */
  lemma BuildAddLeaf(m: map<string, TensorCell>, k: string, v: TensorCell)
    requires !HasDot(k) && k !in DottedHeads(m)
    ensures Build(m[k := v]).entries == Build(m).entries[k := Leaf(v)]
  {
    var m' := m[k := v];
    var built := Build(m').entries;
    var expected := Build(m).entries[k := Leaf(v)];
    KeyParts(k);
    HeadsAdd(m, k, v);
    assert built.Keys == expected.Keys;
    forall g | g in built
      ensures built[g] == expected[g]
    {
      assert built[g] == BuildEntry(m', g);
      if g != k {
        assert g in Heads(m) && expected[g] == BuildEntry(m, g);
        SubAdd(m, k, v, g);
      } else {
        assert k !in DottedHeads(m');
      }
    }
  }

  /** Adding a key adds its first segment to the heads, and to the dotted
      heads when it is dotted. */
  lemma HeadsAdd(m: map<string, TensorCell>, k: string, v: TensorCell)
    ensures Heads(m[k := v]) == Heads(m) + {First(k)}
    ensures HasDot(k) ==> DottedHeads(m[k := v]) == DottedHeads(m) + {First(k)}
    ensures !HasDot(k) ==> DottedHeads(m[k := v]) == DottedHeads(m)
  {
  }

  /** The entry of a first segment other than the added dotted key's is
      built as before. */
  lemma BuildEntryAddOther(m: map<string, TensorCell>, k: string, v: TensorCell, g: string)
    requires HasDot(k) && g in Heads(m) && g != First(k)
    ensures g in Heads(m[k := v])
    ensures BuildEntry(m[k := v], g) == BuildEntry(m, g)
  {
    HeadsAdd(m, k, v);
    var gk :| gk in m && First(gk) == g;
    KeyParts(gk);
    HasDotIff(k);
    assert g != k;
    SubAdd(m, k, v, g);
  }

  /** A dotted key replaces the entry of its first segment by the child
      built from that segment's child map extended by the key's child key;
      every other entry is unchanged. */
  lemma BuildAddDotted(m: map<string, TensorCell>, k: string, v: TensorCell)
    requires HasDot(k)
    ensures Build(m[k := v]).entries ==
      Build(m).entries[First(k) := Child(Build(Sub(m, First(k))[ChildKey(k) := v]))]
  {
    var m' := m[k := v];
    var f := First(k);
    HeadsAdd(m, k, v);
    BuildKeys(m);
    BuildKeys(m');
    BuildAt(m', f);
    SubAdd(m, k, v, f);
    assert Build(m').entries[f] == Child(Build(Sub(m, f)[ChildKey(k) := v])) by {
      BuildEntryDotted(m', f);
    }
    forall g | g in Build(m).entries && g != f
      ensures g in Build(m').entries && Build(m').entries[g] == Build(m).entries[g]
    {
      BuildAt(m, g);
      BuildEntryAddOther(m, k, v, g);
      BuildAt(m', g);
    }
    UpdatedMap(Build(m').entries, Build(m).entries, f, Child(Build(Sub(m, f)[ChildKey(k) := v])));
  }

  /** The entries of a built tree are named by the heads, each built by
      `BuildEntry`. */
  lemma BuildAt(m: map<string, TensorCell>, f: string)
    ensures f in Build(m).entries <==> f in Heads(m)
    ensures f in Heads(m) ==> Build(m).entries[f] == BuildEntry(m, f)
  {
  }

  /** The names of a built tree's entries are the heads. */
  lemma BuildKeys(m: map<string, TensorCell>)
    ensures Build(m).entries.Keys == Heads(m)
  {
  }

  /** A dotted head is built as a child from its child map. */
  lemma BuildEntryDotted(m: map<string, TensorCell>, f: string)
    requires f in DottedHeads(m)
    ensures f in Heads(m) && BuildEntry(m, f) == Child(Build(Sub(m, f)))
  {
  }

  /** Updates of two different keys commute. */
  lemma UpdatesCommute<K, V>(m: map<K, V>, a: K, x: V, b: K, y: V)
    requires a != b
    ensures m[a := x][b := y] == m[b := y][a := x]
  {
  }

  /** A second update of a key overrides the first. */
  lemma UpdateOverride<K, V>(m: map<K, V>, a: K, x: V, y: V)
    ensures m[a := x][a := y] == m[a := y]
  {
  }

  /** A map that agrees with `b` off `f`, has `f` bound to `e`, and no
      other key, is `b[f := e]`. */
  lemma UpdatedMap<K, V>(a: map<K, V>, b: map<K, V>, f: K, e: V)
    requires a.Keys == b.Keys + {f} && a[f] == e
    requires forall g | g in b && g != f :: a[g] == b[g]
    ensures a == b[f := e]
  {
  }
}
