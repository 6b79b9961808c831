/** What `load` does, stated on trees: which target cells receive the
    contents of which source cells. */
module Loading {
  import opened Tensors
  import opened Trees

  /** What `load` demands of its source: wherever the target has a child
      and the source has an entry of the same name, that entry is a child
      too, all the way down.  (A source leaf there makes the lookup of the
      source child fail, and the failure is unwrapped.) */
  ghost predicate LoadSafe(t: Tree, s: Tree)
    decreases t
  {
    forall k | k in s.entries && k in t.entries && t.entries[k].Child? ::
      s.entries[k].Child? && LoadSafe(t.entries[k].tree, s.entries[k].tree)
  }

  /** The (target cell, source cell) pairs `load` copies along: leaf under
      leaf of the same name, and recursively inside children of the same
      name.  Every other combination is skipped. */
  ghost function CopyPairs(t: Tree, s: Tree): set<(TensorCell, TensorCell)>
    decreases t, 1
  {
    CopyPairsUnder(t, s, s.entries.Keys)
  }

  /** The copy pairs contributed by the source entries named in `names`. */
  ghost function CopyPairsUnder(t: Tree, s: Tree, names: set<string>): set<(TensorCell, TensorCell)>
    decreases t, 0
  {
    (set k | k in names && k in s.entries && k in t.entries && t.entries[k].Leaf? && s.entries[k].Leaf?
       :: (t.entries[k].cell, s.entries[k].cell)) +
    (set k, pr | k in names && k in s.entries && k in t.entries && t.entries[k].Child? && s.entries[k].Child?
       && pr in CopyPairs(t.entries[k].tree, s.entries[k].tree) :: pr)
  }

  /** The copy pairs contributed by the single source entry `k`. */
  ghost function KeyPairs(t: Tree, s: Tree, k: string): set<(TensorCell, TensorCell)>
  {
    if k in s.entries && k in t.entries then
      match (t.entries[k], s.entries[k])
      case (Leaf(tc), Leaf(sc)) => {(tc, sc)}
      case (Child(tt), Child(st)) => CopyPairs(tt, st)
      case _ => {}
    else {}
  }

  /** The target cells written to. */
  ghost function Written(pairs: set<(TensorCell, TensorCell)>): set<TensorCell>
  {
    set pr {:trigger pr in pairs} | pr in pairs :: pr.0
  }

  /** The source cells read from. */
  ghost function Read(pairs: set<(TensorCell, TensorCell)>): set<TensorCell>
  {
    set pr {:trigger pr in pairs} | pr in pairs :: pr.1
  }

  /** A pair's target is written and its source is read. */
  lemma PairSides(pairs: set<(TensorCell, TensorCell)>, pr: (TensorCell, TensorCell))
    requires pr in pairs
    ensures pr.0 in Written(pairs) && pr.1 in Read(pairs)
  {
  }

  /** Fewer pairs write and read fewer cells. */
  lemma WrittenReadMono(a: set<(TensorCell, TensorCell)>, b: set<(TensorCell, TensorCell)>)
    requires a <= b
    ensures Written(a) <= Written(b) && Read(a) <= Read(b)
  {
    forall c | c in Written(a) ensures c in Written(b) {
      var pr :| pr in a && c == pr.0;
      PairSides(b, pr);
    }
    forall c | c in Read(a) ensures c in Read(b) {
      var pr :| pr in a && c == pr.1;
      PairSides(b, pr);
    }
  }

  /** The cells written by a union of pairs. */
  lemma WrittenUnion(a: set<(TensorCell, TensorCell)>, b: set<(TensorCell, TensorCell)>)
    ensures Written(a + b) == Written(a) + Written(b)
  {
    WrittenReadMono(a, a + b);
    WrittenReadMono(b, a + b);
  }

  /** One more source entry adds exactly its own pairs. */
  lemma CopyPairsUnderInsert(t: Tree, s: Tree, names: set<string>, k: string)
    ensures CopyPairsUnder(t, s, names + {k}) == CopyPairsUnder(t, s, names) + KeyPairs(t, s, k)
  {
  }

  /** The pairs of a source entry are among the pairs of the whole load. */
  lemma KeyPairsWithin(t: Tree, s: Tree, k: string)
    ensures KeyPairs(t, s, k) <= CopyPairs(t, s)
  {
    CopyPairsUnderInsert(t, s, s.entries.Keys - {k}, k);
    if k in s.entries {
      assert s.entries.Keys == (s.entries.Keys - {k}) + {k};
    }
  }

  /** `load` copies positionally: a target cell receives a source cell's
      contents exactly when both are leaves at the same path. */
  lemma {:induction false} CopyPairsPositional(t: Tree, s: Tree, tc: TensorCell, sc: TensorCell)
    ensures (tc, sc) in CopyPairs(t, s) <==> exists p :: (p, tc) in Leaves(t) && (p, sc) in Leaves(s)
    decreases t
  {
    if (tc, sc) in CopyPairs(t, s) {
      assert (tc, sc) in CopyPairsUnder(t, s, s.entries.Keys);
      if k :| (k in s.entries && k in t.entries && t.entries[k].Leaf? && s.entries[k].Leaf? &&
               (tc, sc) == (t.entries[k].cell, s.entries[k].cell)) {
        assert ([k], t.entries[k].cell) in LeavesUnder(t, t.entries.Keys);
        assert ([k], s.entries[k].cell) in LeavesUnder(s, s.entries.Keys);
      } else {
        var k :| k in s.entries && k in t.entries && t.entries[k].Child? && s.entries[k].Child?
          && (tc, sc) in CopyPairs(t.entries[k].tree, s.entries[k].tree);
        CopyPairsPositional(t.entries[k].tree, s.entries[k].tree, tc, sc);
        var q :| (q, tc) in Leaves(t.entries[k].tree) && (q, sc) in Leaves(s.entries[k].tree);
        assert ([k] + q, tc) in Leaves(t);
        assert ([k] + q, sc) in Leaves(s);
      }
    }
    if p :| (p, tc) in Leaves(t) && (p, sc) in Leaves(s) {
      LeafStep(t, (p, tc));
      LeafStep(s, (p, sc));
      var k := p[0];
      if t.entries[k].Child? {
        CopyPairsPositional(t.entries[k].tree, s.entries[k].tree, tc, sc);
        assert (tc, sc) in KeyPairs(t, s, k);
      } else {
        assert (tc, sc) in KeyPairs(t, s, k);
      }
      KeyPairsWithin(t, s, k);
    }
  }

  /** Only target leaves are written, and only source leaves are read. */
  lemma CopyPairsAreLeaves(t: Tree, s: Tree)
    ensures Written(CopyPairs(t, s)) <= Cells(t)
    ensures Read(CopyPairs(t, s)) <= Cells(s)
  {
    forall pr | pr in CopyPairs(t, s)
      ensures pr.0 in Cells(t) && pr.1 in Cells(s)
    {
      CopyPairsPositional(t, s, pr.0, pr.1);
      var p :| (p, pr.0) in Leaves(t) && (p, pr.1) in Leaves(s);
      assert pr.0 == (p, pr.0).1;
      assert pr.1 == (p, pr.1).1;
    }
  }

  /** A load into a child of the target, from the source's child of the same
      name, copies along a part of the whole load's pairs and keeps its
      safety condition. */
  lemma ChildLoad(t: Tree, s: Tree, k: string)
    requires LoadSafe(t, s)
    requires k in s.entries && k in t.entries && t.entries[k].Child?
    ensures s.entries[k].Child?
    ensures LoadSafe(t.entries[k].tree, s.entries[k].tree)
    ensures CopyPairs(t.entries[k].tree, s.entries[k].tree) <= CopyPairs(t, s)
  {
    KeyPairsWithin(t, s, k);
  }

  /* ---------------------------------------------------------------------
     The effect of a load on cell contents
     --------------------------------------------------------------------- */

  /** `after` is `before` with every target cell of `pairs` overwritten by
      the contents of one of its partners, `from[c]`, read from `src`; a
      copy keeps the target's own device and flag.  All other cells keep
      their contents. */
  ghost predicate CopiedAlong(pairs: set<(TensorCell, TensorCell)>, before: map<TensorCell, Tensor>,
                              after: map<TensorCell, Tensor>, src: map<TensorCell, Tensor>,
                              from: map<TensorCell, TensorCell>)
  {
    && after.Keys == before.Keys
    && from.Keys == Written(pairs)
    && from.Keys <= before.Keys
    && (forall c | c in from ::
          (c, from[c]) in pairs && from[c] in src && after[c] == CopyFrom(before[c], src[from[c]]))
    && (forall c | c in before && c !in from :: after[c] == before[c])
  }

  /** Copying along no pairs changes nothing. */
  lemma CopiedNothing(before: map<TensorCell, Tensor>, src: map<TensorCell, Tensor>)
    ensures CopiedAlong({}, before, before, src, map[])
  {
    assert Written({}) == {};
  }

  /** Copying along one more pair: the target's contents become a copy of
      the source's, whatever earlier copy it held. */
  lemma CopiedOneMore(pairs: set<(TensorCell, TensorCell)>, before: map<TensorCell, Tensor>,
                      after: map<TensorCell, Tensor>, src: map<TensorCell, Tensor>,
                      from: map<TensorCell, TensorCell>, tc: TensorCell, sc: TensorCell)
    requires CopiedAlong(pairs, before, after, src, from)
    requires tc in before && sc in src
    ensures CopiedAlong(pairs + {(tc, sc)}, before, after[tc := CopyFrom(after[tc], src[sc])], src, from[tc := sc])
  {
    WrittenUnion(pairs, {(tc, sc)});
    assert Written({(tc, sc)}) == {tc};
    if tc in from {
      CopyFromTwice(before[tc], src[from[tc]], src[sc]);
    }
  }

  /** One copy of `load`: the target cell `pr.0` takes the contents the
      source cell `pr.1` holds at that moment, keeping its own device and
      flag.  A copy between cells outside `m` changes nothing. */
  ghost function CopyStep(m: map<TensorCell, Tensor>, pr: (TensorCell, TensorCell)): map<TensorCell, Tensor>
  {
    if pr.0 in m && pr.1 in m then m[pr.0 := CopyFrom(m[pr.0], m[pr.1])] else m
  }

  /** The contents after the copies of `order`, made one after another:
      each copy reads its source cell as the copies before it left it. */
  ghost function Replay(m: map<TensorCell, Tensor>, order: seq<(TensorCell, TensorCell)>): (r: map<TensorCell, Tensor>)
    ensures r.Keys == m.Keys
    decreases |order|
  {
    if order == [] then m else CopyStep(Replay(m, order[..|order| - 1]), order[|order| - 1])
  }

  /** `order` lists `pairs`: each of its copies is one of the pairs, and
      every pair is copied along at least once. */
  ghost predicate Lists(order: seq<(TensorCell, TensorCell)>, pairs: set<(TensorCell, TensorCell)>)
  {
    && (forall i | 0 <= i < |order| :: order[i] in pairs)
    && (forall pr | pr in pairs :: pr in order)
  }

  /** The pairs an order copies along. */
  ghost function Elems(order: seq<(TensorCell, TensorCell)>): set<(TensorCell, TensorCell)>
  {
    set pr | pr in order
  }

  /** Making the copies of `a` and then those of `b` is making the copies
      of `a + b`. */
  lemma {:induction false} ReplayAppend(m: map<TensorCell, Tensor>, a: seq<(TensorCell, TensorCell)>, b: seq<(TensorCell, TensorCell)>)
    ensures Replay(m, a + b) == Replay(Replay(m, a), b)
    decreases |b|
  {
    if b == [] {
      assert a + b == a;
    } else {
      assert (a + b)[..|a + b| - 1] == a + b[..|b| - 1];
      assert (a + b)[|a + b| - 1] == b[|b| - 1];
      ReplayAppend(m, a, b[..|b| - 1]);
    }
  }

  /** When no cell is both written and read, the order of the copies does
      not matter: every target cell ends with a copy of one of its
      partners' original contents, whichever copy came last, and every
      other cell keeps its contents. */
  lemma {:induction false} ReplayDisjoint(pairs: set<(TensorCell, TensorCell)>, m: map<TensorCell, Tensor>,
                                          order: seq<(TensorCell, TensorCell)>) returns (from: map<TensorCell, TensorCell>)
    requires Written(pairs) !! Read(pairs)
    requires Written(pairs) + Read(pairs) <= m.Keys
    requires forall i | 0 <= i < |order| :: order[i] in pairs
    ensures CopiedAlong(Elems(order), m, Replay(m, order), m, from)
    decreases |order|
  {
    if order == [] {
      assert Elems(order) == {};
      CopiedNothing(m, m);
      from := map[];
    } else {
      var init, pr := order[..|order| - 1], order[|order| - 1];
      assert order == init + [pr];
      var from0 := ReplayDisjoint(pairs, m, init);
      var r0 := Replay(m, init);
      assert Elems(init) <= pairs && Elems(order) == Elems(init) + {pr};
      PairSides(pairs, pr);
      WrittenReadMono(Elems(init), pairs);
      assert pr.1 !in from0 && r0[pr.1] == m[pr.1];
      CopiedOneMore(Elems(init), m, r0, m, from0, pr.0, pr.1);
      from := from0[pr.0 := pr.1];
    }
  }

  /** An order that lists `pairs` copies along exactly those pairs. */
  lemma ListedElems(order: seq<(TensorCell, TensorCell)>, pairs: set<(TensorCell, TensorCell)>)
    requires Lists(order, pairs)
    ensures Elems(order) == pairs
  {
  }

  /** Orders for two groups of pairs, one after the other, list both. */
  lemma ListsAppend(a: seq<(TensorCell, TensorCell)>, p: set<(TensorCell, TensorCell)>,
                    b: seq<(TensorCell, TensorCell)>, q: set<(TensorCell, TensorCell)>)
    requires Lists(a, p) && Lists(b, q)
    ensures Lists(a + b, p + q)
  {
    forall i | 0 <= i < |a + b|
      ensures (a + b)[i] in p + q
    {
      if i >= |a| {
        assert (a + b)[i] == b[i - |a|];
      }
    }
  }

  /** One pass of `load`'s loop: the copies made for the source entry `key`,
      made after those for the entries visited before it, list the pairs of
      all the entries visited so far. */
  lemma LoadStep(t: Tree, s: Tree, done: set<string>, key: string,
                 order: seq<(TensorCell, TensorCell)>, more: seq<(TensorCell, TensorCell)>)
    requires Lists(order, CopyPairsUnder(t, s, done))
    requires Lists(more, KeyPairs(t, s, key))
    ensures Lists(order + more, CopyPairsUnder(t, s, done + {key}))
    ensures CopyPairsUnder(t, s, done + {key}) == CopyPairsUnder(t, s, done) + KeyPairs(t, s, key)
  {
    CopyPairsUnderInsert(t, s, done, key);
    ListsAppend(order, CopyPairsUnder(t, s, done), more, KeyPairs(t, s, key));
  }

  /** A load whose copies cross: the target `{a: c1, b: c2}` loaded from
      `{a: c2, b: c3}` writes `c2` and also reads it, and both orders of its
      two copies list its pairs. */
  lemma CrossingLoadPairs(c1: TensorCell, c2: TensorCell, c3: TensorCell)
    ensures var t, s := Tree(map["a" := Leaf(c1), "b" := Leaf(c2)]), Tree(map["a" := Leaf(c2), "b" := Leaf(c3)]);
            && CopyPairs(t, s) == {(c1, c2), (c2, c3)}
            && c2 in Written(CopyPairs(t, s)) && c2 in Read(CopyPairs(t, s))
            && Lists([(c1, c2), (c2, c3)], CopyPairs(t, s)) && Lists([(c2, c3), (c1, c2)], CopyPairs(t, s))
  {
    var t, s := Tree(map["a" := Leaf(c1), "b" := Leaf(c2)]), Tree(map["a" := Leaf(c2), "b" := Leaf(c3)]);
    assert s.entries.Keys == {"a", "b"};
    assert CopyPairs(t, s) == {(c1, c2), (c2, c3)};
    PairSides(CopyPairs(t, s), (c1, c2));
    PairSides(CopyPairs(t, s), (c2, c3));
  }

  /** The result of that crossing load depends on the visiting order:
      visiting `a` first leaves `c1` with the old contents of `c2`, visiting
      `b` first leaves it with those of `c3`. */
  lemma CrossingLoadDependsOnOrder(c1: TensorCell, c2: TensorCell, c3: TensorCell, m: map<TensorCell, Tensor>)
    requires c1 != c2 && c2 != c3 && c1 != c3
    requires c1 in m && c2 in m && c3 in m && m[c2].data != m[c3].data
    ensures Replay(m, [(c1, c2), (c2, c3)])[c1].data == m[c2].data
    ensures Replay(m, [(c2, c3), (c1, c2)])[c1].data == m[c3].data
  {
    var ab, ba := [(c1, c2), (c2, c3)], [(c2, c3), (c1, c2)];
    var a, b := [(c1, c2)], [(c2, c3)];
    assert a[..0] == [] && b[..0] == [];
    assert Replay(m, a) == CopyStep(m, (c1, c2));
    assert ab[..1] == a && Replay(m, ab) == CopyStep(CopyStep(m, (c1, c2)), (c2, c3));
    assert Replay(m, b) == CopyStep(m, (c2, c3));
    assert ba[..1] == b && Replay(m, ba) == CopyStep(CopyStep(m, (c2, c3)), (c1, c2));
  }
}
