/** The hierarchical parameter store: `StateDict` nodes on the heap, each
    mapping local names to shared tensor cells or to child nodes, with a
    back-link to the parent and the node's own name. */
module StateDicts {
  import opened Tensors
  import opened DottedKeys
  import opened KeyOrder
  import opened Trees
  import opened Loading
  import opened Building

  /** An entry of a node: a shared tensor cell or a child node. */
  datatype StateValue = Tensor(cell: TensorCell) | ChildStateDict(dict: StateDict)

  /** The errors of the two lookups; each names the key and the path of the
      node looked in. */
  datatype Error = NoSuchParameter(key: string, path: string) | NoSuchModule(name: string, path: string)

  datatype Result<T> = Ok(value: T) | Err(error: Error)

  /** The path of a node whose ancestors, from the root down, have the names
      `names`: `"root"` followed by `"." + name` per level. */
  function PathOf(names: seq<string>): (p: string)
    ensures |p| >= 4 && p[..4] == "root"
    decreases |names|
  {
    if names == [] then "root" else PathOf(names[..|names| - 1]) + "." + names[|names| - 1]
  }

  /** A path is `"root"` and the names, joined with dots. */
  lemma {:induction false} PathOfJoin(names: seq<string>)
    ensures PathOf(names) == Join(["root"] + names)
    decreases |names|
  {
    if names != [] {
      var init := names[..|names| - 1];
      PathOfJoin(init);
      JoinSnoc(["root"] + init, names[|names| - 1]);
      assert ["root"] + init + [names[|names| - 1]] == ["root"] + names;
    }
  }

  /** With dot-free names, the path splits back into `"root"` and the
      names: different name chains give different paths. */
  lemma PathOfSplit(names: seq<string>)
    requires DotFreeParts(names)
    ensures Split(PathOf(names)) == ["root"] + names
  {
    PathOfJoin(names);
    assert DotFreeParts(["root"] + names) by {
      forall i | 0 <= i < |["root"] + names|
        ensures '.' !in (["root"] + names)[i]
      {
        if i > 0 {
          assert (["root"] + names)[i] == names[i - 1];
        }
      }
    }
    SplitJoin(["root"] + names);
  }

  /** Two nodes reached through different chains of dot-free names have
      different paths, so error messages tell them apart. */
  lemma PathOfInjective(a: seq<string>, b: seq<string>)
    requires DotFreeParts(a) && DotFreeParts(b)
    ensures PathOf(a) == PathOf(b) <==> a == b
  {
    if PathOf(a) == PathOf(b) {
      PathOfSplit(a);
      PathOfSplit(b);
      assert a == (["root"] + a)[1..];
      assert b == (["root"] + b)[1..];
    }
  }

  /** As written, `append_child` only sets the child's back-link, so every
      node keeps the empty name `new` gave it and its path is `"root"`
      followed by one dot per level, whatever the keys it sits under. */
  function PathAsWritten(names: seq<string>): (p: string)
    ensures |p| == 4 + |names|
    ensures p[..4] == "root" && forall i | 4 <= i < |p| :: p[i] == '.'
    decreases |names|
  {
    if names == [] then "root" else PathAsWritten(names[..|names| - 1]) + "." + ""
  }

  /** As written, the children `"a"` and `"b"` of the root both report the
      path `"root."`, while the paths with the names recorded differ. */
  lemma AsWrittenPathsCollide()
    ensures PathAsWritten(["a"]) == PathAsWritten(["b"]) == "root."
    ensures PathOf(["a"]) == "root.a" != PathOf(["b"]) == "root.b"
  {
    assert ["a"][..0] == [] && ["b"][..0] == [];
    assert PathAsWritten(["a"]) == "root" + "." + "" == "root.";
    assert PathAsWritten(["b"]) == "root" + "." + "" == "root.";
    assert PathOf(["a"]) == "root" + "." + "a" == "root.a";
    assert PathOf(["b"]) == "root" + "." + "b" == "root.b";
    assert "root.a"[5] != "root.b"[5];
  }

  /** Where every name is left empty, as the source leaves them, the path
      is the one `PathAsWritten` gives. */
  lemma {:induction false} PathOfBlank(names: seq<string>)
    requires forall i | 0 <= i < |names| :: names[i] == ""
    ensures PathOf(names) == PathAsWritten(names)
    decreases |names|
  {
    if names != [] {
      PathOfBlank(names[..|names| - 1]);
    }
  }

  /** A child of a root has the root as its whole ancestry, and its own
      name is the only name on the way down. */
  lemma RootChild(c: StateDict, root: StateDict)
    requires root.parent == null && c.parent == root
    ensures c.Ancestry([root]) && c.NamesDown([root]) == [c.name]
  {
    assert [root][1..] == [];
  }

  /** A child of the root that keeps the empty name has the path
      `"root."`. */
  lemma BlankChildPath()
    ensures PathOf([""]) == "root."
  {
    assert [""][..0] == [];
    assert PathOf([""]) == "root" + "." + "";
  }

  /** As written, two new nodes appended to a new root under the names
      `"a"` and `"b"` both report the path `"root."`. */
  method AsWrittenSiblingPaths() returns (pa: string, pb: string)
    ensures pa == pb == "root."
  {
    var root := new StateDict();
    var a := new StateDict();
    var b := new StateDict();
    root.AppendChildAsWritten("a", a);
    root.AppendChildAsWritten("b", b);
    RootChild(a, root);
    RootChild(b, root);
    pa := a.Path([root]);
    pb := b.Path([root]);
    BlankChildPath();
  }

  /** With the names recorded, the same two children report the paths
      `"root.a"` and `"root.b"`. */
  method SiblingPaths() returns (pa: string, pb: string)
    ensures pa == "root.a" && pb == "root.b"
  {
    var root := new StateDict();
    var a := new StateDict();
    var b := new StateDict();
    root.AppendChild("a", a);
    root.AppendChild("b", b);
    RootChild(a, root);
    RootChild(b, root);
    pa := a.Path([root]);
    pb := b.Path([root]);
    AsWrittenPathsCollide();
  }

  /** `from_map` followed by `to_map` gives the map back exactly when no
      key of it is a segment-prefix of another. */
  method HeapRoundTrip(m: map<string, TensorCell>) returns (r: map<string, TensorCell>)
    ensures r == m <==> PrefixFree(m)
  {
    var d := StateDict.FromMap(m);
    r := d.ToMap();
    RoundTrip(m);
    if PrefixFree(m) {
      RealizesPairs(r, m);
    } else {
      RealizedBuild(r, m);
    }
  }

  /** A node whose footprint's entries and footprints are untouched keeps
      its validity and its tree. */
  twostate lemma ModelUnchanged(d: StateDict)
    requires old(d.Valid())
    requires unchanged(old(d.Repr)`parameters, old(d.Repr)`Repr)
    ensures d.Valid() && d.Model() == old(d.Model())
  {
  }

  /** A node whose descendants keep their back-links and names (its own
      may change) stays linked. */
  twostate lemma LinkedUnchanged(d: StateDict)
    requires old(d.Valid()) && old(d.Linked())
    requires unchanged(old(d.Repr)`parameters, old(d.Repr)`Repr)
    requires unchanged((old(d.Repr) - {d})`parent, (old(d.Repr) - {d})`name)
    ensures d.Valid() && d.Linked()
    decreases d.Repr
  {
    ModelUnchanged(d);
    forall k | k in d.parameters && d.parameters[k].ChildStateDict?
      ensures d.parameters[k].dict.Linked()
    {
      var c := d.parameters[k].dict;
      assert old(c.Valid()) && old(c.Linked());
      LinkedUnchanged(c);
    }
  }

  class StateDict {
    var name: string
    var parent: StateDict?
    var parameters: map<string, StateValue>
    ghost var Repr: set<StateDict>

    /** The node and its descendants form a finite tree-shaped structure:
        every child lies inside the node's footprint and does not reach
        back to the node. */
    ghost predicate Valid()
      reads this`parameters, this`Repr, Repr`parameters, Repr`Repr
      decreases Repr
    {
      && this in Repr
      && forall k | k in parameters && parameters[k].ChildStateDict? ::
           && parameters[k].dict in Repr
           && parameters[k].dict.Repr <= Repr
           && this !in parameters[k].dict.Repr
           && parameters[k].dict.Valid()
    }

    /** The tree of names and cells the node stands for. */
    ghost function Model(): Tree
      requires Valid()
      reads this`parameters, this`Repr, Repr`parameters, Repr`Repr
      decreases Repr
    {
      Tree(map k | k in parameters ::
        match parameters[k]
        case Tensor(c) => Leaf(c)
        case ChildStateDict(d) => Child(d.Model()))
    }

    /** Every child's back-link points to this node and the child's name is
        the key it is held under, all the way down. */
    ghost predicate Linked()
      requires Valid()
      reads this`parameters, this`Repr, Repr`parameters, Repr`Repr
      reads (Repr - {this})`parent, (Repr - {this})`name
      decreases Repr
    {
      forall k | k in parameters && parameters[k].ChildStateDict? ::
        && parameters[k].dict.parent == this
        && parameters[k].dict.name == k
        && parameters[k].dict.Linked()
    }

    /** `StateDict::new`: an empty node with the empty name and no parent. */
    constructor ()
      ensures Valid() && Model() == Tree(map[]) && Linked()
      ensures name == "" && parent == null
      ensures fresh(Repr) && Repr == {this}
    {
      name := "";
      parent := null;
      parameters := map[];
      Repr := {this};
    }

    /** `append_child`: the child is put under `moduleName`, replacing any
        entry of that name, and its back-link (and name) now point here;
        all other entries are unchanged. */
    method AppendChild(moduleName: string, child: StateDict)
      requires Valid() && child.Valid() && this !in child.Repr
      modifies this`parameters, this`Repr, child`parent, child`name
      ensures Valid()
      ensures parameters == old(parameters)[moduleName := ChildStateDict(child)]
      ensures Model() == Tree(old(Model()).entries[moduleName := Child(child.Model())])
      ensures child.parent == this && child.name == moduleName
      ensures Repr == old(Repr) + child.Repr
      ensures old(Linked()) && child.Linked() && child !in old(Repr) ==> Linked()
    {
      child.parent := this;
      child.name := moduleName;
      parameters := parameters[moduleName := ChildStateDict(child)];
      Repr := Repr + child.Repr;
      Appended((this, moduleName, child));
      if old(Linked()) && child.Linked() && child !in old(Repr) {
        AppendedLinked((this, moduleName, child));
      }
    }

    /** `append_child` as the source writes it: only the child's back-link
        is set, and the child keeps the name it had (the empty name `new`
        gave it), so its path does not mention `moduleName`.  The entries
        change as in `AppendChild`. */
    method AppendChildAsWritten(moduleName: string, child: StateDict)
      requires Valid() && child.Valid() && this !in child.Repr
      modifies this`parameters, this`Repr, child`parent
      ensures Valid()
      ensures parameters == old(parameters)[moduleName := ChildStateDict(child)]
      ensures Model() == Tree(old(Model()).entries[moduleName := Child(child.Model())])
      ensures child.parent == this && child.name == old(child.name)
      ensures Repr == old(Repr) + child.Repr
    {
      child.parent := this;
      parameters := parameters[moduleName := ChildStateDict(child)];
      Repr := Repr + child.Repr;
      Appended((this, moduleName, child));
    }

    /** `from_map`: the node for a flat map of dotted keys.  The keys are
        visited in ascending order; a key without a dot becomes a leaf, and
        the dotted keys of one first segment (contiguous in that order) are
        collected, with that segment removed, into a child built the same
        way, whose back-link points to the new node.  The result is `Build`
        of the map: a child wins over a leaf of the same name. */
    static method FromMap(m: map<string, TensorCell>) returns (d: StateDict)
      ensures d.Valid() && d.Model() == Build(m) && d.Linked()
      ensures d.parent == null && d.name == ""
      ensures fresh(d.Repr)
      decreases MaxLen(m.Keys), 2
    {
      d := new StateDict();
      var entries;
      ghost var repr;
      entries, repr := Collect(m, d);
      label Collected:
      d.parameters := entries;
      d.Repr := {d} + repr;
      EntriesUnchanged@Collected((d, entries, repr));
      Adopted(d, repr);
    }

    /** The loop of `from_map`: the entries of the new node `d`, each child
        already built and pointing back to `d`. */
    static method Collect(m: map<string, TensorCell>, d: StateDict)
      returns (entries: map<string, StateValue>, ghost repr: set<StateDict>)
      ensures Assembled(d, entries, repr) && EntriesModel(d, entries, repr) == Build(m).entries
      ensures fresh(repr)
      decreases MaxLen(m.Keys), 1
    {
      var keys := SortedKeys(m.Keys);
      entries, repr := map[], {};
      var hasChild, childName, pending := false, "", map[];
      ghost var seen: map<string, TensorCell> := map[];
      ghost var last := "";
      var i := 0;
      while i < |keys|
        invariant 0 <= i <= |keys|
        invariant SeenPrefix(m, keys, i, seen)
        invariant fresh(repr) && Assembled(d, entries, repr)
        invariant ScanState(seen, hasChild, childName, pending, last)
        invariant Pending(EntriesModel(d, entries, repr), hasChild, childName, pending) == Build(seen).entries
      {
        var key := keys[i];
        var value := m[key];
        SeenStep(m, keys, i, seen);
        entries, repr, hasChild, childName, pending, last :=
          ScanKey(m, d, key, value, entries, repr, hasChild, childName, pending, seen, last);
        seen := seen[key := value];
        i := i + 1;
      }
      SeenAll(m, keys, seen);
      if hasChild {
        PendingShorter(m, seen, last);
        entries, repr := Attach(d, entries, repr, childName, pending);
      }
    }

    /** One key of the loop of `from_map`.  A key without a dot is put in
        as a leaf.  A dotted key whose first segment differs from the name
        of the child being collected completes that child, which is built
        and put in place; the key then starts (or joins) the collected child
        under its first segment, with that segment removed. */
    static method ScanKey(m: map<string, TensorCell>, d: StateDict, key: string, value: TensorCell,
                          entries: map<string, StateValue>, ghost repr: set<StateDict>,
                          hasChild: bool, childName: string, pending: map<string, TensorCell>,
                          ghost seen: map<string, TensorCell>, ghost last: string)
      returns (entries': map<string, StateValue>, ghost repr': set<StateDict>,
               hasChild': bool, childName': string, pending': map<string, TensorCell>, ghost last': string)
      requires seen.Keys <= m.Keys && forall j | j in seen :: Below(j, key)
      requires Assembled(d, entries, repr) && ScanState(seen, hasChild, childName, pending, last)
      requires Pending(EntriesModel(d, entries, repr), hasChild, childName, pending) == Build(seen).entries
      ensures Assembled(d, entries', repr') && repr <= repr' && fresh(repr' - repr)
      ensures ScanState(seen[key := value], hasChild', childName', pending', last')
      ensures Pending(EntriesModel(d, entries', repr'), hasChild', childName', pending') == Build(seen[key := value]).entries
      decreases MaxLen(m.Keys), 0
    {
      ghost var em := EntriesModel(d, entries, repr);
      entries', repr', hasChild', childName', pending', last' := entries, repr, hasChild, childName, pending, last;
      if !HasDot(key) {
        ScanLeaf(seen, hasChild, childName, pending, last, em, key, value);
        KeyParts(key);
        AssembledLeaf(d, entries, repr, key, value);
        entries' := entries[First(key) := StateValue.Tensor(value)];
      } else {
        var first := First(key);
        if hasChild && first == childName {
          ScanDottedSame(seen, childName, pending, last, em, key, value);
        } else {
          ScanDottedNew(seen, hasChild, childName, pending, last, em, key, value);
        }
        if hasChild' && first != childName' {
          PendingShorter(m, seen, last);
          entries', repr' := Attach(d, entries', repr', childName', pending');
          hasChild', pending', childName' := false, map[], "";
        }
        if !hasChild' {
          hasChild', pending', childName' := true, map[], first;
        }
        pending' := pending'[ChildKey(key) := value];
        last' := key;
      }
    }

    /** Building the collected child and putting it under its name, with
        its back-link (and name) pointing to `d`. */
    static method Attach(d: StateDict, entries: map<string, StateValue>, ghost repr: set<StateDict>,
                         childName: string, pending: map<string, TensorCell>)
      returns (entries': map<string, StateValue>, ghost repr': set<StateDict>)
      requires Assembled(d, entries, repr)
      ensures Assembled(d, entries', repr')
      ensures EntriesModel(d, entries', repr') == old(EntriesModel(d, entries, repr))[childName := Child(Build(pending))]
      ensures repr <= repr' && fresh(repr' - repr)
      decreases MaxLen(pending.Keys), 3
    {
      var child := FromMap(pending);
      label Built:
      child.parent := d;
      child.name := childName;
      ModelUnchanged@Built(child);
      LinkedUnchanged@Built(child);
      EntriesUnchanged((d, entries, repr));
      AssembledChild(d, entries, repr, childName, child);
      entries' := entries[childName := ChildStateDict(child)];
      repr' := repr + child.Repr;
    }

    /** `up` lists the node's ancestors, parent first, ending with a node
        that has no parent. */
    ghost predicate Ancestry(up: seq<StateDict>)
      reads this`parent, (set u | u in up)`parent
      decreases |up|
    {
      if parent == null then up == []
      else |up| > 0 && up[0] == parent && up[0].Ancestry(up[1..])
    }

    /** The names along the ancestry, from the root's child down to this
        node; the root's own name takes no part. */
    ghost function NamesDown(up: seq<StateDict>): seq<string>
      requires Ancestry(up)
      reads this`parent, this`name, (set u | u in up)`parent, (set u | u in up)`name
      decreases |up|
    {
      if parent == null then [] else up[0].NamesDown(up[1..]) + [name]
    }

    /** `path`: `"root"` for a node without a parent, otherwise the parent's
        path, a dot and the node's name; that is, the names from the root
        down, each after a dot. */
    function Path(ghost up: seq<StateDict>): (p: string)
      requires Ancestry(up)
      reads this`parent, this`name, (set u | u in up)`parent, (set u | u in up)`name
      ensures p == PathOf(NamesDown(up))
      decreases |up|
    {
      if parent == null then "root" else parent.Path(up[1..]) + "." + name
    }

    /** `tensor`: the cell of the leaf under `key`; a missing key or a child
        under it is a `NoSuchParameter` error naming this node's path. */
    function LookupTensor(key: string, ghost up: seq<StateDict>): (r: Result<TensorCell>)
      requires Valid() && Ancestry(up)
      reads this`parameters, this`Repr, Repr`parameters, Repr`Repr
      reads this`parent, this`name, (set u | u in up)`parent, (set u | u in up)`name
      ensures r.Ok? <==> key in Model().entries && Model().entries[key].Leaf?
      ensures r.Ok? ==> r.value == Model().entries[key].cell
      ensures r.Err? ==> r.error == NoSuchParameter(key, PathOf(NamesDown(up)))
    {
      if key in parameters && parameters[key].Tensor? then Ok(parameters[key].cell)
      else Err(NoSuchParameter(key, Path(up)))
    }

    /** `child_state_dict`: the child node under `moduleName`; a missing key
        or a leaf under it is a `NoSuchModule` error naming this node's
        path. */
    function LookupChild(moduleName: string, ghost up: seq<StateDict>): (r: Result<StateDict>)
      requires Valid() && Ancestry(up)
      reads this`parameters, this`Repr, Repr`parameters, Repr`Repr
      reads this`parent, this`name, (set u | u in up)`parent, (set u | u in up)`name
      ensures r.Ok? <==> moduleName in Model().entries && Model().entries[moduleName].Child?
      ensures r.Ok? ==> r.value in Repr && r.value.Valid() && this !in r.value.Repr
      ensures r.Ok? ==> r.value.Model() == Model().entries[moduleName].tree
      ensures r.Err? ==> r.error == NoSuchModule(moduleName, PathOf(NamesDown(up)))
    {
      if moduleName in parameters && parameters[moduleName].ChildStateDict? then Ok(parameters[moduleName].dict)
      else Err(NoSuchModule(moduleName, Path(up)))
    }

    /** The keys in the order `Display` lists them: ascending, each once.
        Each child is then listed the same way beneath its key. */
    method DisplayKeys() returns (keys: seq<string>)
      requires Valid()
      ensures StrictlySorted(keys)
      ensures forall k :: k in keys <==> k in Model().entries
      ensures |keys| == |Model().entries|
    {
      ghost var t := Model();
      assert t.entries.Keys == parameters.Keys;
      keys := SortedKeys(parameters.Keys);
    }

    /** `to_map`: every leaf under its dotted path; a child's keys come back
        prefixed with the child's name and a dot.  Entries are visited in
        the unspecified order of a hash map, so when two leaves flatten to
        the same key either may be the one kept. */
    method ToMap() returns (r: map<string, TensorCell>)
      requires Valid()
      ensures Realizes(r, Flat(Leaves(Model())))
      decreases Repr, 1
    {
      ghost var t := Model();
      ghost var keys := parameters.Keys;
      assert t.entries.Keys == keys;
      r := map[];
      var todo := parameters.Keys;
      ghost var done: set<string> := {};
      while todo != {}
        invariant todo !! done && todo + done == keys
        invariant Realizes(r, Flat(LeavesUnder(t, done)))
        decreases todo
      {
        var key :| key in todo;
        r := ToMapEntry(key, r, t, done);
        ModelUnchanged(this);
        MoveKey(todo, done, keys, key);
        todo := todo - {key};
        done := done + {key};
      }
      assert done == t.entries.Keys;
    }

    /** One pass of `to_map`'s loop: the entry `key` stored into the map
        built so far. */
    method ToMapEntry(key: string, r0: map<string, TensorCell>, ghost t: Tree, ghost done: set<string>)
      returns (r: map<string, TensorCell>)
      requires Valid() && Model() == t && key in parameters
      requires Realizes(r0, Flat(LeavesUnder(t, done)))
      ensures Realizes(r, Flat(LeavesUnder(t, done + {key})))
      decreases Repr, 0
    {
      match parameters[key] {
        case Tensor(c) =>
          assert t.entries[key] == Leaf(c);
          FlatStepLeaf(t, done, key, r0);
          r := r0[key := c];
        case ChildStateDict(d) =>
          ghost var child := d.Model();
          assert d.Valid() && d.Repr < Repr && t.entries[key] == Child(child);
          var sub := d.ToMap();
          ModelUnchanged(d);
          r := StorePrefixed(r0, key, sub);
          FlatStepChild(t, done, key, r0, sub, r);
      }
    }

    /** `to_vec`: every leaf's cell, a child's cells spliced in where the
        child is met; `paths` records which leaf each cell came from, so the
        result lists every leaf exactly once. */
    method ToVec() returns (r: seq<TensorCell>, ghost paths: seq<seq<string>>)
      requires Valid()
      ensures Enumerates(Leaves(Model()), paths, r)
      ensures forall c :: c in r <==> c in Cells(Model())
      ensures |r| == |LeafPaths(Model())|
      decreases Repr, 2
    {
      r, paths := Enumerate();
      EnumeratedCells(Model(), paths, r);
      EnumeratedPaths(Model(), paths, r);
    }

    /** The loop of `to_vec`: each entry in turn, a leaf's cell pushed and a
        child's list appended. */
    method Enumerate() returns (r: seq<TensorCell>, ghost paths: seq<seq<string>>)
      requires Valid()
      ensures Enumerates(Leaves(Model()), paths, r)
      decreases Repr, 1
    {
      ghost var t := Model();
      ghost var keys := parameters.Keys;
      assert t.entries.Keys == keys;
      r, paths := [], [];
      var todo := parameters.Keys;
      ghost var done: set<string> := {};
      while todo != {}
        invariant todo !! done && todo + done == keys
        invariant Enumerates(LeavesUnder(t, done), paths, r)
        decreases todo
      {
        var key :| key in todo;
        r, paths := ToVecEntry(key, r, paths, t, done);
        ModelUnchanged(this);
        MoveKey(todo, done, keys, key);
        todo := todo - {key};
        done := done + {key};
      }
      assert done == t.entries.Keys;
    }

    /** One pass of `to_vec`'s loop: the leaves under the entry `key`
        appended to the list built so far. */
    method ToVecEntry(key: string, r0: seq<TensorCell>, ghost paths0: seq<seq<string>>, ghost t: Tree, ghost done: set<string>)
      returns (r: seq<TensorCell>, ghost paths: seq<seq<string>>)
      requires Valid() && Model() == t && key in parameters && key !in done
      requires Enumerates(LeavesUnder(t, done), paths0, r0)
      ensures Enumerates(LeavesUnder(t, done + {key}), paths, r)
      decreases Repr, 0
    {
      match parameters[key] {
        case Tensor(c) =>
          assert t.entries[key] == Leaf(c);
          EnumStepLeaf(t, done, key, paths0, r0);
          r, paths := r0 + [c], paths0 + [[key]];
        case ChildStateDict(d) =>
          ghost var child := d.Model();
          assert d.Valid() && d.Repr < Repr && t.entries[key] == Child(child);
          var sub;
          ghost var subPaths;
          sub, subPaths := d.ToVec();
          ModelUnchanged(d);
          EnumStepChild(t, done, key, paths0, r0, subPaths, sub);
          r, paths := r0 + sub, paths0 + PrefixPaths(key, subPaths);
      }
    }

    /** The (target cell, source cell) pairs a load from `source` copies
        along. */
    ghost function LoadPairs(source: StateDict): set<(TensorCell, TensorCell)>
      requires Valid() && source.Valid()
      reads this`parameters, this`Repr, Repr`parameters, Repr`Repr
      reads source`parameters, source`Repr, source.Repr`parameters, source.Repr`Repr
    {
      CopyPairs(Model(), source.Model())
    }

    /** `load`: for every entry of the source, a leaf over a leaf of the
        same name has its contents copied into it (keeping its own device
        and flag), a child over a child recurses, and anything else is
        skipped.  The entries are visited in the unspecified order of a
        hash map, so the copies are made one after another in some order
        `order` that lists the load's pairs; a cell both written and read
        makes the result depend on that order.  When no cell is both, the
        order does not matter and `from` records which partner each written
        cell was copied from.  The source must not hold a leaf where the
        target holds a child (that unwraps a failed lookup), and no pair may
        copy a cell onto itself (that locks the cell twice).  `W` takes in
        every cell written or read. */
    method Load(source: StateDict, ghost W: set<TensorCell>)
      returns (ghost order: seq<(TensorCell, TensorCell)>, ghost from: map<TensorCell, TensorCell>)
      requires Valid() && source.Valid()
      requires LoadSafe(Model(), source.Model())
      requires forall pr | pr in LoadPairs(source) :: pr.0 != pr.1
      requires Written(LoadPairs(source)) + Read(LoadPairs(source)) <= W
      modifies W
      ensures Lists(order, old(LoadPairs(source)))
      ensures Contents(W) == Replay(old(Contents(W)), order)
      ensures Written(old(LoadPairs(source))) !! Read(old(LoadPairs(source))) ==>
                CopiedAlong(old(LoadPairs(source)), old(Contents(W)), Contents(W), old(Contents(W)), from)
      decreases Repr, 2
    {
      order := LoadEntries(source, W);
      from := map[];
      ghost var pairs := old(LoadPairs(source));
      if Written(pairs) !! Read(pairs) {
        from := ReplayDisjoint(pairs, old(Contents(W)), order);
        ListedElems(order, pairs);
      }
    }

    /** The loop of `load`: each source entry in turn, its copies made after
        those of the entries before it. */
    method LoadEntries(source: StateDict, ghost W: set<TensorCell>) returns (ghost order: seq<(TensorCell, TensorCell)>)
      requires Valid() && source.Valid()
      requires LoadSafe(Model(), source.Model())
      requires forall pr | pr in LoadPairs(source) :: pr.0 != pr.1
      requires Written(LoadPairs(source)) + Read(LoadPairs(source)) <= W
      modifies W
      ensures Lists(order, old(LoadPairs(source)))
      ensures Contents(W) == Replay(old(Contents(W)), order)
      decreases Repr, 1
    {
      ghost var t, s := Model(), source.Model();
      ghost var pairs := CopyPairs(t, s);
      ghost var before := Contents(W);
      assert s.entries.Keys == source.parameters.Keys;
      order := [];
      var todo := source.parameters.Keys;
      ghost var keys, done: set<string> := todo, {};
      assert CopyPairsUnder(t, s, done) == {};
      while todo != {}
        invariant todo !! done && todo + done == keys
        invariant Lists(order, CopyPairsUnder(t, s, done))
        invariant Contents(W) == Replay(before, order)
        decreases todo
      {
        var key :| key in todo;
        ghost var more := KeyPairs(t, s, key);
        KeyPairsWithin(t, s, key);
        assert && Valid() && source.Valid() && Model() == t && source.Model() == s && Repr == old(Repr)
               && LoadSafe(Model(), source.Model())
               && (forall pr | pr in KeyPairs(Model(), source.Model(), key) :: pr.0 != pr.1)
               && Written(KeyPairs(Model(), source.Model(), key)) + Read(KeyPairs(Model(), source.Model(), key)) <= W by {
          ModelUnchanged(this);
          ModelUnchanged(source);
          WrittenReadMono(more, pairs);
        }
        ghost var moreOrder := LoadEntry(key, source, W);
        ReplayAppend(before, order, moreOrder);
        LoadStep(t, s, done, key, order, moreOrder);
        MoveKey(todo, done, keys, key);
        order := order + moreOrder;
        todo := todo - {key};
        done := done + {key};
      }
    }

    /** One pass of `load`'s loop: the source entry `key` against this
        node's entry of the same name. */
    method LoadEntry(key: string, source: StateDict, ghost W: set<TensorCell>) returns (ghost order: seq<(TensorCell, TensorCell)>)
      requires Valid() && source.Valid() && key in source.parameters
      requires LoadSafe(Model(), source.Model())
      requires forall pr | pr in KeyPairs(Model(), source.Model(), key) :: pr.0 != pr.1
      requires Written(KeyPairs(Model(), source.Model(), key)) + Read(KeyPairs(Model(), source.Model(), key)) <= W
      modifies W
      ensures Lists(order, KeyPairs(old(Model()), old(source.Model()), key))
      ensures Contents(W) == Replay(old(Contents(W)), order)
      decreases Repr, 0
    {
      ghost var t, s := Model(), source.Model();
      ghost var pairs := KeyPairs(t, s, key);
      ghost var before := Contents(W);
      order := [];
      if key in parameters {
        match parameters[key] {
          case Tensor(tc) =>
            match source.parameters[key] {
              case Tensor(sc) =>
                assert pairs == {(tc, sc)};
                PairSides(pairs, (tc, sc));
                tc.value := CopyFrom(tc.value, sc.value);
                order := [(tc, sc)];
                assert order[..0] == [];
                assert Contents(W) == before[tc := CopyFrom(before[tc], before[sc])];
              case ChildStateDict(_) =>
                assert pairs == {};
            }
          case ChildStateDict(child) =>
            match source.parameters[key] {
              case Tensor(_) =>
                assert false;
              case ChildStateDict(sd) =>
                assert t.entries[key] == Child(child.Model()) && s.entries[key] == Child(sd.Model());
                order := child.LoadEntries(sd, W);
            }
        }
      } else {
        assert pairs == {};
      }
    }
  }

  /** A node that has gained the child `x.2` under the name `x.1`, the
      entries and footprints of everything else untouched, is valid and
      stands for its old tree with the child's tree under that name.  (The
      node, name and child come as one triple.) */
  twostate lemma Appended(x: (StateDict, string, StateDict))
    requires old(x.0.Valid()) && old(x.2.Valid()) && x.0 !in old(x.2.Repr)
    requires x.0.parameters == old(x.0.parameters)[x.1 := ChildStateDict(x.2)]
    requires x.0.Repr == old(x.0.Repr) + old(x.2.Repr)
    requires unchanged((old(x.0.Repr) + old(x.2.Repr) - {x.0})`parameters, (old(x.0.Repr) + old(x.2.Repr) - {x.0})`Repr)
    ensures x.0.Valid() && x.2.Valid() && x.2.Model() == old(x.2.Model())
    ensures x.0.Model() == Tree(old(x.0.Model()).entries[x.1 := Child(x.2.Model())])
  {
    var d, k, c := x.0, x.1, x.2;
    ModelUnchanged(c);
    forall j | j in d.parameters && j != k && d.parameters[j].ChildStateDict?
      ensures d.parameters[j].dict.Valid()
      ensures d.parameters[j].dict.Model() == old(d.parameters[j].dict.Model())
    {
      ModelUnchanged(d.parameters[j].dict);
    }
    assert d.Valid();
  }

  /** The node that has gained the child stays linked when it was linked,
      the child is linked and now points back to it under its name, and
      the child was not already below it. */
  twostate lemma AppendedLinked(x: (StateDict, string, StateDict))
    requires old(x.0.Valid()) && old(x.0.Linked()) && x.0.Valid() && x.2.Valid() && x.2.Linked()
    requires x.2 !in old(x.0.Repr) && x.2.parent == x.0 && x.2.name == x.1
    requires x.0.parameters == old(x.0.parameters)[x.1 := ChildStateDict(x.2)]
    requires unchanged((old(x.0.Repr) - {x.0})`parameters, (old(x.0.Repr) - {x.0})`Repr)
    requires unchanged((old(x.0.Repr) - {x.0})`parent, (old(x.0.Repr) - {x.0})`name)
    ensures x.0.Linked()
  {
    var d, k := x.0, x.1;
    forall j | j in d.parameters && j != k && d.parameters[j].ChildStateDict?
      ensures d.parameters[j].dict.Linked()
    {
      LinkedUnchanged(d.parameters[j].dict);
    }
  }

  /** The entries `from_map` has put together for the node `d` so far:
      every child is valid and linked, lies inside `repr`, and points back
      to `d` under its own name; `d` itself is not in `repr`. */
  ghost predicate Assembled(d: StateDict, entries: map<string, StateValue>, repr: set<StateDict>)
    reads repr`parameters, repr`Repr, repr`parent, repr`name
  {
    && d !in repr
    && forall k | k in entries && entries[k].ChildStateDict? ::
         && entries[k].dict in repr && entries[k].dict.Repr <= repr
         && entries[k].dict.Valid() && entries[k].dict.parent == d && entries[k].dict.name == k
         && entries[k].dict.Linked()
  }

  /** The tree entries those entries stand for. */
  ghost function EntriesModel(d: StateDict, entries: map<string, StateValue>, repr: set<StateDict>): map<string, Entry>
    requires Assembled(d, entries, repr)
    reads repr`parameters, repr`Repr, repr`parent, repr`name
  {
    map k | k in entries ::
      match entries[k]
      case Tensor(c) => Leaf(c)
      case ChildStateDict(c) => Child(c.Model())
  }

  /** A leaf added to the entries. */
  lemma AssembledLeaf(d: StateDict, entries: map<string, StateValue>, repr: set<StateDict>, k: string, c: TensorCell)
    requires Assembled(d, entries, repr)
    ensures Assembled(d, entries[k := StateValue.Tensor(c)], repr)
    ensures EntriesModel(d, entries[k := StateValue.Tensor(c)], repr) == EntriesModel(d, entries, repr)[k := Leaf(c)]
  {
  }

  /** Entries whose footprint is untouched keep their properties and the
      tree entries they stand for.  (The node, entries and footprint come
      as one triple.) */
  twostate lemma EntriesUnchanged(x: (StateDict, map<string, StateValue>, set<StateDict>))
    requires old(Assembled(x.0, x.1, x.2))
    requires unchanged(x.2`parameters, x.2`Repr, x.2`parent, x.2`name)
    ensures Assembled(x.0, x.1, x.2) && EntriesModel(x.0, x.1, x.2) == old(EntriesModel(x.0, x.1, x.2))
  {
  }

  /** A built child added to the entries under its own name. */
  lemma AssembledChild(d: StateDict, entries: map<string, StateValue>, repr: set<StateDict>, k: string, c: StateDict)
    requires Assembled(d, entries, repr)
    requires c.Valid() && c.Linked() && c.parent == d && c.name == k && d !in c.Repr
    ensures Assembled(d, entries[k := ChildStateDict(c)], repr + c.Repr)
    ensures EntriesModel(d, entries[k := ChildStateDict(c)], repr + c.Repr)
         == EntriesModel(d, entries, repr)[k := Child(c.Model())]
  {
  }

  /** Once the node holds the entries and the footprint, it is valid and
      linked and stands for the tree of those entries. */
  lemma Adopted(d: StateDict, repr: set<StateDict>)
    requires Assembled(d, d.parameters, repr) && d.Repr == {d} + repr
    ensures d.Valid() && d.Linked()
    ensures d.Model().entries == EntriesModel(d, d.parameters, repr)
  {
  }

  /** Moving a key from the keys still to visit to the keys visited keeps
      the two apart and their union the same. */
  lemma MoveKey(todo: set<string>, done: set<string>, keys: set<string>, key: string)
    requires todo !! done && todo + done == keys && key in todo
    ensures (todo - {key}) !! (done + {key}) && (todo - {key}) + (done + {key}) == keys
  {
  }

  /** The inner loop of `to_map`: each key of a child's flat map stored
      under the child's name, a dot, and the key. */
  method StorePrefixed(r0: map<string, TensorCell>, k: string, sub: map<string, TensorCell>) returns (r: map<string, TensorCell>)
    ensures StoredPrefixed(r, r0, k, sub)
  {
    r := r0;
    var pending := sub.Keys;
    ghost var copied: set<string> := {};
    while pending != {}
      invariant pending !! copied && pending + copied == sub.Keys
      invariant forall x | x in r0 :: x in r
      invariant forall ck | ck in copied :: k + "." + ck in r && r[k + "." + ck] == sub[ck]
      invariant forall x | x in r ::
        || (x in r0 && r[x] == r0[x])
        || (|k| + 1 <= |x| && x[..|k| + 1] == k + "." && x[|k| + 1..] in copied && r[x] == sub[x[|k| + 1..]])
      decreases pending
    {
      var ck :| ck in pending;
      var key := k + "." + ck;
      assert key[..|k| + 1] == k + "." && key[|k| + 1..] == ck;
      r := r[key := sub[ck]];
      pending := pending - {ck};
      copied := copied + {ck};
    }
  }
}
