/** `Sequential`: a list of modules run one after another.  Its parameter
    store has one child per module, named by the module's position; its
    tensors are those of its modules in order; its forward pass feeds each
    module's output to the next.  The modules themselves are not modelled:
    each is seen only through its forward function, the store its
    `trainable_parameters` returns and the list its `all_parameters`
    returns. */
module Sequentials {
  import opened Tensors
  import opened Trees
  import opened StateDicts
  import opened Decimals

  /* ---------------------------------------------------------------------
     Parameters
     --------------------------------------------------------------------- */

  /** The entries of a store holding `models[i]` under the name of `i`, as
      put in one after another. */
  ghost function Indexed(models: seq<Tree>): map<string, Entry>
    decreases |models|
  {
    if models == [] then map[]
    else Indexed(models[..|models| - 1])[Decimal(|models| - 1) := Child(models[|models| - 1])]
  }

  /** The names of the first `n` positions. */
  ghost function Names(n: nat): set<string>
  {
    if n == 0 then {} else Names(n - 1) + {Decimal(n - 1)}
  }

  /** The first `n` names are `n` different names, and a later position's
      name is not among them. */
  lemma {:induction false} NamesDistinct(n: nat)
    ensures forall i: nat | i >= n :: Decimal(i) !in Names(n)
    ensures forall i | 0 <= i < n :: Decimal(i) in Names(n)
    ensures |Names(n)| == n
  {
    if n > 0 {
      var prev := Names(n - 1);
      assert Names(n) == prev + {Decimal(n - 1)};
      NamesDistinct(n - 1);
      assert Decimal(n - 1) !in prev;
      forall i: nat | i >= n
        ensures Decimal(i) !in Names(n)
      {
        DecimalInjective(i, n - 1);
        assert Decimal(i) !in prev;
      }
      forall i | 0 <= i < n
        ensures Decimal(i) in Names(n)
      {
        if i < n - 1 {
          assert Decimal(i) in prev;
        }
      }
    }
  }

  /** The store has one entry per module and nothing else: its keys are the
      names of the positions, each naming its own module's tree, so no
      later entry overwrote an earlier one. */
  lemma {:induction false} IndexedEntries(models: seq<Tree>)
    ensures Indexed(models).Keys == Names(|models|)
    ensures forall i | 0 <= i < |models| :: Decimal(i) in Indexed(models) && Indexed(models)[Decimal(i)] == Child(models[i])
    ensures |Indexed(models)| == |models|
    decreases |models|
  {
    NamesDistinct(|models|);
    if models != [] {
      var n := |models| - 1;
      var init := models[..n];
      var m0 := Indexed(init);
      var m := Indexed(models);
      assert m == m0[Decimal(n) := Child(models[n])];
      IndexedEntries(init);
      forall i | 0 <= i < |models|
        ensures Decimal(i) in m && m[Decimal(i)] == Child(models[i])
      {
        if i < n {
          DecimalInjective(i, n);
          assert m0[Decimal(i)] == Child(init[i]);
        }
      }
    }
  }

  /** `trainable_parameters`: a new store, and each module's store put
      under the decimal name of its position (`append_child`), pointing
      back to the new store.  `children[i]` is the store module `i`
      returned, and `models[i]` is its tree. */
  method TrainableParameters(children: seq<StateDict>, ghost models: seq<Tree>) returns (d: StateDict)
    requires |models| == |children|
    requires forall i | 0 <= i < |children| :: children[i].Valid() && children[i].Model() == models[i]
    modifies (set c | c in children)`parent, (set c | c in children)`name
    ensures fresh(d) && d.Valid() && d.Model() == Tree(Indexed(models))
    ensures forall i | 0 <= i < |children| :: children[i].Valid() && children[i].Model() == models[i]
    ensures forall i | 0 <= i < |children| :: children[i].parent == d
    ensures (forall i, j | 0 <= i < j < |children| :: children[i] != children[j]) ==>
              forall i | 0 <= i < |children| :: children[i].name == Decimal(i)
  {
    d := new StateDict();
    ghost var distinct := forall a, b | 0 <= a < b < |children| :: children[a] != children[b];
    var i := 0;
    while i < |children|
      invariant 0 <= i <= |children|
      invariant d.Valid() && d.Model() == Tree(Indexed(models[..i]))
      invariant forall j | 0 <= j < |children| ::
        children[j].Valid() && children[j].Model() == models[j] && d !in children[j].Repr
      invariant forall j | 0 <= j < i :: children[j].parent == d
      invariant distinct ==> forall j | 0 <= j < i :: children[j].name == Decimal(j)
    {
      AppendAt(d, children, models, i);
      i := i + 1;
    }
    assert models[..i] == models;
  }

  /** One step of `trainable_parameters`: module `i`'s store put under the
      name of `i`, the stores of the other modules left as they were. */
  method AppendAt(d: StateDict, children: seq<StateDict>, ghost models: seq<Tree>, i: nat)
    requires i < |children| == |models|
    requires d.Valid() && d.Model() == Tree(Indexed(models[..i]))
    requires forall j | 0 <= j < |children| ::
      children[j].Valid() && children[j].Model() == models[j] && d !in children[j].Repr
    requires forall j | 0 <= j < i :: children[j].parent == d
    requires (forall a, b | 0 <= a < b < |children| :: children[a] != children[b]) ==>
               forall j | 0 <= j < i :: children[j].name == Decimal(j)
    modifies d`parameters, d`Repr, {children[i]}`parent, {children[i]}`name
    ensures d.Valid() && d.Model() == Tree(Indexed(models[..i + 1]))
    ensures forall j | 0 <= j < |children| ::
      children[j].Valid() && children[j].Model() == models[j] && d !in children[j].Repr
    ensures forall j | 0 <= j <= i :: children[j].parent == d
    ensures (forall a, b | 0 <= a < b < |children| :: children[a] != children[b]) ==>
              forall j | 0 <= j <= i :: children[j].name == Decimal(j)
  {
    d.AppendChild(Decimal(i), children[i]);
    forall j | 0 <= j < |children|
      ensures children[j].Valid() && children[j].Model() == models[j]
    {
      ModelUnchanged(children[j]);
    }
    forall j | 0 <= j <= i
      ensures children[j].parent == d
    {
      if j < i && children[j] != children[i] {
        assert children[j].parent == old(children[j].parent);
      }
    }
    assert models[..i + 1][..i] == models[..i];
  }

  /** The list of lists end to end. */
  function Concat<T>(lists: seq<seq<T>>): (r: seq<T>)
    decreases |lists|
  {
    if lists == [] then [] else Concat(lists[..|lists| - 1]) + lists[|lists| - 1]
  }

  /** `all_parameters`: each module's tensors appended in module order.
      `moduleParams[i]` is what module `i`'s `all_parameters` returned. */
  method AllParameters(moduleParams: seq<seq<TensorCell>>) returns (r: seq<TensorCell>)
    ensures r == Concat(moduleParams)
  {
    r := [];
    for i := 0 to |moduleParams|
      invariant r == Concat(moduleParams[..i])
    {
      assert moduleParams[..i + 1][..i] == moduleParams[..i];
      r := r + moduleParams[i];
    }
    assert moduleParams[..|moduleParams|] == moduleParams;
  }

  /** Concatenating two runs of lists is concatenating their results. */
  lemma {:induction false} ConcatAppend<T>(a: seq<seq<T>>, b: seq<seq<T>>)
    ensures Concat(a + b) == Concat(a) + Concat(b)
    decreases |b|
  {
    if b != [] {
      var n := |b| - 1;
      assert (a + b)[..|a + b| - 1] == a + b[..n];
      ConcatAppend(a, b[..n]);
      assert Concat(a + b) == Concat(a + b[..n]) + b[n];
    } else {
      assert a + b == a;
    }
  }

  /** Every module's tensors appear in the concatenation, at their module's
      offset, and nothing else does. */
  lemma {:induction false} ConcatMembers<T>(lists: seq<seq<T>>, x: T)
    ensures x in Concat(lists) <==> exists i :: 0 <= i < |lists| && x in lists[i]
    decreases |lists|
  {
    if lists != [] {
      ConcatMembers(lists[..|lists| - 1], x);
      if x in Concat(lists) && x !in lists[|lists| - 1] {
        var i :| 0 <= i < |lists| - 1 && x in lists[..|lists| - 1][i];
        assert x in lists[i];
      }
    }
  }

  /* ---------------------------------------------------------------------
     Forward pass
     --------------------------------------------------------------------- */

  /** The layers applied in list order to `x`: the last layer is applied to
      what the others made of `x`. */
  function Run(layers: seq<Tensor -> Tensor>, x: Tensor): Tensor
    decreases |layers|
  {
    if layers == [] then x else layers[|layers| - 1](Run(layers[..|layers| - 1], x))
  }

  /** `forward`: starting from a copy of the input, each module's output is
      the next one's input.  `layers[i]` is module `i`'s forward function. */
  method Forward(layers: seq<Tensor -> Tensor>, input: Tensor) returns (x: Tensor)
    ensures x == Run(layers, input)
  {
    x := input;
    for i := 0 to |layers|
      invariant x == Run(layers[..i], input)
    {
      assert layers[..i + 1][..i] == layers[..i];
      x := layers[i](x);
    }
    assert layers[..|layers|] == layers;
  }

  /** Running two lists of layers one after the other is running their
      concatenation: a `Sequential` nested in a `Sequential` behaves as
      its layers spliced in. */
  lemma {:induction false} RunAppend(a: seq<Tensor -> Tensor>, b: seq<Tensor -> Tensor>, x: Tensor)
    ensures Run(a + b, x) == Run(b, Run(a, x))
    decreases |b|
  {
    if b != [] {
      var n := |b| - 1;
      assert (a + b)[..|a + b| - 1] == a + b[..n];
      RunAppend(a, b[..n], x);
      assert Run(a + b, x) == b[n](Run(a + b[..n], x));
    } else {
      assert a + b == a;
    }
  }

  /** `seq!(f, ...)` lists its arguments in order, so the first argument is
      applied first and the rest run on its output; with no arguments the
      input comes back unchanged. */
  lemma RunFirst(f: Tensor -> Tensor, rest: seq<Tensor -> Tensor>, x: Tensor)
    ensures Run([f] + rest, x) == Run(rest, f(x))
    ensures Run([], x) == x
  {
    RunAppend([f], rest, x);
    assert Run([f], x) == f(Run([], x));
  }
}
