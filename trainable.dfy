/** What every trainable module gets from its parameter store: the list of
    tensors still being trained, their number, loading, freezing and
    unfreezing, and moving to a device.  A module is seen here only through
    the store its `trainable_parameters` returns (a `StateDict`) or the list
    its `all_parameters` returns. */
module Trainables {
  import opened Tensors
  import opened Trees
  import opened Loading
  import opened StateDicts

  /* ---------------------------------------------------------------------
     Training parameters
     --------------------------------------------------------------------- */

  /** The cells whose tensor currently requires grad, in their order. */
  function RequiringGrad(cells: seq<TensorCell>): (r: seq<TensorCell>)
    reads cells
    ensures |r| <= |cells|
    ensures forall c | c in r :: c in cells && c.value.requiresGrad
    ensures forall c | c in cells && c.value.requiresGrad :: c in r
    decreases |cells|
  {
    if cells == [] then []
    else
      var rest := RequiringGrad(cells[..|cells| - 1]);
      var last := cells[|cells| - 1];
      assert cells == cells[..|cells| - 1] + [last];
      if last.value.requiresGrad then rest + [last] else rest
  }

  /** With every flag cleared, nothing is being trained. */
  lemma {:induction false} NoneRequireGrad(cells: seq<TensorCell>)
    requires forall i | 0 <= i < |cells| :: !cells[i].value.requiresGrad
    ensures RequiringGrad(cells) == []
    decreases |cells|
  {
    if cells != [] {
      NoneRequireGrad(cells[..|cells| - 1]);
    }
  }

  /** With every flag set, every cell is being trained, in order. */
  lemma {:induction false} AllRequireGrad(cells: seq<TensorCell>)
    requires forall i | 0 <= i < |cells| :: cells[i].value.requiresGrad
    ensures RequiringGrad(cells) == cells
    decreases |cells|
  {
    if cells != [] {
      AllRequireGrad(cells[..|cells| - 1]);
      assert cells[..|cells| - 1] + [cells[|cells| - 1]] == cells;
    }
  }

  /** An enumeration of no leaves is empty. */
  lemma EmptyEnumeration(paths: seq<seq<string>>, cells: seq<TensorCell>)
    requires Enumerates(Leaves(Tree(map[])), paths, cells)
    ensures cells == []
  {
    if cells != [] {
      assert (paths[0], cells[0]) in Leaves(Tree(map[]));
    }
  }

  /** `training_parameters`: the store's tensors (`to_vec`) that require
      grad, in `to_vec` order.  A cell is listed exactly when it sits in the
      store and its tensor requires grad.  `all` and `paths` are what
      `to_vec` listed. */
  method TrainingParameters(d: StateDict) returns (r: seq<TensorCell>, all: seq<TensorCell>, ghost paths: seq<seq<string>>)
    requires d.Valid()
    ensures Enumerates(Leaves(d.Model()), paths, all)
    ensures |all| == |LeafPaths(d.Model())|
    ensures r == RequiringGrad(all)
    ensures forall c :: c in r <==> c in Cells(d.Model()) && c.value.requiresGrad
  {
    all, paths := d.ToVec();
    r := RequiringGrad(all);
  }

  /** `trainable_parameter_size`: how many tensors are being trained; never
      more than the store has leaves. */
  method TrainableParameterSize(d: StateDict) returns (n: nat, ghost all: seq<TensorCell>, ghost paths: seq<seq<string>>)
    requires d.Valid()
    ensures Enumerates(Leaves(d.Model()), paths, all)
    ensures n == |RequiringGrad(all)|
    ensures n <= |LeafPaths(d.Model())|
  {
    var r, cells;
    r, cells, paths := TrainingParameters(d);
    all := cells;
    n := |r|;
  }

  /** `load_trainable_parameters`: the module's store loads `source`, with
      the effect `load` has. */
  method LoadTrainableParameters(d: StateDict, source: StateDict, ghost W: set<TensorCell>)
    returns (ghost order: seq<(TensorCell, TensorCell)>, ghost from: map<TensorCell, TensorCell>)
    requires d.Valid() && source.Valid()
    requires LoadSafe(d.Model(), source.Model())
    requires forall pr | pr in d.LoadPairs(source) :: pr.0 != pr.1
    requires Written(d.LoadPairs(source)) + Read(d.LoadPairs(source)) <= W
    modifies W
    ensures Lists(order, old(d.LoadPairs(source)))
    ensures Contents(W) == Replay(old(Contents(W)), order)
    ensures Written(old(d.LoadPairs(source))) !! Read(old(d.LoadPairs(source))) ==>
              CopiedAlong(old(d.LoadPairs(source)), old(Contents(W)), Contents(W), old(Contents(W)), from)
  {
    order, from := d.Load(source, W);
  }

  /* ---------------------------------------------------------------------
     Freezing
     --------------------------------------------------------------------- */

  /** Every tensor of the store gets its flag set to `flag` (each cell once
      for every path it sits at); contents and devices stay, and so does
      the store itself.  `all` is what `to_vec` listed. */
  method SetRequiresGradAll(d: StateDict, flag: bool) returns (ghost all: seq<TensorCell>)
    requires d.Valid()
    modifies Cells(d.Model())
    ensures d.Valid() && d.Model() == old(d.Model())
    ensures forall c :: c in all <==> c in Cells(d.Model())
    ensures forall c | c in Cells(d.Model()) ::
      c.value == SetRequiresGrad(old(Contents(Cells(d.Model())))[c], flag)
  {
    ghost var t := d.Model();
    ghost var before := Contents(Cells(t));
    ghost var paths;
    var cells;
    cells, paths := d.ToVec();
    for i := 0 to |cells|
      invariant forall c | c in Cells(t) ::
        c.value == if c in cells[..i] then SetRequiresGrad(before[c], flag) else before[c]
    {
      var cell := cells[i];
      cell.value := SetRequiresGrad(cell.value, flag);
      assert forall c :: c in cells[..i + 1] <==> c in cells[..i] || c == cell;
    }
    assert cells[..|cells|] == cells;
    all := cells;
  }

  /** `freeze`: no tensor of the store requires grad any more; their
      contents and devices are kept. */
  method Freeze(d: StateDict) returns (ghost all: seq<TensorCell>)
    requires d.Valid()
    modifies Cells(d.Model())
    ensures d.Valid() && d.Model() == old(d.Model())
    ensures forall c | c in Cells(d.Model()) ::
      && !c.value.requiresGrad
      && c.value.data == old(Contents(Cells(d.Model())))[c].data
      && c.value.device == old(Contents(Cells(d.Model())))[c].device
    ensures forall c :: c in all <==> c in Cells(d.Model())
  {
    all := SetRequiresGradAll(d, false);
  }

  /** `unfreeze`: every tensor of the store requires grad; their contents
      and devices are kept. */
  method Unfreeze(d: StateDict) returns (ghost all: seq<TensorCell>)
    requires d.Valid()
    modifies Cells(d.Model())
    ensures d.Valid() && d.Model() == old(d.Model())
    ensures forall c | c in Cells(d.Model()) ::
      && c.value.requiresGrad
      && c.value.data == old(Contents(Cells(d.Model())))[c].data
      && c.value.device == old(Contents(Cells(d.Model())))[c].device
    ensures forall c :: c in all <==> c in Cells(d.Model())
  {
    all := SetRequiresGradAll(d, true);
  }

  /** After `freeze`, `training_parameters` lists nothing: every cell an
      enumeration of the store lists no longer requires grad. */
  lemma FrozenTrainsNothing(t: Tree, paths: seq<seq<string>>, all: seq<TensorCell>)
    requires Enumerates(Leaves(t), paths, all)
    requires forall c | c in Cells(t) :: !c.value.requiresGrad
    ensures RequiringGrad(all) == []
  {
    EnumeratedCells(t, paths, all);
    NoneRequireGrad(all);
  }

  /** After `unfreeze`, `training_parameters` lists every tensor `to_vec`
      does, in the same order. */
  lemma UnfrozenTrainsAll(t: Tree, paths: seq<seq<string>>, all: seq<TensorCell>)
    requires Enumerates(Leaves(t), paths, all)
    requires forall c | c in Cells(t) :: c.value.requiresGrad
    ensures RequiringGrad(all) == all
  {
    EnumeratedCells(t, paths, all);
    AllRequireGrad(all);
  }

  /** `NonParameterModule`: the store is new and empty, so nothing is
      trained. */
  method NonParameterTrainableParameters() returns (d: StateDict)
    ensures fresh(d) && d.Valid() && d.Model() == Tree(map[])
  {
    d := new StateDict();
  }

  /** A module without parameters trains nothing and has size 0: the empty
      store enumerates to no cells. */
  lemma NonParameterTrainsNothing(paths: seq<seq<string>>, all: seq<TensorCell>)
    requires Enumerates(Leaves(Tree(map[])), paths, all)
    ensures RequiringGrad(all) == [] && |RequiringGrad(all)| == 0
  {
    EmptyEnumeration(paths, all);
  }

  /* ---------------------------------------------------------------------
     Moving to a device
     --------------------------------------------------------------------- */

  /** One tensor moved to `device` with its own flag put back. */
  function Moved(t: Tensor, device: Device): (r: Tensor)
    ensures r.data == t.data && r.device == device && r.requiresGrad == t.requiresGrad
  {
    SetRequiresGrad(MoveTo(t, device), t.requiresGrad)
  }

  /** Moving again to the same device changes nothing: a cell listed twice
      ends as if moved once. */
  lemma MovedTwice(t: Tensor, device: Device)
    ensures Moved(Moved(t, device), device) == Moved(t, device)
  {
  }

  /** `to`: every listed tensor is moved to `device`, keeping its contents
      and its requires-grad flag.  `params` is what `all_parameters`
      returned. */
  method To(params: seq<TensorCell>, device: Device)
    modifies set c | c in params
    ensures forall c | c in params ::
      c.value.data == old(c.value.data) && c.value.device == device &&
      c.value.requiresGrad == old(c.value.requiresGrad)
  {
    for i := 0 to |params|
      invariant forall c | c in params ::
        c.value == if c in params[..i] then Moved(old(c.value), device) else old(c.value)
    {
      var cell := params[i];
      MovedTwice(old(cell.value), device);
      cell.value := Moved(cell.value, device);
      assert forall c :: c in params[..i + 1] <==> c in params[..i] || c == cell;
    }
    assert params[..|params|] == params;
  }
}
