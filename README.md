# raddar parameter store, modelled in Dafny

raddar is a neural-network library whose modules keep their tensors in a
hierarchical parameter store, the `StateDict`. A store node maps local names
either to a shared, lockable tensor cell (a leaf) or to a child node. Each
node also has a weak back-link to its parent and a name, and it reports its
dotted path from `"root"`. This project models:

- the store: `new`, `from_map` (build a tree from flat dotted keys),
  `append_child`, `path`, `tensor`, `child_state_dict`, `load`, `to_map`,
  `to_vec`, and the sorted key order of its `Display`;
- the parameter services every trainable module inherits: the training
  parameters and their count, loading, freezing and unfreezing, moving to a
  device, and the empty store of a module without parameters;
- `Sequential`: its store with one child per module named by position, its
  tensor list, and its forward pass;
- the batching iterator of `SimpleDataset`.

The model works on two levels:

- **Value level.** A `Tree` is a map from names to `Leaf(cell)` or
  `Child(tree)`. Its specification functions live in module `Trees`:
  - `Build(m)` states what `from_map` must produce;
  - `Leaves(t)` is the set of (path, cell) pairs;
  - `Flat` gives those pairs with dotted keys.
- **Heap level.** `StateDict` is a class with the source's fields: `name`,
  `parent` and `parameters`, plus a ghost footprint `Repr`. Its methods
  change these in place. Each method is proved against the value level
  through `Model()`. The source never sets a child's `name` (see
  Findings). `AppendChildAsWritten` models that as written. `AppendChild`,
  `from_map` and `Sequential`'s store record the key as the child's name,
  which is the corrected behaviour.

Tensor cells are objects (`TensorCell`), so aliasing between stores is
visible. A tensor is a value holding opaque data, a device and the
requires-grad flag; no numerics are modelled.

The hash-map iteration order of the source is left open. Each loop picks any
remaining key (`:|`). Consequently:

- `to_map` is specified by `Realizes`: when two leaves flatten to the same
  key, either one may win;
- `to_vec` is specified by `Enumerates`: each leaf is listed once, in any
  order;
- `load` is specified by `Replay`: its copies are made one after another,
  in some order that lists the load's (target cell, source cell) pairs. When
  no cell is both written and read, the order does not matter and the result
  is `CopiedAlong`: a target cell reachable from several paths ends with one
  of its partners' contents.

The ordered `BTreeMap` that `from_map` walks is `KeyOrder.SortedKeys`.

## Model

| member | source | states |
|---|---|---|
| StateDicts.StateDict.constructor | src/core/state_dict.rs:39-48 | a new node has no entries, the empty name and no parent, and is valid and linked |
| StateDicts.StateDict.FromMap | src/core/state_dict.rs:54-97 | the node built from a flat map stands for `Build(m)`: undotted keys become leaves; the dotted keys sharing a first segment become one child, built the same way from the keys without that segment; a child wins over a leaf of the same name. Every child's back-link points to its parent. Each child's name is recorded (see Findings) |
| StateDicts.StateDict.Collect | src/core/state_dict.rs:56-94 | walking the keys in ascending order and attaching the last collected child at the end yields entries whose tree is `Build(m)` |
| StateDicts.StateDict.ScanKey | src/core/state_dict.rs:60-86 | one key of the walk keeps the invariant: the entries so far, plus the child still being collected, are `Build` of the keys seen |
| StateDicts.StateDict.Attach | src/core/state_dict.rs:87-94 | the collected child is built and put under its name, with its back-link to the new node; nothing else changes. The child's name is recorded (see Findings) |
| Building.ScanLeaf | src/core/state_dict.rs:63-64 | an undotted key adds a leaf. Because keys arrive in order, a pending child of the same name is still built later and overrides it |
| Building.ScanDottedSame | src/core/state_dict.rs:73-84 | a dotted key with the current first segment joins the pending child map |
| Building.ScanDottedNew | src/core/state_dict.rs:66-84 | a dotted key with a new first segment closes the pending child and starts a new one |
| Trees.BuildDotFree | src/core/state_dict.rs:61-84 | every name in a built tree, at every depth, is a first segment and so holds no dot |
| Trees.BuildLosesPrefix | src/core/state_dict.rs:63-70 | a key that is a segment-prefix of another key (`a` next to `a.b`) appears in no flattened pair of the built tree |
| Trees.FlatOfBuild | src/core/state_dict.rs:54-97 | where each flattened pair of a built tree comes from: an undotted key of the map with its own cell, or a pair of the child built for its first segment |
| Trees.RoundTrip | src/core/state_dict.rs:54-175 | flattening `from_map(m)` gives back exactly the pairs of `m` if and only if no key of `m` is a segment-prefix of another |
| DottedKeys.JoinSplit | src/core/state_dict.rs:61-84 | joining the pieces of `split(".")` with dots gives back the key |
| DottedKeys.SplitJoin | src/core/state_dict.rs:61-84 | splitting a join of dot-free pieces gives back the pieces |
| DottedKeys.KeyParts | src/core/state_dict.rs:61-84 | a dotted key is its first segment, a dot and its child key; the first segment holds no dot |
| DottedKeys.ChildKeyInjective | src/core/state_dict.rs:61-84 | two dotted keys with the same first segment and the same child key are equal, so no pair is lost when keys move into a child map |
| KeyOrder.SortedKeys | src/core/state_dict.rs:56-60 | the keys come out strictly ascending, each key of the set exactly once |
| StateDicts.StateDict.AppendChild | src/core/state_dict.rs:99-105 | the child is stored under the name, replacing any entry there, and its back-link points to this node; the tree gains `Child(child's tree)` under the name and nothing else. The child's name is recorded (see Findings) |
| StateDicts.StateDict.AppendChildAsWritten | src/core/state_dict.rs:99-105 | `append_child` as written: the entries change as in `AppendChild` and the back-link points here, but the child keeps its old name (see Findings) |
| StateDicts.HeapRoundTrip | src/core/state_dict.rs:54-175 | `from_map` followed by `to_map` returns the original map if and only if no key of it is a segment-prefix of another |
| Trees.RealizedBuild | src/core/state_dict.rs:159-175 | a `to_map` result of the tree built from `m` equals `m` only when that tree flattens to the pairs of `m` |
| StateDicts.StateDict.Path | src/core/state_dict.rs:109-115 | `"root"` for a node without parent; otherwise the names from the root down, each after a dot |
| StateDicts.PathOfSplit | src/core/state_dict.rs:109-115 | with dot-free names, the path splits back into `"root"` followed by the names |
| StateDicts.PathOfInjective | src/core/state_dict.rs:109-115 | two nodes reached through different chains of dot-free names have different paths, and vice versa |
| StateDicts.PathAsWritten | src/core/state_dict.rs:109-115 | with every name left empty, a node's path is `"root"` followed by one dot per level |
| StateDicts.AsWrittenPathsCollide | src/core/state_dict.rs:99-105 | as written, the root's children `a` and `b` both report `"root."`, while the paths with recorded names differ |
| StateDicts.PathOfBlank | src/core/state_dict.rs:109-115 | when every name is the empty name `new` gives, the path is `"root"` followed by one dot per level |
| StateDicts.AsWrittenSiblingPaths | src/core/state_dict.rs:99-115 | as written, two new nodes appended to a new root under `a` and `b` both report the path `"root."` (see Findings) |
| StateDicts.SiblingPaths | src/core/state_dict.rs:99-115 | with the names recorded, those two nodes report `"root.a"` and `"root.b"` |
| StateDicts.StateDict.LookupTensor | src/core/state_dict.rs:121-126 | `Ok(cell)` exactly when a leaf sits under the key, and it is that leaf's cell. Otherwise the error is `NoSuchParameter` with the key and this node's path |
| StateDicts.StateDict.LookupChild | src/core/state_dict.rs:128-137 | `Ok(child)` exactly when a child sits under the name, and it is that child, valid with that subtree. Otherwise the error is `NoSuchModule` with the name and this node's path |
| StateDicts.StateDict.Load | src/core/state_dict.rs:139-157 | the contents afterwards are the copies along the leaf-over-leaf pairs at the same path, made one after another in some order that lists every pair; each copy takes the source cell's current contents and keeps the target's device and flag. No pair may copy a cell onto itself. When no cell is both written and read, every target cell ends with one of its partners' original contents and every other cell keeps its own |
| StateDicts.StateDict.LoadEntries | src/core/state_dict.rs:140-156 | the loop over the source's entries makes, one entry after another, copies that list all the load's pairs |
| StateDicts.StateDict.LoadEntry | src/core/state_dict.rs:141-155 | one source entry: leaf over leaf makes one copy, child over child recurses, anything else makes no copy |
| Loading.CopyPairsPositional | src/core/state_dict.rs:139-157 | load copies from source cell `sc` into target cell `tc` exactly when both are leaves at the same path |
| Loading.CopyPairsAreLeaves | src/core/state_dict.rs:139-157 | only target leaves are written and only source leaves are read |
| Loading.ChildLoad | src/core/state_dict.rs:151-153 | loading a child from the source's child of the same name stays within the whole load's pairs and keeps its safety condition |
| Loading.LoadStep | src/core/state_dict.rs:140-156 | the copies for one more source entry, made after those for the entries already visited, list the pairs of all the entries visited so far |
| Loading.ReplayAppend | src/core/state_dict.rs:140-156 | making the copies of one order and then those of another is making the copies of both orders end to end |
| Loading.ReplayDisjoint | src/core/state_dict.rs:139-157 | when no cell is both written and read, copies made in any order leave every target cell with one of its partners' original contents and every other cell unchanged |
| Loading.CrossingLoadPairs | src/core/state_dict.rs:139-157 | the target `{a: c1, b: c2}` loaded from `{a: c2, b: c3}` copies along `(c1, c2)` and `(c2, c3)`, so `c2` is both written and read, and either visiting order lists the pairs |
| Loading.CrossingLoadDependsOnOrder | src/core/state_dict.rs:139-157 | in that load, visiting `a` first leaves `c1` with the old contents of `c2`, and visiting `b` first leaves it with those of `c3` |
| Tensors.CopyFrom | src/core/state_dict.rs:146-148 | `copy_` takes the source's contents and keeps the target's device and requires-grad flag |
| Tensors.CopyFromTwice | src/core/state_dict.rs:146-148 | a later copy into the same cell overrides an earlier one |
| StateDicts.StateDict.ToMap | src/core/state_dict.rs:159-175 | every key of the result is a leaf's path joined with dots, holding that leaf's cell, and every leaf's joined path is a key |
| StateDicts.StateDict.ToMapEntry | src/core/state_dict.rs:162-171 | one entry: a leaf is stored under its name, a child's flat map under the name, a dot and each key |
| StateDicts.StorePrefixed | src/core/state_dict.rs:167-170 | each key of the child's map is stored under the prefix and a dot, and every other key keeps its value |
| Trees.RealizesUnique | src/core/state_dict.rs:159-175 | when the pairs name each key once, the flat map is determined by them |
| Trees.FlatFunctional | src/core/state_dict.rs:159-175 | in a dot-free tree, distinct leaves flatten to distinct keys |
| StateDicts.StateDict.ToVec | src/core/state_dict.rs:177-191 | the list holds one cell per leaf, each at a distinct path, with every leaf's path present; its cells are exactly the store's cells and its length is the number of leaf paths |
| StateDicts.StateDict.Enumerate | src/core/state_dict.rs:177-191 | the loop over the entries yields one cell per leaf, each at a distinct path, with every leaf's path present |
| StateDicts.StateDict.ToVecEntry | src/core/state_dict.rs:180-188 | one entry: a leaf's cell is pushed, and a child's list is appended under the child's name |
| Trees.EnumeratedPaths | src/core/state_dict.rs:177-191 | the length of `to_vec` equals the number of leaf paths |
| Trees.FlatAndEnumerationAgree | src/core/state_dict.rs:159-191 | in a dot-free tree, `to_map` has as many keys as `to_vec` has cells |
| StateDicts.StateDict.DisplayKeys | src/core/state_dict.rs:194-212 | `Display` lists a node's keys strictly ascending, each exactly once |
| Trainables.RequiringGrad | src/nn/module.rs:8-14 | the filter keeps a cell exactly when it is listed and its tensor requires grad; the result is never longer than the input |
| Trainables.TrainingParameters | src/nn/module.rs:8-14 | the result is `to_vec` filtered by the flag, so a cell is listed exactly when it is in the store and requires grad |
| Trees.EnumeratedCells | src/nn/module.rs:8-14 | the cells `to_vec` lists are exactly the cells of the store's leaves |
| Trainables.NoneRequireGrad | src/nn/module.rs:8-14 | with every flag cleared the filter keeps nothing |
| Trainables.AllRequireGrad | src/nn/module.rs:8-14 | with every flag set the filter keeps every cell, in order |
| Trainables.TrainableParameterSize | src/nn/module.rs:17-19 | the size is the length of the filtered list, at most the number of leaves |
| Trainables.LoadTrainableParameters | src/nn/module.rs:22-24 | the module's store loads the given store, with the effect `load` has: the copies along its pairs in some order, and the order-free result when no cell is both written and read |
| Trainables.SetRequiresGradAll | src/nn/module.rs:44-61 | every cell of the store gets the given flag, its data and device kept; the store itself is unchanged |
| Trainables.Freeze | src/nn/module.rs:44-51 | afterwards no cell of the store requires grad, and contents and devices are kept |
| Trainables.Unfreeze | src/nn/module.rs:54-61 | afterwards every cell of the store requires grad, and contents and devices are kept |
| Trainables.FrozenTrainsNothing | src/nn/module.rs:44-51 | after `freeze`, `training_parameters` is empty |
| Trainables.UnfrozenTrainsAll | src/nn/module.rs:54-61 | after `unfreeze`, `training_parameters` is all of `to_vec` |
| Trainables.Moved | src/nn/module.rs:64-72 | a moved tensor keeps its data and its flag and sits on the new device |
| Trainables.MovedTwice | src/nn/module.rs:64-72 | moving twice to a device is moving once |
| Trainables.To | src/nn/module.rs:64-72 | every listed cell ends on the device with its data and requires-grad flag kept, even when listed more than once |
| Tensors.MoveTo | src/nn/module.rs:69 | under `no_grad` the moved tensor keeps its contents and sits on the device. A tensor already on the device comes back unchanged, flag included; a copy made on another device does not require grad |
| Tensors.SetRequiresGrad | src/nn/module.rs:48 | only the flag changes |
| Trainables.NonParameterTrainableParameters | src/nn/module.rs:95-98 | a module without parameters hands out a new, empty store |
| Trainables.NonParameterTrainsNothing | src/nn/module.rs:95-98 | such a module trains nothing and has size 0 |
| Trainables.EmptyEnumeration | src/nn/module.rs:95-98 | `to_vec` of an empty store is empty |
| Sequentials.TrainableParameters | src/nn/sequential.rs:34-41 | the new store holds module `i`'s store under the decimal name of `i`, for every `i`, and nothing else. Each module store points back to it and, when the stores are distinct, is named by its position (see Findings). The module stores keep their trees |
| Sequentials.AppendAt | src/nn/sequential.rs:36-39 | one step of that loop adds position `i` and disturbs no other module's store; the module's store is named by its position (see Findings) |
| Sequentials.IndexedEntries | src/nn/sequential.rs:34-41 | the keys of the store are exactly the names of `0..n-1`, each holding its own module's tree, so no entry is overwritten; there are `n` entries |
| Sequentials.NamesDistinct | src/nn/sequential.rs:38 | the first `n` position names are `n` different names, and no later position reuses one |
| Decimals.Decimal | src/nn/sequential.rs:38 | `to_string` of a number is a non-empty run of digits without a leading zero |
| Decimals.ValueOfDecimal | src/nn/sequential.rs:38 | reading the numeral back gives the number |
| Decimals.DecimalInjective | src/nn/sequential.rs:38 | different positions get different names, and no name holds a dot |
| Sequentials.AllParameters | src/nn/sequential.rs:43-49 | the result is the modules' tensor lists end to end, in module order |
| Sequentials.ConcatAppend | src/nn/sequential.rs:43-49 | concatenating two runs of modules' lists is concatenating their results |
| Sequentials.ConcatMembers | src/nn/sequential.rs:43-49 | a tensor is in the result exactly when it is in some module's list |
| Sequentials.Forward | src/nn/sequential.rs:53-59 | the output is the modules applied in list order to the input |
| Sequentials.RunAppend | src/nn/sequential.rs:53-59 | running two lists of modules one after the other is running their concatenation |
| Sequentials.RunFirst | src/nn/sequential.rs:63-68 | `seq!(f, ...)` applies its first argument first and the rest to its output; with no argument the input comes back |
| Datasets.DatasetIterator.constructor | src/dataset/dataset.rs:28-33 | `iter` starts at position 0 of the dataset |
| Datasets.End | src/dataset/dataset.rs:68-71 | a batch starting before `size` ends after its start when the batch size is positive, and never past `size` |
| Datasets.DatasetIterator.Next | src/dataset/dataset.rs:64-76 | `None` exactly when the position has reached `size`, leaving the position unchanged. Otherwise the result is the input and label slices from the position to `min(position + batch size, size)`, of equal length, and the position moves there. It never passes `size` and strictly increases for a positive batch size. It hands out the head of `Batches` and leaves the rest |
| Datasets.BatchesCover | src/dataset/dataset.rs:64-76 | the batches from a position, end to end, are the inputs, and separately the labels, from that position up to `size` |
| Datasets.BatchShapes | src/dataset/dataset.rs:64-76 | each batch has as many labels as inputs; all batches but the last hold exactly the batch size, and the last between one and the batch size |

## Left out

- Tensor numerics, autograd, `init` and `zero_grad`, and the `Debug` text of a tensor in `Display`: floating point and foreign library calls. A tensor is opaque data with a device and a flag.
- Locks: `RwLock`/`Mutex` acquisition, poisoning and concurrent callers are not modelled. A lock that would deadlock is a precondition instead: `load` must not copy a cell onto itself, since it locks the target cell and then the source cell (`pr.0 != pr.1` for every copy pair).
- The weak parent link failing to upgrade (parent dropped): `Path` takes the chain of ancestors as a ghost argument, and a node without a parent reports `"root"`.
- Hash-map iteration order: loops over a hash map pick any remaining key, and results are stated for every order.
- StateDicts.StateDict.Load: requires that the source holds a child wherever the target holds a child under the same name (`LoadSafe`). In the source, a source leaf facing a target child reaches an `unwrap` of a failed lookup (src/core/state_dict.rs:152) and panics; the model follows the code rather than a "skip on mismatch" reading.
- Trainables.LoadTrainableParameters: carries the same precondition as `Load`, for the same reason.
- StateDicts.StateDict.Load: the copies are stated to happen one after another in some order that lists the copy pairs. The model does not state that this order follows the walk of the source's hash maps, or that it copies each common leaf path exactly once. Where a cell is both written and read, the result is stated only up to that order.
- StateDicts.StateDict.AppendChild: requires that this node is not inside the child's footprint. The source also accepts appending a node's own ancestor (or the node itself) as its child. The result is a cycle, and `path`, `to_map` and `to_vec` then recurse without end. `AppendChildAsWritten` carries the same requirement.
- StateDicts.StateDict.ToMap: states which pairs the map holds, not which of two leaves flattening to the same key wins, because that depends on hash order. In a dot-free tree, which every tree `from_map` builds is, no two leaves collide, and `RealizesUnique` pins the result down.
- Trees.RoundTrip: `to_map` is a left inverse of `from_map` only for maps where no key is a segment-prefix of another. With `a` and `a.b` both present, the child `a` replaces the leaf `a`, and `RoundTrip` states exactly that.
- Sequentials.TrainableParameters: names each module store by its position only when the stores are distinct objects; a store handed out twice keeps the last name.
- Datasets.DatasetIterator.Next: requires that the slices exist (`InBounds`), since slicing past the end of `inputs` or `labels` panics. `index + batch_size` is unbounded here; a `usize` overflow is not modelled. With a batch size of 0, `next` hands out empty batches forever, and `Batches` is stated for positive batch sizes only.
- The modules inside a `Sequential` are not modelled: their stores, tensor lists and forward functions are parameters. The default `all_parameters` (src/nn/module.rs:30-32) is `ToVec` of the module's store.
- `image_dataset.rs` and the layer catalogue (convolutions, ResNet, DenseNet, AlexNet, activation functions) are not part of this model.

## Findings

| source | as written | input that shows it | evidently intended | confidence | as-written member | corrected member |
|---|---|---|---|---|---|---|
| src/core/state_dict.rs:99-105 | `append_child` (and `from_map` at lines 69 and 89) sets only the child's back-link. A node's `name` keeps the `""` that `new` gives it (line 41), so `path` of a nested node is `"root"` followed by bare dots | a root with children `a` and `b`: both report the path `"root."`, and a lookup error in either names the same path | record the key as the child's name when attaching, so that the path is `"root.a"`; with dot-free names, paths then identify nodes | not executed | StateDicts.AsWrittenSiblingPaths | StateDicts.PathOfInjective |
