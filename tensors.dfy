/** Tensors as the parameter store sees them: an opaque value with a
    requires-grad flag, held in a shared, lockable cell.  The numerics of
    the tensor library are not modelled; only what the store and the
    parameter-flag logic observe is. */
module Tensors {

  /** Where a tensor lives. */
  datatype Device = Cpu | Cuda(ordinal: nat)

  /** A tensor value.  `data` stands for the contents, which the model never
      interprets; `requiresGrad` is the trainability flag. */
  datatype Tensor = Tensor(data: seq<real>, device: Device, requiresGrad: bool)

  /** `set_requires_grad(flag)`: the same contents on the same device, with
      the flag replaced. */
  function SetRequiresGrad(t: Tensor, flag: bool): (r: Tensor)
    ensures r.data == t.data && r.device == t.device
    ensures r.requiresGrad == flag
  {
    t.(requiresGrad := flag)
  }

  /** `dst.copy_(src)`: the contents of `src` written into `dst`, which keeps
      its own device and its own requires-grad flag. */
  function CopyFrom(dst: Tensor, src: Tensor): (r: Tensor)
    ensures r.data == src.data
    ensures r.device == dst.device && r.requiresGrad == dst.requiresGrad
  {
    dst.(data := src.data)
  }

  /** `t.to(device)` under `no_grad`: the same contents placed on `device`.
      A tensor already on `device` comes back as it is, flag and all; a
      copy made on another device is not tracked and does not require grad,
      so callers restore the flag. */
  function MoveTo(t: Tensor, device: Device): (r: Tensor)
    ensures r.data == t.data && r.device == device
    ensures t.device == device ==> r == t
    ensures t.device != device ==> !r.requiresGrad
  {
    if t.device == device then t else Tensor(t.data, device, false)
  }

  /** A later copy overwrites an earlier one: copying twice into the same
      destination is the same as copying the second source once. */
  lemma CopyFromTwice(dst: Tensor, a: Tensor, b: Tensor)
    ensures CopyFrom(CopyFrom(dst, a), b) == CopyFrom(dst, b)
  {
  }

  /** A shared tensor cell (`Arc<Mutex<Tensor>>`).  Every holder of the same
      cell sees every write made through any other holder. */
  class TensorCell {
    var value: Tensor

    constructor (t: Tensor)
      ensures value == t
    {
      value := t;
    }
  }

  /** The current contents of some cells. */
  ghost function Contents(cells: set<TensorCell>): (m: map<TensorCell, Tensor>)
    reads cells
    ensures m.Keys == cells
    ensures forall c | c in cells :: m[c] == c.value
  {
    map c | c in cells :: c.value
  }
}
