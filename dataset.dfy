/** A dataset of inputs and labels served in batches: an iterator holds a
    position and each step hands out the next slice of at most
    `batchSize` inputs and the matching labels, up to `size`. */
module Datasets {

  datatype Option<T> = None | Some(value: T)

  /** `SimpleDataset`: the inputs, their labels, how many of them to serve
      and how many to a batch. */
  datatype SimpleDataset<T> = SimpleDataset(inputs: seq<T>, labels: seq<T>, size: nat, batchSize: nat)

  function Min(a: nat, b: nat): (m: nat)
    ensures m <= a && m <= b && (m == a || m == b)
  {
    if a < b then a else b
  }

  /** Where the batch starting at `index` ends. */
  function End<T>(ds: SimpleDataset<T>, index: nat): (e: nat)
    ensures index < ds.size ==> index < e || ds.batchSize == 0
    ensures e <= ds.size || e == index
  {
    if index >= ds.size then index else Min(index + ds.batchSize, ds.size)
  }

  /** The slices the batch starting at `index` takes exist (slicing past the
      end of `inputs` or `labels` panics). */
  predicate InBounds<T>(ds: SimpleDataset<T>, index: nat)
  {
    index >= ds.size || (End(ds, index) <= |ds.inputs| && End(ds, index) <= |ds.labels|)
  }

  /** The batches still to come from position `index`, each an (inputs,
      labels) pair.  With a batch size of 0 there would be no end, so the
      batch size must be positive here. */
  ghost function Batches<T>(ds: SimpleDataset<T>, index: nat): (bs: seq<(seq<T>, seq<T>)>)
    requires ds.batchSize > 0
    requires ds.size <= |ds.inputs| && ds.size <= |ds.labels|
    decreases ds.size - index
  {
    if index >= ds.size then []
    else
      var e := End(ds, index);
      [(ds.inputs[index..e], ds.labels[index..e])] + Batches(ds, e)
  }

  /** The inputs of a run of batches, end to end. */
  ghost function InputsOf<T>(batches: seq<(seq<T>, seq<T>)>): seq<T>
  {
    if batches == [] then [] else batches[0].0 + InputsOf(batches[1..])
  }

  /** The labels of a run of batches, end to end. */
  ghost function LabelsOf<T>(batches: seq<(seq<T>, seq<T>)>): seq<T>
  {
    if batches == [] then [] else batches[0].1 + LabelsOf(batches[1..])
  }

  /** Iterating from `index` serves every input and label from `index` up to
      `size`, each once and in order. */
  lemma {:induction false} BatchesCover<T>(ds: SimpleDataset<T>, index: nat)
    requires ds.batchSize > 0
    requires ds.size <= |ds.inputs| && ds.size <= |ds.labels|
    requires index <= ds.size
    ensures InputsOf(Batches(ds, index)) == ds.inputs[index..ds.size]
    ensures LabelsOf(Batches(ds, index)) == ds.labels[index..ds.size]
    decreases ds.size - index
  {
    if index < ds.size {
      var e := End(ds, index);
      var bs := Batches(ds, index);
      BatchesCover(ds, e);
      assert bs[1..] == Batches(ds, e);
      assert ds.inputs[index..ds.size] == ds.inputs[index..e] + ds.inputs[e..ds.size];
      assert ds.labels[index..ds.size] == ds.labels[index..e] + ds.labels[e..ds.size];
    }
  }

  /** Every batch pairs as many inputs as labels; all hold exactly
      `batchSize` of them except the last, which holds between one and
      `batchSize`. */
  lemma {:induction false} BatchShapes<T>(ds: SimpleDataset<T>, index: nat)
    requires ds.batchSize > 0
    requires ds.size <= |ds.inputs| && ds.size <= |ds.labels|
    ensures forall i | 0 <= i < |Batches(ds, index)| ::
      |Batches(ds, index)[i].0| == |Batches(ds, index)[i].1|
      && 1 <= |Batches(ds, index)[i].0| <= ds.batchSize
      && (i < |Batches(ds, index)| - 1 ==> |Batches(ds, index)[i].0| == ds.batchSize)
    decreases ds.size - index
  {
    if index < ds.size {
      var e := End(ds, index);
      BatchShapes(ds, e);
      var bs := Batches(ds, index);
      assert bs[1..] == Batches(ds, e);
      forall i | 0 <= i < |bs|
        ensures |bs[i].0| == |bs[i].1| && 1 <= |bs[i].0| <= ds.batchSize
        ensures i < |bs| - 1 ==> |bs[i].0| == ds.batchSize
      {
        if i > 0 {
          assert bs[i] == Batches(ds, e)[i - 1];
        } else if |bs| > 1 {
          assert e < ds.size;
        }
      }
    }
  }

  /** `DatasetIterator`: a dataset and the position of the next batch. */
  class DatasetIterator<T> {
    const dataset: SimpleDataset<T>
    var index: nat

    /** `iter`: an iterator at the start of the dataset. */
    constructor (dataset: SimpleDataset<T>)
      ensures this.dataset == dataset && index == 0
    {
      this.dataset := dataset;
      index := 0;
    }

    /** `next`: nothing once the position has reached `size`; otherwise the
        inputs and labels from the position up to `End`, and the position
        moves there.  The position never passes `size`, and with a positive
        batch size it strictly increases, so iteration stops. */
    method Next() returns (r: Option<(seq<T>, seq<T>)>)
      requires InBounds(dataset, index)
      modifies this
      ensures r.None? <==> old(index) >= dataset.size
      ensures r.None? ==> index == old(index)
      ensures r.Some? ==>
        && index == Min(old(index) + dataset.batchSize, dataset.size)
        && r.value == (dataset.inputs[old(index)..index], dataset.labels[old(index)..index])
        && |r.value.0| == |r.value.1| == index - old(index)
      ensures old(index) <= dataset.size ==> index <= dataset.size
      ensures r.Some? && dataset.batchSize > 0 ==> index > old(index)
      ensures dataset.batchSize > 0 && dataset.size <= |dataset.inputs| && dataset.size <= |dataset.labels| ==>
        && Batches(dataset, old(index)) == (if r.None? then [] else [r.value]) + Batches(dataset, index)
    {
      if index >= dataset.size {
        return None;
      }
      var end := Min(index + dataset.batchSize, dataset.size);
      var batch := dataset.inputs[index..end];
      var batchLabels := dataset.labels[index..end];
      index := end;
      r := Some((batch, batchLabels));
    }
  }
}
