/** The labelling the segmentation starts from. */
module Initialisation {
  import opened Grid
  import opened Connectivity
  import opened LabelInvariants

  /** The labelling before propagation: background pixels get 0, every
      foreground pixel its own index + 1. */
  predicate Initial(img: Image, labels: seq<int>)
    requires Valid(img)
  {
    && |labels| == Size(img)
    && forall k {:trigger labels[k]} :: 0 <= k < |labels| ==>
         (labels[k] == 0 <==> Primary(img, k) == 0) && (labels[k] != 0 ==> labels[k] == k + 1)
  }

  /** The initial labelling as a value. */
  function InitialOf(img: Image): (labels: seq<int>)
    requires Valid(img)
    ensures Initial(img, labels) && InRange(labels)
  {
    var labels := seq(Size(img), k requires 0 <= k < Size(img) => if Primary(img, k) == 0 then 0 else k + 1);
    InitialInv(img, 0, labels);
    labels
  }

  /** `Initial` pins the labelling down: it is `InitialOf`. */
  lemma InitialUnique(img: Image, labels: seq<int>)
    requires Valid(img) && Initial(img, labels)
    ensures labels == InitialOf(img)
  {
    var l := InitialOf(img);
    assert forall k :: 0 <= k < |labels| ==> labels[k] == l[k];
  }

  /** The initialisation loop, row by row. */
  method InitialLabels(img: Image) returns (labels: seq<int>)
    requires Valid(img)
    ensures Initial(img, labels)
    ensures labels == InitialOf(img)
  {
    labels := [];
    var i := 0;
    while i < img.height
      invariant 0 <= i <= img.height
      invariant |labels| == Mul(i, img.width) <= Size(img)
      invariant forall k {:trigger labels[k]} :: 0 <= k < |labels| ==>
        (labels[k] == 0 <==> Primary(img, k) == 0) && (labels[k] != 0 ==> labels[k] == k + 1)
    {
      MulMonotone(i + 1, img.height, img.width);
      var j := 0;
      while j < img.width
        invariant 0 <= j <= img.width
        invariant |labels| == Mul(i, img.width) + j <= Size(img)
        invariant forall k {:trigger labels[k]} :: 0 <= k < |labels| ==>
          (labels[k] == 0 <==> Primary(img, k) == 0) && (labels[k] != 0 ==> labels[k] == k + 1)
      {
        var idx := Idx(img, i, j);
        var v := 0;
        if Primary(img, idx) != 0 {
          v := idx + 1;
        }
        labels := labels + [v];
        j := j + 1;
      }
      i := i + 1;
      MulMonotone(i, img.height, img.width);
    }
    InitialUnique(img, labels);
  }

  /** The initial labelling satisfies the propagation invariant: every
      foreground pixel is its own root. */
  lemma InitialInv(img: Image, t: int, labels: seq<int>)
    requires Valid(img) && Initial(img, labels)
    ensures Inv(img, t, labels)
  {
    forall k | 0 <= k < |labels| && labels[k] != 0
      ensures Connected(img, t, k, labels[k] - 1)
    {
      ConnectedRefl(img, t, k);
    }
  }

}
