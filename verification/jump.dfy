/** Pass B, the pointer-jumping pass: every foreground pixel takes the
    larger of its label and the label of the pixel its label refers to.
    The rows are visited in order and each row left to right, which is one
    of the schedules the row-parallel loop may run. */
module PointerJump {
  import opened Grid
  import opened Connectivity
  import opened LabelInvariants

  /** One pointer jump at pixel `k` of the array `labels`. */
  function Jump(labels: seq<int>, k: int): (v: int)
    requires InRange(labels) && 0 <= k < |labels|
    ensures v == 0 <==> labels[k] == 0
    ensures labels[k] != 0 ==> v >= labels[k] && IsRef(labels, v)
  {
    if labels[k] == 0 then 0 else Max(labels[k], labels[labels[k] - 1])
  }

  /** Pass B's write at pixel `idx`: background pixels are left alone. */
  function JumpAt(labels: seq<int>, idx: int): (out: seq<int>)
    requires InRange(labels) && 0 <= idx < |labels|
    ensures |out| == |labels| && InRange(out)
    ensures Monotone(labels, out) && SameZeros(labels, out)
    ensures out[idx] == Jump(labels, idx)
    ensures forall m :: 0 <= m < |labels| && m != idx ==> out[m] == labels[m]
  {
    if labels[idx] == 0 then labels else Raise(labels, idx, Jump(labels, idx))
  }

  /** The jumping pass from pixel (`i`, `j`) on, in raster order; column
      `width` stands for "row done". */
  function JumpFrom(img: Image, labels: seq<int>, i: int, j: int): (out: seq<int>)
    requires Valid(img) && |labels| == Size(img) && InRange(labels)
    requires 0 <= i <= img.height && 0 <= j <= img.width
    ensures |out| == |labels| && InRange(out)
    ensures Monotone(labels, out) && SameZeros(labels, out)
    decreases img.height - i, img.width - j
  {
    if i == img.height then labels
    else if j == img.width then JumpFrom(img, labels, i + 1, 0)
    else
      var idx := Idx(img, i, j);
      var next := JumpAt(labels, idx);
      var out := JumpFrom(img, next, i, j + 1);
      MonotoneTrans(labels, next, out);
      out
  }

  /** The whole jumping pass over the image. */
  function JumpAll(img: Image, labels: seq<int>): seq<int>
    requires Valid(img) && |labels| == Size(img) && InRange(labels)
  {
    JumpFrom(img, labels, 0, 0)
  }

  /** The pixels before index `c` hold the pointer jump of `start`, the
      others still hold their entries of `start`. */
  predicate Jumped(start: seq<int>, labels: seq<int>, c: int) {
    && InRange(start)
    && |labels| == |start|
    && 0 <= c <= |start|
    && (forall k {:trigger labels[k]} :: 0 <= k < c ==> labels[k] == Jump(start, k))
    && (forall k {:trigger labels[k]} :: c <= k < |start| ==> labels[k] == start[k])
  }

  /** Jumping at index `c` reads only entries that still hold `start`, since
      labels of `start` never refer backwards. */
  lemma JumpPixel(img: Image, start: seq<int>, labels: seq<int>, i: int, j: int)
    requires Valid(img) && |start| == Size(img) && Forward(start) && InRange(labels)
    requires InGrid(img, i, j) && Jumped(start, labels, Idx(img, i, j))
    ensures Jumped(start, JumpAt(labels, Idx(img, i, j)), Idx(img, i, j) + 1)
  {
    var idx := Idx(img, i, j);
    if labels[idx] != 0 {
      var m := labels[idx] - 1;
      assert labels[idx] == start[idx] && idx <= m;
      assert labels[m] == start[m];
    }
  }

  /** The rest of the jumping pass completes the pointer jump of `start`. */
  lemma {:induction false} JumpFromSnapshot(img: Image, start: seq<int>, labels: seq<int>, i: int, j: int)
    requires Valid(img) && |start| == Size(img) && Forward(start) && InRange(labels)
    requires 0 <= i <= img.height && 0 <= j <= img.width && (i < img.height || j == 0)
    requires Jumped(start, labels, Mul(i, img.width) + j)
    ensures Jumped(start, JumpFrom(img, labels, i, j), |start|)
    decreases img.height - i, img.width - j, 1
  {
    if i == img.height {
    } else if j == img.width {
      assert Mul(i + 1, img.width) == Mul(i, img.width) + img.width;
      JumpFromSnapshot(img, start, labels, i + 1, 0);
    } else {
      JumpPixelThen(img, start, labels, i, j);
    }
  }

  /** The induction step of `JumpFromSnapshot`: jump at pixel (`i`, `j`), then the rest. */
  lemma {:induction false} JumpPixelThen(img: Image, start: seq<int>, labels: seq<int>, i: int, j: int)
    requires Valid(img) && |start| == Size(img) && Forward(start) && InRange(labels)
    requires InGrid(img, i, j) && Jumped(start, labels, Mul(i, img.width) + j)
    ensures Jumped(start, JumpFrom(img, labels, i, j), |start|)
    decreases img.height - i, img.width - j, 0
  {
    JumpPixel(img, start, labels, i, j);
    JumpFromSnapshot(img, start, JumpAt(labels, Idx(img, i, j)), i, j + 1);
    JumpFromUnfold(img, start, labels, i, j);
  }

  /** The pass from pixel (`i`, `j`) is the write at that pixel followed by
      the pass from the next pixel. */
  lemma JumpFromUnfold(img: Image, start: seq<int>, labels: seq<int>, i: int, j: int)
    requires Valid(img) && |labels| == Size(img) && InRange(labels) && InGrid(img, i, j)
    requires Jumped(start, JumpFrom(img, JumpAt(labels, Idx(img, i, j)), i, j + 1), |start|)
    ensures Jumped(start, JumpFrom(img, labels, i, j), |start|)
  {
  }

  /** The pointer jump keeps the propagation invariant: the referenced
      pixel's origin lies in that pixel's region, which is the jumping
      pixel's region. */
  lemma JumpInv(img: Image, t: int, labels: seq<int>, out: seq<int>)
    requires Inv(img, t, labels) && Jumped(labels, out, |labels|)
    ensures Inv(img, t, out)
  {
    forall k | 0 <= k < |out| && out[k] != 0
      ensures Connected(img, t, k, out[k] - 1)
    {
      var o := labels[k] - 1;
      assert Connected(img, t, k, o);
      if out[k] != labels[k] {
        assert out[k] == labels[o];
        assert Connected(img, t, o, labels[o] - 1);
        ConnectedTrans(img, t, k, o, labels[o] - 1);
      }
    }
    assert InRange(out) by {
      forall k, m | 0 <= k < |out| && 0 <= m < |out| && out[k] == m + 1
        ensures out[m] != 0
      {
        assert out[k] == Jump(labels, k);
      }
    }
    MonotoneForward(labels, out);
  }

  /** Pass B's results: while labels refer forwards, the raster-order pass
      computes the pointer jump of the array it started from, which is the
      label of the referenced pixel; labels keep referring forwards and the
      invariant is kept. */
  lemma JumpAllProperties(img: Image, t: int, labels: seq<int>)
    requires Valid(img) && |labels| == Size(img) && InRange(labels) && Forward(labels)
    ensures var out := JumpAll(img, labels);
      && (forall k {:trigger out[k]} :: 0 <= k < |labels| ==> out[k] == Jump(labels, k))
      && (forall k {:trigger out[k]} :: 0 <= k < |labels| && labels[k] != 0 ==> out[k] == labels[labels[k] - 1])
      && Forward(out)
      && (Inv(img, t, labels) ==> Inv(img, t, out))
  {
    var out := JumpAll(img, labels);
    JumpFromSnapshot(img, labels, labels, 0, 0);
    MonotoneForward(labels, out);
    if Inv(img, t, labels) {
      JumpInv(img, t, labels, out);
    }
  }

  /** Pass B: rows top to bottom, each row left to right. */
  method PassB(img: Image, labels: seq<int>) returns (out: seq<int>)
    requires Valid(img) && |labels| == Size(img) && InRange(labels)
    ensures out == JumpAll(img, labels)
    ensures |out| == |labels| && InRange(out)
    ensures Monotone(labels, out) && SameZeros(labels, out)
    ensures Forward(labels) ==> Forward(out)
    ensures Forward(labels) ==> forall k {:trigger out[k]} :: 0 <= k < |labels| ==> out[k] == Jump(labels, k)
  {
    out := labels;
    var i := 0;
    while i < img.height
      invariant 0 <= i <= img.height
      invariant |out| == |labels| && InRange(out)
      invariant JumpFrom(img, out, i, 0) == JumpAll(img, labels)
    {
      var j := 0;
      while j < img.width
        invariant 0 <= j <= img.width
        invariant |out| == |labels| && InRange(out)
        invariant JumpFrom(img, out, i, j) == JumpAll(img, labels)
      {
        var idx := Idx(img, i, j);
        if out[idx] != 0 {
          out := out[idx := Max(out[idx], out[out[idx] - 1])];
        }
        j := j + 1;
      }
      i := i + 1;
    }
    if Forward(labels) {
      JumpAllProperties(img, 0, labels);
    }
  }
}
