/** Pass A, the relax pass: every foreground pixel, visited from the
    bottom-right corner to the top-left one, takes the largest label among
    itself and its similar neighbours, and a rise is written back to the
    pixel its old label referred to. */
module Relaxation {
  import opened Grid
  import opened Connectivity
  import opened LabelInvariants

  /** Folds the neighbour tests over `ds` in order, keeping the larger of the
      running label and the label of every neighbour that passes both tests. */
  function MaxOver(img: Image, t: int, labels: seq<int>, i: int, j: int, ds: seq<Dir>, acc: int): (r: int)
    requires Valid(img) && |labels| == Size(img) && InGrid(img, i, j)
    ensures r >= acc
    ensures forall n :: 0 <= n < |ds| && Accepts(img, t, i, j, ds[n]) ==> r >= labels[Nb(img, i, j, ds[n])]
    ensures r == acc || exists n :: 0 <= n < |ds| && Accepts(img, t, i, j, ds[n]) && r == labels[Nb(img, i, j, ds[n])]
    ensures InRange(labels) && IsRef(labels, acc) ==> IsRef(labels, r)
    decreases |ds|
  {
    if ds == [] then acc
    else
      var d := ds[0];
      var acc' :=
        if Guard(img, i, j, d) && Similar(img, t, Idx(img, i, j), Nb(img, i, j, d))
        then Max(acc, labels[Nb(img, i, j, d)])
        else acc;
      MaxOver(img, t, labels, i, j, ds[1..], acc')
  }

  /** The neighbour step of the relax pass: the pixel's label becomes the
      largest of its own label and the labels of the neighbours that lie in
      the image and are similar; no other neighbour has any influence. */
  function Relax(img: Image, t: int, labels: seq<int>, i: int, j: int): (r: int)
    requires Valid(img) && |labels| == Size(img) && InGrid(img, i, j)
    ensures r >= labels[Idx(img, i, j)]
    ensures forall d :: Accepts(img, t, i, j, d) ==> r >= labels[Nb(img, i, j, d)]
    ensures r == labels[Idx(img, i, j)] || exists d :: Accepts(img, t, i, j, d) && r == labels[Nb(img, i, j, d)]
    ensures InRange(labels) ==> IsRef(labels, r)
  {
    var r := MaxOver(img, t, labels, i, j, Neighbours, labels[Idx(img, i, j)]);
    RelaxCoversAllDirections(img, t, labels, i, j, r);
    r
  }

  /** Transfers the fold's bounds from positions of the comparison order to directions. */
  lemma RelaxCoversAllDirections(img: Image, t: int, labels: seq<int>, i: int, j: int, r: int)
    requires Valid(img) && |labels| == Size(img) && InGrid(img, i, j)
    requires forall n :: 0 <= n < |Neighbours| && Accepts(img, t, i, j, Neighbours[n]) ==> r >= labels[Nb(img, i, j, Neighbours[n])]
    requires r == labels[Idx(img, i, j)] ||
      exists n :: 0 <= n < |Neighbours| && Accepts(img, t, i, j, Neighbours[n]) && r == labels[Nb(img, i, j, Neighbours[n])]
    ensures forall d :: Accepts(img, t, i, j, d) ==> r >= labels[Nb(img, i, j, d)]
    ensures r == labels[Idx(img, i, j)] || exists d :: Accepts(img, t, i, j, d) && r == labels[Nb(img, i, j, d)]
  {
    forall d | Accepts(img, t, i, j, d)
      ensures r >= labels[Nb(img, i, j, d)]
    {
      var n := Position(d);
      assert Accepts(img, t, i, j, Neighbours[n]);
    }
    if r != labels[Idx(img, i, j)] {
      var n :| 0 <= n < |Neighbours| && Accepts(img, t, i, j, Neighbours[n]) && r == labels[Nb(img, i, j, Neighbours[n])];
      var d := Neighbours[n];
      assert Accepts(img, t, i, j, d) && r == labels[Nb(img, i, j, d)];
    }
  }

  /** Only the pixel's own label and the labels of the accepted neighbours
      influence the neighbour step. */
  lemma RelaxDependsOnAccepted(img: Image, t: int, a: seq<int>, b: seq<int>, i: int, j: int)
    requires Valid(img) && |a| == Size(img) && |b| == Size(img) && InGrid(img, i, j)
    requires a[Idx(img, i, j)] == b[Idx(img, i, j)]
    requires forall d :: Accepts(img, t, i, j, d) ==> a[Nb(img, i, j, d)] == b[Nb(img, i, j, d)]
    ensures Relax(img, t, a, i, j) == Relax(img, t, b, i, j)
  {
  }

  /** The labels after one pixel of the relax pass, and whether its label rose. */
  datatype Relaxed = Relaxed(labels: seq<int>, rose: bool)

  /** The correction write of the relax pass, once the neighbour step has
      produced the new label `r` of foreground pixel `idx`: the pixel takes
      `r`, and if that is a rise, the pixel its old label referred to is
      raised to `r` as well. Nothing else is written. */
  function Correct(labels: seq<int>, idx: int, r: int): (s: Relaxed)
    requires InRange(labels) && 0 <= idx < |labels| && labels[idx] != 0
    requires r >= labels[idx] && IsRef(labels, r)
    ensures |s.labels| == |labels| && InRange(s.labels)
    ensures Monotone(labels, s.labels) && SameZeros(labels, s.labels)
    ensures s.rose <==> labels[idx] < r
    ensures !s.rose ==> s.labels == labels
    ensures s.labels[idx] == r
    ensures s.rose ==> s.labels[labels[idx] - 1] == Max(r, labels[labels[idx] - 1])
    ensures forall k :: 0 <= k < |labels| && k != idx && k != labels[idx] - 1 ==> s.labels[k] == labels[k]
    ensures forall k :: 0 <= k < |labels| && s.labels[k] != labels[k] ==> s.labels[k] == r && (k == idx || k == labels[idx] - 1)
  {
    var ll := labels[idx];
    var l1 := Raise(labels, idx, r);
    if ll < r then
      assert labels[ll - 1] != 0;
      IsRefTransfer(labels, l1);
      var l2 := Raise(l1, ll - 1, Max(r, l1[ll - 1]));
      MonotoneTrans(labels, l1, l2);
      Relaxed(l2, true)
    else
      assert l1 == labels;
      Relaxed(l1, false)
  }

  /** One pixel of the relax pass: background pixels are skipped; a
      foreground pixel is relaxed against its neighbours and then corrected.
      Its label rises exactly when some accepted neighbour carries a larger one. */
  function Step(img: Image, t: int, labels: seq<int>, i: int, j: int): (s: Relaxed)
    requires Valid(img) && |labels| == Size(img) && InRange(labels) && InGrid(img, i, j)
    ensures |s.labels| == |labels| && InRange(s.labels)
    ensures Monotone(labels, s.labels) && SameZeros(labels, s.labels)
    ensures s.rose <==> !StableAt(img, t, labels, i, j)
    ensures !s.rose ==> s.labels == labels
    ensures s.rose ==> s.labels[Idx(img, i, j)] > labels[Idx(img, i, j)]
  {
    var idx := Idx(img, i, j);
    if labels[idx] == 0 then Relaxed(labels, false)
    else Correct(labels, idx, Relax(img, t, labels, i, j))
  }

  /** The correction write keeps every label's origin in its pixel's region
      when the new label `r` originates in the region of pixel `idx`: the
      old root `o` is connected to `idx`, so it may take `r` as well. */
  lemma CorrectSound(img: Image, t: int, labels: seq<int>, idx: int, r: int)
    requires Inv(img, t, labels) && 0 <= idx < |labels| && labels[idx] != 0
    requires r >= labels[idx] && IsRef(labels, r) && Connected(img, t, idx, r - 1)
    ensures Sound(img, t, Correct(labels, idx, r).labels)
  {
    var out := Correct(labels, idx, r).labels;
    var o := labels[idx] - 1;
    assert Connected(img, t, idx, o);
    ConnectedSym(img, t, idx, o);
    ConnectedTrans(img, t, o, idx, r - 1);
    WriteSound(img, t, labels, out, r);
  }

  /** The origin of a foreground neighbour's label, when the neighbour is
      similar, lies in the pixel's own region. */
  lemma NeighbourOrigin(img: Image, t: int, labels: seq<int>, i: int, j: int, d: Dir)
    requires Inv(img, t, labels) && Accepts(img, t, i, j, d)
    requires labels[Idx(img, i, j)] != 0 && labels[Nb(img, i, j, d)] != 0
    ensures Connected(img, t, Idx(img, i, j), labels[Nb(img, i, j, d)] - 1)
  {
    var nb := Nb(img, i, j, d);
    assert Linked(img, t, i, j, d);
    LinkedConnected(img, t, i, j, d);
    assert Connected(img, t, nb, labels[nb] - 1);
    ConnectedTrans(img, t, Idx(img, i, j), nb, labels[nb] - 1);
  }

  /** The label the neighbour step picks for a foreground pixel originates
      in that pixel's region: it is the pixel's own label or the label of a
      linked neighbour. */
  lemma RelaxOrigin(img: Image, t: int, labels: seq<int>, i: int, j: int)
    requires Valid(img) && |labels| == Size(img) && InGrid(img, i, j)
    requires Inv(img, t, labels) && labels[Idx(img, i, j)] != 0
    ensures Connected(img, t, Idx(img, i, j), Relax(img, t, labels, i, j) - 1)
  {
    var idx := Idx(img, i, j);
    var r := Relax(img, t, labels, i, j);
    if r != labels[idx] {
      var d :| Accepts(img, t, i, j, d) && r == labels[Nb(img, i, j, d)];
      NeighbourOrigin(img, t, labels, i, j, d);
    }
  }

  /** A rise at pixel (`i`, `j`) keeps every label's origin in its pixel's region. */
  lemma StepSound(img: Image, t: int, labels: seq<int>, i: int, j: int)
    requires Valid(img) && |labels| == Size(img) && InGrid(img, i, j)
    requires Inv(img, t, labels)
    ensures Sound(img, t, Step(img, t, labels, i, j).labels)
  {
    var idx := Idx(img, i, j);
    if labels[idx] != 0 {
      RelaxOrigin(img, t, labels, i, j);
      CorrectSound(img, t, labels, idx, Relax(img, t, labels, i, j));
    }
  }

  /** One pixel of the relax pass keeps the propagation invariant. */
  lemma StepInv(img: Image, t: int, labels: seq<int>, i: int, j: int)
    requires Valid(img) && |labels| == Size(img) && InGrid(img, i, j)
    requires Inv(img, t, labels)
    ensures Inv(img, t, Step(img, t, labels, i, j).labels)
  {
    StepSound(img, t, labels, i, j);
    InvTransfer(img, t, labels, Step(img, t, labels, i, j).labels);
  }

  /** Pixel (`i2`, `j2`) has already been relaxed when the scan, which runs
      from the last row to the first and in each row from the last column to
      the first, stands at pixel (`i`, `j`). */
  predicate Before(i2: int, j2: int, i: int, j: int) {
    i2 > i || (i2 == i && j2 > j)
  }

  /** The relax pass from pixel (`i`, `j`) on, in scan order; `rose` is
      whether an earlier pixel's label rose. Column -1 stands for "row done". */
  function RelaxFrom(img: Image, t: int, labels: seq<int>, rose: bool, i: int, j: int): (s: Relaxed)
    requires Valid(img) && |labels| == Size(img) && InRange(labels)
    requires -1 <= i < img.height && -1 <= j < img.width
    ensures |s.labels| == |labels| && InRange(s.labels)
    ensures Monotone(labels, s.labels) && SameZeros(labels, s.labels)
    ensures rose ==> s.rose
    decreases i + 1, j + 1
  {
    if i < 0 then Relaxed(labels, rose)
    else if j < 0 then RelaxFrom(img, t, labels, rose, i - 1, img.width - 1)
    else
      var s := Step(img, t, labels, i, j);
      var r := RelaxFrom(img, t, s.labels, rose || s.rose, i, j - 1);
      MonotoneTrans(labels, s.labels, r.labels);
      r
  }

  /** The whole relax pass over the image. */
  function RelaxAll(img: Image, t: int, labels: seq<int>): Relaxed
    requires Valid(img) && |labels| == Size(img) && InRange(labels)
  {
    RelaxFrom(img, t, labels, false, img.height - 1, img.width - 1)
  }

  /** The rest of the relax pass keeps the invariant. */
  lemma {:induction false} RelaxFromInv(img: Image, t: int, labels: seq<int>, rose: bool, i: int, j: int)
    requires Valid(img) && |labels| == Size(img) && Inv(img, t, labels)
    requires -1 <= i < img.height && -1 <= j < img.width
    ensures Inv(img, t, RelaxFrom(img, t, labels, rose, i, j).labels)
    decreases i + 1, j + 1, 1
  {
    if 0 <= i && j < 0 {
      RelaxRowInv(img, t, labels, rose, i);
    } else if 0 <= i {
      RelaxPixelInv(img, t, labels, rose, i, j);
    }
  }

  /** The row-change step of `RelaxFromInv`. */
  lemma {:induction false} RelaxRowInv(img: Image, t: int, labels: seq<int>, rose: bool, i: int)
    requires Valid(img) && |labels| == Size(img) && Inv(img, t, labels) && 0 <= i < img.height
    ensures Inv(img, t, RelaxFrom(img, t, labels, rose, i, -1).labels)
    decreases i + 1, 0, 0
  {
    RelaxFromInv(img, t, labels, rose, i - 1, img.width - 1);
  }

  /** The induction step of `RelaxFromInv`: relax pixel (`i`, `j`), then the rest. */
  lemma {:induction false} RelaxPixelInv(img: Image, t: int, labels: seq<int>, rose: bool, i: int, j: int)
    requires Valid(img) && |labels| == Size(img) && Inv(img, t, labels) && InGrid(img, i, j)
    ensures Inv(img, t, RelaxFrom(img, t, labels, rose, i, j).labels)
    decreases i + 1, j + 1, 0
  {
    var s := Step(img, t, labels, i, j);
    StepInv(img, t, labels, i, j);
    RelaxFromInv(img, t, s.labels, rose || s.rose, i, j - 1);
  }

  /** What the relax pass has established about the array it started from,
      `start`, when the scan stands at pixel (`i`, `j`): either nothing rose
      yet and every pixel visited so far is stable in `start`, or a label
      rose, the array differs from `start` and `start` is not stable. */
  ghost predicate Scanned(img: Image, t: int, start: seq<int>, labels: seq<int>, rose: bool, i: int, j: int)
    requires Valid(img) && |start| == Size(img)
  {
    && Monotone(start, labels)
    && (!rose ==> labels == start)
    && (!rose ==> forall i2, j2 {:trigger StableAt(img, t, start, i2, j2)} ::
          InGrid(img, i2, j2) && Before(i2, j2, i, j) ==> StableAt(img, t, start, i2, j2))
    && (rose ==> labels != start && !Stable(img, t, start))
  }

  /** The outcome `s` of a relax pass reports a rise exactly when it changed
      `start`, and exactly when `start` was not stable. */
  ghost predicate Reports(img: Image, t: int, start: seq<int>, s: Relaxed)
    requires Valid(img) && |start| == Size(img)
  {
    && (s.rose <==> s.labels != start)
    && (s.rose <==> !Stable(img, t, start))
  }

  /** The relax pass reports a rise exactly when the array it started from,
      `start`, is not stable, and exactly when it changed that array. */
  lemma {:induction false} RelaxFromRose(img: Image, t: int, start: seq<int>, labels: seq<int>, rose: bool, i: int, j: int)
    requires Valid(img) && |start| == Size(img) && |labels| == Size(img) && InRange(labels)
    requires -1 <= i < img.height && -1 <= j < img.width
    requires Scanned(img, t, start, labels, rose, i, j)
    ensures Reports(img, t, start, RelaxFrom(img, t, labels, rose, i, j))
    decreases i + 1, j + 1, 1
  {
    if i < 0 {
      ScanComplete(img, t, start, labels, rose);
    } else if j < 0 {
      RelaxRowRose(img, t, start, labels, rose, i);
    } else {
      RelaxPixelRose(img, t, start, labels, rose, i, j);
    }
  }

  /** The row-change step of `RelaxFromRose`. */
  lemma {:induction false} RelaxRowRose(img: Image, t: int, start: seq<int>, labels: seq<int>, rose: bool, i: int)
    requires Valid(img) && |start| == Size(img) && |labels| == Size(img) && InRange(labels)
    requires 0 <= i < img.height
    requires Scanned(img, t, start, labels, rose, i, -1)
    ensures Reports(img, t, start, RelaxFrom(img, t, labels, rose, i, -1))
    decreases i + 1, 0, 0
  {
    assert Scanned(img, t, start, labels, rose, i - 1, img.width - 1) by {
      if !rose {
        forall i2, j2 | InGrid(img, i2, j2) && Before(i2, j2, i - 1, img.width - 1)
          ensures StableAt(img, t, start, i2, j2)
        {
          assert Before(i2, j2, i, -1);
        }
      }
    }
    RelaxFromRose(img, t, start, labels, rose, i - 1, img.width - 1);
  }

  /** The pixel case of `RelaxFromRose`. */
  lemma {:induction false} RelaxPixelRose(img: Image, t: int, start: seq<int>, labels: seq<int>, rose: bool, i: int, j: int)
    requires Valid(img) && |start| == Size(img) && |labels| == Size(img) && InRange(labels)
    requires InGrid(img, i, j)
    requires Scanned(img, t, start, labels, rose, i, j)
    ensures Reports(img, t, start, RelaxFrom(img, t, labels, rose, i, j))
    decreases i + 1, j + 1, 0
  {
    var s := Step(img, t, labels, i, j);
    ScanStep(img, t, start, labels, rose, i, j);
    RelaxFromRose(img, t, start, s.labels, rose || s.rose, i, j - 1);
  }

  /** Once every pixel has been visited, no rise means `start` is stable. */
  lemma ScanComplete(img: Image, t: int, start: seq<int>, labels: seq<int>, rose: bool)
    requires Valid(img) && |start| == Size(img) && |labels| == Size(img)
    requires Scanned(img, t, start, labels, rose, -1, img.width - 1)
    ensures rose <==> labels != start
    ensures rose <==> !Stable(img, t, start)
  {
    if !rose {
      forall i2, j2 | InGrid(img, i2, j2)
        ensures StableAt(img, t, start, i2, j2)
      {
        assert Before(i2, j2, -1, img.width - 1);
      }
    }
  }

  /** Relaxing pixel (`i`, `j`) moves the scan on by one pixel. */
  lemma ScanStep(img: Image, t: int, start: seq<int>, labels: seq<int>, rose: bool, i: int, j: int)
    requires Valid(img) && |start| == Size(img) && |labels| == Size(img) && InRange(labels) && InGrid(img, i, j)
    requires Scanned(img, t, start, labels, rose, i, j)
    ensures var s := Step(img, t, labels, i, j);
      Scanned(img, t, start, s.labels, rose || s.rose, i, j - 1)
  {
    var s := Step(img, t, labels, i, j);
    if s.rose {
      assert s.labels != labels by {
        assert s.labels[Idx(img, i, j)] != labels[Idx(img, i, j)];
      }
      if rose {
        StaysChanged(start, labels, s.labels);
      } else {
        assert !StableAt(img, t, start, i, j);
      }
    }
  }

  /** The relax pass keeps the invariant, and the forward property alone. */
  lemma RelaxAllInv(img: Image, t: int, labels: seq<int>)
    requires Valid(img) && |labels| == Size(img) && InRange(labels)
    ensures Forward(labels) ==> Forward(RelaxAll(img, t, labels).labels)
    ensures Inv(img, t, labels) ==> Inv(img, t, RelaxAll(img, t, labels).labels)
  {
    MonotoneForward(labels, RelaxAll(img, t, labels).labels);
    if Inv(img, t, labels) {
      RelaxFromInv(img, t, labels, false, img.height - 1, img.width - 1);
    }
  }

  /** The relax pass reports a rise exactly when it changed the array, and
      exactly when the array was not stable. */
  lemma RelaxAllRose(img: Image, t: int, labels: seq<int>)
    requires Valid(img) && |labels| == Size(img) && InRange(labels)
    ensures var s := RelaxAll(img, t, labels);
      && (s.rose <==> s.labels != labels)
      && (s.rose <==> !Stable(img, t, labels))
  {
    assert Scanned(img, t, labels, labels, false, img.height - 1, img.width - 1);
    RelaxFromRose(img, t, labels, labels, false, img.height - 1, img.width - 1);
  }

  /** Pass A: scan the image bottom-right to top-left, relaxing every
      foreground pixel; `rose` records whether any pixel's label rose. */
  method PassA(img: Image, t: int, labels: seq<int>) returns (out: seq<int>, rose: bool)
    requires Valid(img) && |labels| == Size(img) && InRange(labels)
    ensures Relaxed(out, rose) == RelaxAll(img, t, labels)
    ensures |out| == |labels| && InRange(out)
    ensures Monotone(labels, out) && SameZeros(labels, out)
    ensures Forward(labels) ==> Forward(out)
    ensures Inv(img, t, labels) ==> Inv(img, t, out)
    ensures rose <==> out != labels
    ensures rose <==> !Stable(img, t, labels)
  {
    out, rose := Scan(img, t, labels);
    RelaxAllInv(img, t, labels);
    RelaxAllRose(img, t, labels);
  }

  /** The row loop of Pass A, rows bottom to top. */
  method Scan(img: Image, t: int, labels: seq<int>) returns (out: seq<int>, rose: bool)
    requires Valid(img) && |labels| == Size(img) && InRange(labels)
    ensures Relaxed(out, rose) == RelaxAll(img, t, labels)
  {
    out := labels;
    rose := false;
    var i := img.height - 1;
    while i >= 0
      invariant -1 <= i < img.height
      invariant |out| == |labels| && InRange(out)
      invariant RelaxFrom(img, t, out, rose, i, img.width - 1) == RelaxAll(img, t, labels)
    {
      out, rose := ScanRow(img, t, out, rose, i);
      i := i - 1;
    }
  }

  /** The column loop of Pass A over row `i`, right to left. */
  method ScanRow(img: Image, t: int, labels: seq<int>, rose0: bool, i: int) returns (out: seq<int>, rose: bool)
    requires Valid(img) && |labels| == Size(img) && InRange(labels) && 0 <= i < img.height
    ensures |out| == |labels| && InRange(out)
    ensures RelaxFrom(img, t, out, rose, i - 1, img.width - 1) == RelaxFrom(img, t, labels, rose0, i, img.width - 1)
  {
    out := labels;
    rose := rose0;
    var j := img.width - 1;
    while j >= 0
      invariant -1 <= j < img.width
      invariant |out| == |labels| && InRange(out)
      invariant RelaxFrom(img, t, out, rose, i, j) == RelaxFrom(img, t, labels, rose0, i, img.width - 1)
    {
      var s := Step(img, t, out, i, j);
      rose := rose || s.rose;
      out := s.labels;
      j := j - 1;
    }
  }
}
