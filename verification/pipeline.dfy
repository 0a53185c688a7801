/** The program end to end, minus the file I/O: initial labels, the
    propagation rounds, the colour table, the painted image and the cluster
    statistics. */
module Pipeline {
  import opened Grid
  import opened Connectivity
  import opened LabelInvariants
  import opened Initialisation
  import opened Propagation
  import opened Clusters

  /** Initial labels followed by the round loop. The result is the initial
      labelling after `rounds` rounds, every round but the last started from
      an unstable labelling, and `converged` says the last one started from
      a stable one. Background pixels end with label 0 and foreground pixels
      with a nonzero one; when the loop left early, two foreground pixels
      share a label exactly when a chain of similar neighbours joins them. */
  method SegmentImage(img: Image, t: int) returns (labels: seq<int>, rounds: nat, converged: bool)
    requires Valid(img) && (img.width >= 1 || img.height >= 1)
    ensures 1 <= rounds <= Phases(img) + 1
    ensures labels == Rounds(img, t, InitialOf(img), rounds)
    ensures forall r :: 0 <= r < rounds - 1 ==> !Stable(img, t, Rounds(img, t, InitialOf(img), r))
    ensures converged <==> Stable(img, t, Rounds(img, t, InitialOf(img), rounds - 1))
    ensures |labels| == Size(img)
    ensures Inv(img, t, labels)
    ensures forall k :: 0 <= k < |labels| ==> (labels[k] == 0 <==> !Foreground(img, k))
    ensures !converged ==> rounds == Phases(img) + 1
    ensures converged ==> Agree(img, t, labels) && FixedPoint(labels)
    ensures converged ==> forall p, q :: 0 <= p < |labels| && 0 <= q < |labels| && Foreground(img, p) && Foreground(img, q) ==>
      (labels[p] == labels[q] <==> Connected(img, t, p, q))
  {
    var initial := InitialLabels(img);
    InitialInv(img, t, initial);
    labels, rounds, converged := Segment(img, t, initial);
    if converged {
      forall p, q | 0 <= p < |labels| && 0 <= q < |labels| && Foreground(img, p) && Foreground(img, q)
        ensures labels[p] == labels[q] <==> Connected(img, t, p, q)
      {
        AgreeClassesAreRegions(img, t, labels, p, q);
      }
    }
  }

  /** Pixel `k` of the painted image holds colour `c`, in the order red,
      blue, green. */
  predicate Painted(seg: seq<byte>, k: int, c: Colour) {
    && 0 <= 3 * k && 3 * k + 2 < |seg|
    && seg[3 * k] == ToByte(c.red) && seg[3 * k + 1] == ToByte(c.blue) && seg[3 * k + 2] == ToByte(c.green)
  }

  /** The colouring loop followed by the painting loop. Background pixels
      are painted black; a foreground pixel whose label was the `c`-th label
      met is painted with palette colour `c`, so pixels of different labels
      get different palette entries. */
  method PaintClusters(img: Image, labels: seq<int>, palette: nat -> Colour) returns (seg: seq<byte>, tally: Tally)
    requires Valid(img) && |labels| == Size(img)
    ensures tally == TallyOf(labels, palette)
    ensures |seg| == 3 * |labels|
    ensures forall k :: 0 <= k < |labels| && labels[k] == 0 ==> Painted(seg, k, Black)
    ensures forall k :: 0 <= k < |labels| && labels[k] != 0 ==>
      exists c :: 0 <= c < |FirstSeen(labels)| && FirstSeen(labels)[c] == labels[k] && Painted(seg, k, palette(c))
  {
    tally := AssignColours(img, labels, palette);
    seg := Paint(img, labels, tally.colours);
    var keys := FirstSeen(labels);
    forall k | 0 <= k < |labels| && labels[k] != 0
      ensures exists c :: 0 <= c < |keys| && keys[c] == labels[k] && Painted(seg, k, palette(c))
    {
      var c :| 0 <= c < |keys| && keys[c] == labels[k];
      assert Lookup(tally.colours, labels[k]) == palette(c);
    }
  }

  /** The statistics loop over the count table the colouring loop built,
      with `min` starting at the pixel count: every cluster's size lies
      between `min` and `max`, and the sizes add up to the number of nonzero
      labels. */
  method LabelStats(img: Image, labels: seq<int>, palette: nat -> Colour, tally: Tally) returns (st: Stats)
    requires Valid(img) && |labels| == Size(img)
    requires tally == TallyOf(labels, palette)
    ensures forall k :: 0 <= k < |labels| && labels[k] != 0 ==> st.min <= multiset(labels)[labels[k]] <= st.max
    ensures st.min == Size(img) || exists k :: 0 <= k < |labels| && labels[k] != 0 && st.min == multiset(labels)[labels[k]]
    ensures st.max == -1 || exists k :: 0 <= k < |labels| && labels[k] != 0 && st.max == multiset(labels)[labels[k]]
    ensures st.sum == |labels| - multiset(labels)[0]
  {
    TallyCounts(labels, palette);
    TallySum(labels, palette);
    st := ClusterStats(tally.count, FirstSeen(labels), Size(img));
    forall k | 0 <= k < |labels| && labels[k] != 0
      ensures st.min <= multiset(labels)[labels[k]] <= st.max
    {
      assert labels[k] in tally.count;
    }
    if st.min != Size(img) {
      Attained(labels, tally.count, st.min);
    }
    if st.max != -1 {
      Attained(labels, tally.count, st.max);
    }
  }

  /** A size the count table holds is the size of some labelled pixel's
      cluster. */
  lemma Attained(labels: seq<int>, count: map<int, nat>, x: int)
    requires forall v :: v in count <==> v != 0 && v in labels
    requires forall v :: v in count ==> count[v] == multiset(labels)[v]
    requires exists v :: v in count && x == count[v]
    ensures exists k :: 0 <= k < |labels| && labels[k] != 0 && x == multiset(labels)[labels[k]]
  {
    var v :| v in count && x == count[v];
    var k :| 0 <= k < |labels| && labels[k] == v;
  }

  /** The report over a final labelling: the painted image, the number of
      clusters and the statistics. */
  method Report(img: Image, labels: seq<int>, palette: nat -> Colour) returns (seg: seq<byte>, clusters: nat, st: Stats)
    requires Valid(img) && |labels| == Size(img)
    ensures |seg| == 3 * |labels|
    ensures forall k :: 0 <= k < |labels| && labels[k] == 0 ==> Painted(seg, k, Black)
    ensures forall k :: 0 <= k < |labels| && labels[k] != 0 ==>
      exists c :: 0 <= c < |FirstSeen(labels)| && FirstSeen(labels)[c] == labels[k] && Painted(seg, k, palette(c))
    ensures clusters == |FirstSeen(labels)|
    ensures forall k :: 0 <= k < |labels| && labels[k] != 0 ==> st.min <= multiset(labels)[labels[k]] <= st.max
    ensures st.min == Size(img) || exists k :: 0 <= k < |labels| && labels[k] != 0 && st.min == multiset(labels)[labels[k]]
    ensures st.max == -1 || exists k :: 0 <= k < |labels| && labels[k] != 0 && st.max == multiset(labels)[labels[k]]
    ensures st.sum == |labels| - multiset(labels)[0]
  {
    var tally;
    seg, tally := PaintClusters(img, labels, palette);
    TallyClusters(labels, palette);
    clusters := tally.clusters;
    st := LabelStats(img, labels, palette, tally);
  }

  /** The whole run: segmentation, then the report. The nonzero labels are
      exactly the foreground pixels, so the cluster sizes add up to the
      number of foreground pixels. */
  method Run(img: Image, t: int, palette: nat -> Colour)
    returns (labels: seq<int>, seg: seq<byte>, clusters: nat, st: Stats, rounds: nat, converged: bool)
    requires Valid(img) && (img.width >= 1 || img.height >= 1)
    ensures 1 <= rounds <= Phases(img) + 1
    ensures labels == Rounds(img, t, InitialOf(img), rounds)
    ensures forall r :: 0 <= r < rounds - 1 ==> !Stable(img, t, Rounds(img, t, InitialOf(img), r))
    ensures converged <==> Stable(img, t, Rounds(img, t, InitialOf(img), rounds - 1))
    ensures |labels| == Size(img) && |seg| == 3 * |labels|
    ensures forall k :: 0 <= k < |labels| ==> (labels[k] == 0 <==> !Foreground(img, k))
    ensures forall k :: 0 <= k < |labels| && labels[k] == 0 ==> Painted(seg, k, Black)
    ensures forall k :: 0 <= k < |labels| && labels[k] != 0 ==>
      exists c :: 0 <= c < |FirstSeen(labels)| && FirstSeen(labels)[c] == labels[k] && Painted(seg, k, palette(c))
    ensures clusters == |FirstSeen(labels)|
    ensures forall k :: 0 <= k < |labels| && labels[k] != 0 ==> st.min <= multiset(labels)[labels[k]] <= st.max
    ensures st.min == Size(img) || exists k :: 0 <= k < |labels| && labels[k] != 0 && st.min == multiset(labels)[labels[k]]
    ensures st.max == -1 || exists k :: 0 <= k < |labels| && labels[k] != 0 && st.max == multiset(labels)[labels[k]]
    ensures st.sum == |labels| - multiset(labels)[0]
    ensures converged ==> forall p, q :: 0 <= p < |labels| && 0 <= q < |labels| && Foreground(img, p) && Foreground(img, q) ==>
      (labels[p] == labels[q] <==> Connected(img, t, p, q))
  {
    labels, rounds, converged := SegmentImage(img, t);
    seg, clusters, st := Report(img, labels, palette);
  }
}
