/** Properties of a label array. A label is 0 for a background pixel or a
    1-based back-reference `v` to pixel `v - 1`, the pixel whose index the
    label was first drawn from. */
module LabelInvariants {
  import opened Grid
  import opened Connectivity

  /** `v` may be stored as a label: 0, or a 1-based reference to a nonzero entry. */
  predicate IsRef(labels: seq<int>, v: int) {
    0 <= v <= |labels| && (v != 0 ==> labels[v - 1] != 0)
  }

  /** Every label is 0 or refers to a nonzero entry, so `labels[v - 1]` is in
      bounds. (Stated pairwise, "label `m + 1` at `k` means entry `m` is
      nonzero", so that no statement about an entry mentions a further one.) */
  predicate InRange(labels: seq<int>) {
    && (forall k :: 0 <= k < |labels| ==> 0 <= labels[k] <= |labels|)
    && (forall k, m :: 0 <= k < |labels| && 0 <= m < |labels| && labels[k] == m + 1 ==> labels[m] != 0)
  }

  /** Exactly the background pixels carry label 0. */
  predicate Support(img: Image, labels: seq<int>) {
    && Valid(img)
    && |labels| == Size(img)
    && forall k {:trigger labels[k]} :: 0 <= k < |labels| ==> (labels[k] == 0 <==> !Foreground(img, k))
  }

  /** A nonzero label is at least the pixel's own index + 1: it never refers backwards. */
  predicate Forward(labels: seq<int>) {
    forall k :: 0 <= k < |labels| && labels[k] != 0 ==> labels[k] >= k + 1
  }

  /** The origin of every nonzero label lies in the pixel's own connected region. */
  ghost predicate Sound(img: Image, t: int, labels: seq<int>) {
    forall k :: 0 <= k < |labels| && labels[k] != 0 ==> Connected(img, t, k, labels[k] - 1)
  }

  /** The invariant the propagation keeps, from the initial labelling onwards. */
  ghost predicate Inv(img: Image, t: int, labels: seq<int>) {
    && Support(img, labels)
    && InRange(labels)
    && Forward(labels)
    && Sound(img, t, labels)
  }

  predicate SameZeros(a: seq<int>, b: seq<int>) {
    |a| == |b| && forall k :: 0 <= k < |a| ==> (a[k] == 0 <==> b[k] == 0)
  }

  /** No label decreases from `a` to `b`. */
  predicate Monotone(a: seq<int>, b: seq<int>) {
    |a| == |b| && forall k :: 0 <= k < |a| ==> a[k] <= b[k]
  }

  /** The relax pass finds nothing to improve at pixel (`i`, `j`): no accepted
      neighbour carries a larger label. */
  predicate StableAt(img: Image, t: int, labels: seq<int>, i: int, j: int)
    requires Valid(img) && |labels| == Size(img) && InGrid(img, i, j)
  {
    labels[Idx(img, i, j)] != 0 ==>
      forall d :: Accepts(img, t, i, j, d) ==> labels[Nb(img, i, j, d)] <= labels[Idx(img, i, j)]
  }

  ghost predicate Stable(img: Image, t: int, labels: seq<int>) {
    && Valid(img)
    && |labels| == Size(img)
    && forall i, j {:trigger StableAt(img, t, labels, i, j)} :: InGrid(img, i, j) ==> StableAt(img, t, labels, i, j)
  }

  /** Adjacent similar foreground pixels carry equal labels. */
  ghost predicate Agree(img: Image, t: int, labels: seq<int>) {
    && Valid(img)
    && |labels| == Size(img)
    && forall i, j, d :: Linked(img, t, i, j, d) ==> labels[Idx(img, i, j)] == labels[Nb(img, i, j, d)]
  }

  /** Every foreground label refers to a pixel that carries that same label: a root. */
  predicate FixedPoint(labels: seq<int>) {
    && InRange(labels)
    && forall k, m :: 0 <= k < |labels| && 0 <= m < |labels| && labels[k] == m + 1 ==> labels[m] == labels[k]
  }

  /** A single write of the propagation: foreground entry `k` is raised to
      `v`, a value that is itself a valid label. Every write of both passes
      has this shape, which is what keeps the array well formed. */
  function Raise(labels: seq<int>, k: int, v: int): (out: seq<int>)
    requires InRange(labels) && 0 <= k < |labels| && labels[k] != 0
    requires labels[k] <= v && IsRef(labels, v)
    ensures |out| == |labels| && InRange(out)
    ensures Monotone(labels, out) && SameZeros(labels, out)
    ensures out[k] == v
    ensures forall m :: 0 <= m < |labels| && m != k ==> out[m] == labels[m]
  {
    labels[k := v]
  }

  lemma MonotoneTrans(a: seq<int>, b: seq<int>, c: seq<int>)
    requires Monotone(a, b) && Monotone(b, c) && SameZeros(a, b) && SameZeros(b, c)
    ensures Monotone(a, c) && SameZeros(a, c)
  {
  }

  /** Rises that keep the zero set keep labels pointing forwards. */
  lemma MonotoneForward(a: seq<int>, b: seq<int>)
    requires Monotone(a, b) && SameZeros(a, b)
    ensures Forward(a) ==> Forward(b)
  {
  }

  /** Once an array has moved away from `a`, later rises never bring it back. */
  lemma StaysChanged(a: seq<int>, b: seq<int>, c: seq<int>)
    requires Monotone(a, b) && Monotone(b, c) && b != a
    ensures c != a
  {
  }

  /** Rises that keep the zero set keep the invariant, provided every new
      label still originates in its pixel's region. */
  lemma InvTransfer(img: Image, t: int, a: seq<int>, b: seq<int>)
    requires Inv(img, t, a) && InRange(b) && Monotone(a, b) && SameZeros(a, b)
    requires Sound(img, t, b)
    ensures Inv(img, t, b)
  {
  }

  /** Writing label `r` only at pixels connected to its origin keeps every
      label's origin in its pixel's region. */
  lemma WriteSound(img: Image, t: int, labels: seq<int>, out: seq<int>, r: int)
    requires Sound(img, t, labels) && |out| == |labels|
    requires forall k :: 0 <= k < |labels| && out[k] != labels[k] ==> out[k] == r && Connected(img, t, k, r - 1)
    ensures Sound(img, t, out)
  {
  }

  /** Equal zero sets make the same values valid labels. */
  lemma IsRefTransfer(a: seq<int>, b: seq<int>)
    requires SameZeros(a, b)
    ensures forall v :: IsRef(a, v) <==> IsRef(b, v)
  {
  }

  /** Because the threshold test is symmetric, "no accepted neighbour is larger"
      at every pixel is the same as "linked pixels are equal". */
  lemma StableIffAgree(img: Image, t: int, labels: seq<int>)
    requires Support(img, labels) && InRange(labels)
    ensures Stable(img, t, labels) <==> Agree(img, t, labels)
  {
    if Stable(img, t, labels) {
      forall i, j, d | Linked(img, t, i, j, d)
        ensures labels[Idx(img, i, j)] == labels[Nb(img, i, j, d)]
      {
        LinkedSymmetric(img, t, i, j, d);
        var i', j' := i + DRow(d), j + DCol(d);
        assert StableAt(img, t, labels, i, j);
        assert StableAt(img, t, labels, i', j');
        assert Accepts(img, t, i', j', Opposite(d));
      }
    }
    if Agree(img, t, labels) {
      forall i, j | InGrid(img, i, j)
        ensures StableAt(img, t, labels, i, j)
      {
        var p := Idx(img, i, j);
        if labels[p] != 0 {
          forall d | Accepts(img, t, i, j, d)
            ensures labels[Nb(img, i, j, d)] <= labels[p]
          {
            var q := Nb(img, i, j, d);
            if labels[q] != 0 {
              assert Linked(img, t, i, j, d);
            }
          }
        }
      }
    }
  }

  /** Labels are constant along every path of the similarity graph once linked pixels agree. */
  lemma {:induction false} AgreeAlongPath(img: Image, t: int, labels: seq<int>, s: seq<int>)
    requires Agree(img, t, labels) && IsPath(img, t, s)
    ensures labels[s[0]] == labels[s[|s| - 1]]
    decreases |s|
  {
    if |s| > 1 {
      var rest := s[1..];
      assert IsPath(img, t, rest) by {
        forall n | 0 <= n < |rest| - 1
          ensures Edge(img, t, rest[n], rest[n + 1])
        {
          assert rest[n] == s[n + 1] && rest[n + 1] == s[n + 2];
        }
      }
      AgreeAlongPath(img, t, labels, rest);
      assert Edge(img, t, s[0], s[1]);
      var i, j, d :| Linked(img, t, i, j, d) && s[0] == Idx(img, i, j) && s[1] == Nb(img, i, j, d);
    }
  }

  lemma AgreeConnected(img: Image, t: int, labels: seq<int>, p: int, q: int)
    requires Agree(img, t, labels) && Connected(img, t, p, q)
    ensures 0 <= p < |labels| && 0 <= q < |labels| && labels[p] == labels[q]
  {
    var s :| IsPath(img, t, s) && s[0] == p && s[|s| - 1] == q;
    AgreeAlongPath(img, t, labels, s);
  }

  /** Once linked pixels agree, every label refers to a root of its own value. */
  lemma AgreeFixedPoint(img: Image, t: int, labels: seq<int>)
    requires Inv(img, t, labels) && Agree(img, t, labels)
    ensures FixedPoint(labels)
  {
    forall k, m | 0 <= k < |labels| && 0 <= m < |labels| && labels[k] == m + 1
      ensures labels[m] == labels[k]
    {
      assert Connected(img, t, k, m);
      AgreeConnected(img, t, labels, k, m);
    }
  }

  /** Once linked pixels agree, two foreground pixels carry the same label
      exactly when they lie in the same connected region. */
  lemma AgreeClassesAreRegions(img: Image, t: int, labels: seq<int>, p: int, q: int)
    requires Inv(img, t, labels) && Agree(img, t, labels)
    requires 0 <= p < |labels| && 0 <= q < |labels| && Foreground(img, p) && Foreground(img, q)
    ensures labels[p] == labels[q] <==> Connected(img, t, p, q)
  {
    if Connected(img, t, p, q) {
      AgreeConnected(img, t, labels, p, q);
    }
    if labels[p] == labels[q] {
      var o := labels[p] - 1;
      assert Connected(img, t, q, o);
      ConnectedSym(img, t, q, o);
      ConnectedTrans(img, t, p, o, q);
    }
  }
}
