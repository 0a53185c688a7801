/** Connected regions of the similarity graph: foreground pixels joined by
    chains of adjacent pixels whose primary channels pass the threshold test.
    These are the clusters the propagation is meant to find. */
module Connectivity {
  import opened Grid

  /** `p` and `q` are joined by one edge of the similarity graph. */
  ghost predicate Edge(img: Image, t: int, p: int, q: int) {
    exists i, j, d {:trigger Linked(img, t, i, j, d)} :: Linked(img, t, i, j, d) && p == Idx(img, i, j) && q == Nb(img, i, j, d)
  }

  /** A chain of foreground pixels, each joined to the next by an edge. */
  ghost predicate IsPath(img: Image, t: int, s: seq<int>) {
    && Valid(img)
    && |s| >= 1
    && (forall n :: 0 <= n < |s| ==> 0 <= s[n] < Size(img) && Foreground(img, s[n]))
    && (forall n :: 0 <= n < |s| - 1 ==> Edge(img, t, s[n], s[n + 1]))
  }

  ghost predicate Connected(img: Image, t: int, p: int, q: int) {
    exists s {:trigger IsPath(img, t, s)} :: IsPath(img, t, s) && s[0] == p && s[|s| - 1] == q
  }

  lemma ConnectedRefl(img: Image, t: int, p: int)
    requires Valid(img) && 0 <= p < Size(img) && Foreground(img, p)
    ensures Connected(img, t, p, p)
  {
    assert IsPath(img, t, [p]);
  }

  lemma LinkedConnected(img: Image, t: int, i: int, j: int, d: Dir)
    requires Linked(img, t, i, j, d)
    ensures Connected(img, t, Idx(img, i, j), Nb(img, i, j, d))
  {
    var s := [Idx(img, i, j), Nb(img, i, j, d)];
    assert Edge(img, t, s[0], s[1]);
    assert IsPath(img, t, s);
  }

  lemma ConnectedTrans(img: Image, t: int, p: int, q: int, r: int)
    requires Connected(img, t, p, q) && Connected(img, t, q, r)
    ensures Connected(img, t, p, r)
  {
    var s1 :| IsPath(img, t, s1) && s1[0] == p && s1[|s1| - 1] == q;
    var s2 :| IsPath(img, t, s2) && s2[0] == q && s2[|s2| - 1] == r;
    var s := s1 + s2[1..];
    forall n | 0 <= n < |s| - 1
      ensures Edge(img, t, s[n], s[n + 1])
    {
      if n < |s1| - 1 {
        assert s[n] == s1[n] && s[n + 1] == s1[n + 1];
      } else {
        var m := n - (|s1| - 1);
        assert s[n] == s2[m] && s[n + 1] == s2[m + 1];
      }
    }
    assert IsPath(img, t, s);
  }

  lemma EdgeSymmetric(img: Image, t: int, p: int, q: int)
    requires Edge(img, t, p, q)
    ensures Edge(img, t, q, p)
  {
    var i, j, d :| Linked(img, t, i, j, d) && p == Idx(img, i, j) && q == Nb(img, i, j, d);
    LinkedSymmetric(img, t, i, j, d);
    var i', j' := i + DRow(d), j + DCol(d);
    assert Linked(img, t, i', j', Opposite(d)) && q == Idx(img, i', j') && p == Nb(img, i', j', Opposite(d));
  }

  function Reverse(s: seq<int>): (r: seq<int>)
    ensures |r| == |s|
    ensures forall n :: 0 <= n < |s| ==> r[n] == s[|s| - 1 - n]
  {
    if s == [] then [] else Reverse(s[1..]) + [s[0]]
  }

  lemma ConnectedSym(img: Image, t: int, p: int, q: int)
    requires Connected(img, t, p, q)
    ensures Connected(img, t, q, p)
  {
    var s :| IsPath(img, t, s) && s[0] == p && s[|s| - 1] == q;
    var r := Reverse(s);
    forall n | 0 <= n < |r| - 1
      ensures Edge(img, t, r[n], r[n + 1])
    {
      var m := |s| - 2 - n;
      assert r[n] == s[m + 1] && r[n + 1] == s[m];
      EdgeSymmetric(img, t, s[m], s[m + 1]);
    }
    assert IsPath(img, t, r);
  }
}
