/** The report over the final labelling: every label first met in raster
    order opens a cluster and receives the next colour of the palette,
    pixels are counted per label, the segmented image is painted with the
    label colours, and the smallest, largest and total cluster size are
    gathered. */
module Clusters {
  import opened Grid

  datatype Colour = Colour(red: int, green: int, blue: int)

  /** The colour of the background, label 0. */
  const Black := Colour(0, 0, 0)

  /** The colour table and the pixel counts after a prefix of the labels.
      `colours` holds every label met so far, 0 included; `count` every
      nonzero one. */
  datatype Tally = Tally(clusters: nat, count: map<int, nat>, colours: map<int, Colour>)

  const NoClusters := Tally(0, map[], map[])

  /** `count[v]` on a map whose missing entries read as 0. */
  function CountOf(count: map<int, nat>, v: int): nat {
    if v in count then count[v] else 0
  }

  /** `count[v]++` on a map whose missing entries read as 0. */
  function Inc(count: map<int, nat>, v: int): (r: map<int, nat>)
    ensures r.Keys == count.Keys + {v}
    ensures r[v] == CountOf(count, v) + 1
    ensures forall w :: w in count && w != v ==> r[w] == count[w]
  {
    count[v := CountOf(count, v) + 1]
  }

  /** One pixel of the colouring loop, carrying label `v`. The `c`-th new
      label gets colour `palette(c)`. */
  function Visit(t: Tally, v: int, palette: nat -> Colour): Tally {
    if v == 0 then t.(colours := t.colours[0 := Black])
    else if v !in t.colours then Tally(t.clusters + 1, t.count[v := 1], t.colours[v := palette(t.clusters)])
    else t.(count := Inc(t.count, v))
  }

  /** The colouring loop over the labels in raster order. */
  function TallyOf(labels: seq<int>, palette: nat -> Colour): Tally {
    if labels == [] then NoClusters
    else Visit(TallyOf(labels[..|labels| - 1], palette), labels[|labels| - 1], palette)
  }

  /** Reference definition: the distinct nonzero labels in the order of
      their first occurrence. */
  function FirstSeen(labels: seq<int>): (fs: seq<int>)
    ensures forall v :: v in fs <==> v != 0 && v in labels
    ensures forall a, b :: 0 <= a < b < |fs| ==> fs[a] != fs[b]
  {
    if labels == [] then []
    else
      var prefix := labels[..|labels| - 1];
      var v := labels[|labels| - 1];
      assert labels == prefix + [v];
      var fs := FirstSeen(prefix);
      if v != 0 && v !in fs then fs + [v] else fs
  }

  lemma PrefixMultiset(labels: seq<int>)
    requires labels != []
    ensures multiset(labels) == multiset(labels[..|labels| - 1]) + multiset{labels[|labels| - 1]}
  {
    assert labels == labels[..|labels| - 1] + [labels[|labels| - 1]];
  }

  /** The cluster counter counts the distinct nonzero labels, and the colour
      table holds exactly the labels met. */
  lemma {:induction false} TallyClusters(labels: seq<int>, palette: nat -> Colour)
    ensures TallyOf(labels, palette).clusters == |FirstSeen(labels)|
    ensures forall v :: v in TallyOf(labels, palette).colours <==> v in labels
  {
    if labels != [] {
      var prefix := labels[..|labels| - 1];
      assert labels == prefix + [labels[|labels| - 1]];
      TallyClusters(prefix, palette);
    }
  }

  /** Every nonzero label is counted once per pixel that carries it. */
  lemma {:induction false} TallyCounts(labels: seq<int>, palette: nat -> Colour)
    ensures var t := TallyOf(labels, palette);
      && (forall v :: v in t.count <==> v != 0 && v in labels)
      && (forall v :: v in t.count ==> t.count[v] == multiset(labels)[v])
  {
    if labels != [] {
      var prefix := labels[..|labels| - 1];
      assert labels == prefix + [labels[|labels| - 1]];
      TallyCounts(prefix, palette);
      TallyClusters(prefix, palette);
      PrefixMultiset(labels);
    }
  }

  /** Background pixels are black, and the `c`-th label met gets the `c`-th
      colour of the palette. */
  lemma {:induction false} TallyColours(labels: seq<int>, palette: nat -> Colour)
    ensures var t := TallyOf(labels, palette);
      && (0 in t.colours ==> t.colours[0] == Black)
      && (forall c :: 0 <= c < |FirstSeen(labels)| ==>
            FirstSeen(labels)[c] in t.colours && t.colours[FirstSeen(labels)[c]] == palette(c))
  {
    if labels != [] {
      var prefix := labels[..|labels| - 1];
      assert labels == prefix + [labels[|labels| - 1]];
      TallyColours(prefix, palette);
      TallyClusters(prefix, palette);
    }
  }

  /** The colouring loop: rows top to bottom, each row left to right. */
  method TallyLoop(img: Image, labels: seq<int>, palette: nat -> Colour) returns (t: Tally)
    requires Valid(img) && |labels| == Size(img)
    ensures t == TallyOf(labels, palette)
  {
    t := NoClusters;
    var i := 0;
    while i < img.height
      invariant 0 <= i <= img.height
      invariant Mul(i, img.width) <= |labels|
      invariant t == TallyOf(labels[..Mul(i, img.width)], palette)
    {
      MulMonotone(i + 1, img.height, img.width);
      var j := 0;
      while j < img.width
        invariant 0 <= j <= img.width
        invariant Mul(i, img.width) + j <= |labels|
        invariant t == TallyOf(labels[..Mul(i, img.width) + j], palette)
      {
        var k := Idx(img, i, j);
        assert labels[..k + 1][..k] == labels[..k];
        t := Visit(t, labels[k], palette);
        j := j + 1;
      }
      i := i + 1;
    }
    assert labels[..|labels|] == labels;
  }

  /** The colouring loop and what it leaves behind: one cluster per distinct
      nonzero label, each label's pixel count, black for the background, the
      `c`-th colour of the palette for the `c`-th label met. */
  method AssignColours(img: Image, labels: seq<int>, palette: nat -> Colour) returns (t: Tally)
    requires Valid(img) && |labels| == Size(img)
    ensures t == TallyOf(labels, palette)
    ensures t.clusters == |FirstSeen(labels)|
    ensures forall v :: v in t.colours <==> v in labels
    ensures forall v :: v in t.count <==> v != 0 && v in labels
    ensures forall v :: v in t.count ==> t.count[v] == multiset(labels)[v]
    ensures 0 in t.colours ==> t.colours[0] == Black
    ensures forall c :: 0 <= c < |FirstSeen(labels)| ==> t.colours[FirstSeen(labels)[c]] == palette(c)
    ensures Sum(Sizes(t.count, FirstSeen(labels))) == |labels| - multiset(labels)[0]
  {
    t := TallyLoop(img, labels, palette);
    TallyClusters(labels, palette);
    TallyCounts(labels, palette);
    TallyColours(labels, palette);
    TallySum(labels, palette);
  }

  /** `operator[]` on the `unordered_map` colour tables: a label missing
      from them reads as 0 in every channel, which is `Black`. */
  function Lookup(colours: map<int, Colour>, v: int): Colour {
    if v in colours then colours[v] else Black
  }

  /** The `(char)` conversion of an `int` stored into an `unsigned char`:
      the value modulo 256. */
  function ToByte(x: int): (b: byte)
    ensures (b - x) % 256 == 0
  {
    x % 256
  }

  /** The painting loop: pixel `k` gets the bytes red, blue,
      green of its label's colour at offsets `3k`, `3k + 1`, `3k + 2`. */
  method Paint(img: Image, labels: seq<int>, colours: map<int, Colour>) returns (out: seq<byte>)
    requires Valid(img) && |labels| == Size(img)
    ensures |out| == 3 * |labels|
    ensures forall k :: 0 <= k < |labels| ==>
      && out[3 * k] == ToByte(Lookup(colours, labels[k]).red)
      && out[3 * k + 1] == ToByte(Lookup(colours, labels[k]).blue)
      && out[3 * k + 2] == ToByte(Lookup(colours, labels[k]).green)
  {
    out := [];
    var i := 0;
    while i < img.height
      invariant 0 <= i <= img.height
      invariant Mul(i, img.width) <= |labels|
      invariant |out| == 3 * Mul(i, img.width)
      invariant forall k :: 0 <= k < Mul(i, img.width) ==>
        && out[3 * k] == ToByte(Lookup(colours, labels[k]).red)
        && out[3 * k + 1] == ToByte(Lookup(colours, labels[k]).blue)
        && out[3 * k + 2] == ToByte(Lookup(colours, labels[k]).green)
    {
      MulMonotone(i + 1, img.height, img.width);
      var j := 0;
      while j < img.width
        invariant 0 <= j <= img.width
        invariant Mul(i, img.width) + j <= |labels|
        invariant |out| == 3 * (Mul(i, img.width) + j)
        invariant forall k :: 0 <= k < Mul(i, img.width) + j ==>
          && out[3 * k] == ToByte(Lookup(colours, labels[k]).red)
          && out[3 * k + 1] == ToByte(Lookup(colours, labels[k]).blue)
          && out[3 * k + 2] == ToByte(Lookup(colours, labels[k]).green)
      {
        var k := Idx(img, i, j);
        var c := Lookup(colours, labels[k]);
        out := out + [ToByte(c.red), ToByte(c.blue), ToByte(c.green)];
        j := j + 1;
      }
      i := i + 1;
    }
  }

  /** The pixel counts of the labels in `keys`, in that order. */
  function Sizes(count: map<int, nat>, keys: seq<int>): (s: seq<int>)
    ensures |s| == |keys|
    ensures forall c :: 0 <= c < |keys| ==> s[c] == CountOf(count, keys[c])
  {
    if keys == [] then [] else Sizes(count, keys[..|keys| - 1]) + [CountOf(count, keys[|keys| - 1])]
  }

  function Sum(s: seq<int>): int {
    if s == [] then 0 else Sum(s[..|s| - 1]) + s[|s| - 1]
  }

  /** The statistics loop: smallest size, largest size and total size. */
  datatype Stats = Stats(min: int, max: int, sum: int)

  /** The loop over the cluster counts, starting from `min = n` (the pixel
      count), `max = -1` and `sum = 0`. */
  function StatsOf(sizes: seq<int>, n: int): Stats {
    if sizes == [] then Stats(n, -1, 0)
    else
      var st := StatsOf(sizes[..|sizes| - 1], n);
      var x := sizes[|sizes| - 1];
      Stats(Min(st.min, x), Max(st.max, x), st.sum + x)
  }

  /** The statistics do not depend on the order of the counts: `min` is the
      least of `n` and the sizes, `max` the largest of -1 and the sizes, and
      `sum` their total. */
  lemma {:induction false} StatsBounds(sizes: seq<int>, n: int)
    ensures var st := StatsOf(sizes, n);
      && st.min <= n && (forall c :: 0 <= c < |sizes| ==> st.min <= sizes[c])
      && (st.min == n || exists c :: 0 <= c < |sizes| && st.min == sizes[c])
      && -1 <= st.max && (forall c :: 0 <= c < |sizes| ==> sizes[c] <= st.max)
      && (st.max == -1 || exists c :: 0 <= c < |sizes| && st.max == sizes[c])
      && st.sum == Sum(sizes)
  {
    if sizes != [] {
      var prefix := sizes[..|sizes| - 1];
      StatsBounds(prefix, n);
      var st := StatsOf(prefix, n);
      if st.min != n && Min(st.min, sizes[|sizes| - 1]) == st.min {
        var c :| 0 <= c < |prefix| && st.min == prefix[c];
        assert sizes[c] == prefix[c];
      }
      if st.max != -1 && Max(st.max, sizes[|sizes| - 1]) == st.max {
        var c :| 0 <= c < |prefix| && st.max == prefix[c];
        assert sizes[c] == prefix[c];
      }
    }
  }

  lemma {:induction false} SumBump(s: seq<int>, s': seq<int>, c: nat)
    requires |s'| == |s| && c < |s|
    requires s'[c] == s[c] + 1
    requires forall e :: 0 <= e < |s| && e != c ==> s'[e] == s[e]
    ensures Sum(s') == Sum(s) + 1
  {
    if c < |s| - 1 {
      SumBump(s[..|s| - 1], s'[..|s| - 1], c);
    } else {
      assert s'[..|s| - 1] == s[..|s| - 1];
    }
  }

  lemma SumSnoc(s: seq<int>, x: int)
    ensures Sum(s + [x]) == Sum(s) + x
  {
    assert (s + [x])[..|s|] == s;
  }

  /** Counting a label outside `keys` leaves their sizes alone. */
  lemma SizesFrame(count: map<int, nat>, keys: seq<int>, v: int, x: nat)
    requires v !in keys
    ensures Sizes(count[v := x], keys) == Sizes(count, keys)
  {
  }

  /** Counting one more pixel of a label listed in `keys` adds one to the
      total of their sizes. */
  lemma SizesInc(count: map<int, nat>, keys: seq<int>, c: nat)
    requires c < |keys|
    requires forall a, b :: 0 <= a < b < |keys| ==> keys[a] != keys[b]
    ensures Sum(Sizes(Inc(count, keys[c]), keys)) == Sum(Sizes(count, keys)) + 1
  {
    var s := Sizes(count, keys);
    var s' := Sizes(Inc(count, keys[c]), keys);
    assert s'[c] == s[c] + 1;
    SumBump(s, s', c);
  }

  /** One pixel of the colouring loop adds one to the total of the cluster
      sizes when it is a foreground pixel. */
  lemma VisitSum(t: Tally, fs: seq<int>, v: int, palette: nat -> Colour)
    requires forall w :: w in t.colours && w != 0 <==> w in fs
    requires forall a, b :: 0 <= a < b < |fs| ==> fs[a] != fs[b]
    ensures var fs' := if v != 0 && v !in fs then fs + [v] else fs;
      Sum(Sizes(Visit(t, v, palette).count, fs')) == Sum(Sizes(t.count, fs)) + (if v == 0 then 0 else 1)
  {
    if v != 0 && v !in t.colours {
      SizesFrame(t.count, fs, v, 1);
      SumSnoc(Sizes(t.count[v := 1], fs), 1);
      assert Sizes(t.count[v := 1], fs + [v]) == Sizes(t.count[v := 1], fs) + [1];
    } else if v != 0 {
      var c :| 0 <= c < |fs| && fs[c] == v;
      SizesInc(t.count, fs, c);
    }
  }

  /** The cluster sizes add up to the number of foreground pixels. */
  lemma {:induction false} TallySum(labels: seq<int>, palette: nat -> Colour)
    ensures Sum(Sizes(TallyOf(labels, palette).count, FirstSeen(labels))) == |labels| - multiset(labels)[0]
  {
    if labels != [] {
      var prefix := labels[..|labels| - 1];
      var v := labels[|labels| - 1];
      assert labels == prefix + [v];
      PrefixMultiset(labels);
      TallySum(prefix, palette);
      TallyClusters(prefix, palette);
      TallyCounts(prefix, palette);
      VisitSum(TallyOf(prefix, palette), FirstSeen(prefix), v, palette);
    }
  }

  /** The statistics loop over the count table, visited in the order of
      `keys`, which lists every key of the table once. Whatever that order,
      `min` is the least of `n` and the counts, `max` the largest of -1 and
      the counts, and `sum` their total. */
  method ClusterStats(count: map<int, nat>, keys: seq<int>, n: int) returns (st: Stats)
    requires forall v :: v in count <==> v in keys
    requires forall a, b :: 0 <= a < b < |keys| ==> keys[a] != keys[b]
    ensures st == StatsOf(Sizes(count, keys), n)
    ensures st.min <= n && forall v :: v in count ==> st.min <= count[v]
    ensures st.min == n || exists v :: v in count && st.min == count[v]
    ensures -1 <= st.max && forall v :: v in count ==> count[v] <= st.max
    ensures st.max == -1 || exists v :: v in count && st.max == count[v]
    ensures st.sum == Sum(Sizes(count, keys))
  {
    var sizes := Sizes(count, keys);
    st := Stats(n, -1, 0);
    var c := 0;
    while c < |keys|
      invariant 0 <= c <= |keys|
      invariant st == StatsOf(sizes[..c], n)
    {
      var x := count[keys[c]];
      assert sizes[..c + 1][..c] == sizes[..c];
      st := Stats(Min(st.min, x), Max(st.max, x), st.sum + x);
      c := c + 1;
    }
    assert sizes[..|keys|] == sizes;
    StatsBounds(sizes, n);
    forall v | v in count
      ensures st.min <= count[v] <= st.max
    {
      var c :| 0 <= c < |keys| && keys[c] == v;
      assert sizes[c] == count[v];
    }
  }
}
