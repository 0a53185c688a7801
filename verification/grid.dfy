/** The pixel buffer and its 8-neighbourhood: image shape, row-major
    indexing, the primary channel, the similarity test, and the eight
    neighbour directions with the boundary tests the relax pass performs. */
module Grid {

  /** One channel value of an 8-bit image buffer. */
  type byte = x: int | 0 <= x < 256

  /** A row-major buffer of `width * height` pixels with `channels` bytes each. */
  datatype Image = Image(width: int, height: int, channels: int, data: seq<byte>)

  /** The product `a * b`, built up by repeated addition. Row offsets and
      channel offsets are products of two variables; stating them through
      this function keeps every fact about them linear. */
  function Mul(a: nat, b: nat): nat {
    if a == 0 then 0 else Mul(a - 1, b) + b
  }

  lemma {:induction false} MulMonotone(a: nat, c: nat, b: nat)
    requires a <= c
    ensures Mul(a, b) <= Mul(c, b)
    decreases c - a
  {
    if a < c {
      MulMonotone(a + 1, c, b);
    }
  }

  predicate Valid(img: Image) {
    && img.width >= 0
    && img.height >= 0
    && img.channels >= 1
    && |img.data| == Mul(Mul(img.height, img.width), img.channels)
  }

  /** Number of pixels, which is also the length of the label array. */
  function Size(img: Image): nat
    requires Valid(img)
  {
    Mul(img.height, img.width)
  }

  function Abs(x: int): nat {
    if x < 0 then -x else x
  }

  function Max(a: int, b: int): int {
    if a < b then b else a
  }

  function Min(a: int, b: int): int {
    if a < b then a else b
  }

  predicate InGrid(img: Image, i: int, j: int) {
    0 <= i < img.height && 0 <= j < img.width
  }

  /** Row `i` of a `w`-wide image starts at `Mul(i, w)`; all its pixels come
      before row `h` when `i < h`. */
  lemma RowMajorBound(i: nat, j: nat, w: nat, h: nat)
    requires i < h && j < w
    ensures Mul(i, w) + j < Mul(i + 1, w) <= Mul(h, w)
  {
    MulMonotone(i + 1, h, w);
  }

  /** Row-major index of the pixel in row `i`, column `j`. */
  function Idx(img: Image, i: int, j: int): (k: int)
    requires Valid(img) && InGrid(img, i, j)
    ensures 0 <= k < Size(img)
  {
    RowMajorBound(i, j, img.width, img.height);
    Mul(i, img.width) + j
  }

  /** The first channel of pixel `k`, the only one the segmentation looks at. */
  function Primary(img: Image, k: int): byte
    requires Valid(img) && 0 <= k < Size(img)
  {
    MulMonotone(k + 1, Size(img), img.channels);
    img.data[Mul(k, img.channels)]
  }

  /** A pixel whose primary channel is nonzero takes part in the clustering. */
  predicate Foreground(img: Image, k: int)
    requires Valid(img) && 0 <= k < Size(img)
  {
    Primary(img, k) != 0
  }

  /** The threshold test: primary channels differ by strictly less than `t`. */
  predicate Similar(img: Image, t: int, p: int, q: int)
    requires Valid(img) && 0 <= p < Size(img) && 0 <= q < Size(img)
  {
    Abs(Primary(img, p) - Primary(img, q)) < t
  }

  /** The eight neighbours of a pixel. */
  datatype Dir = West | East | South | North | SouthEast | NorthEast | SouthWest | NorthWest

  /** The order in which the relax pass compares a pixel with its neighbours. */
  const Neighbours: seq<Dir> := [West, East, South, North, SouthEast, NorthEast, SouthWest, NorthWest]

  function DRow(d: Dir): int {
    match d
    case West => 0
    case East => 0
    case South => 1
    case North => -1
    case SouthEast => 1
    case NorthEast => -1
    case SouthWest => 1
    case NorthWest => -1
  }

  function DCol(d: Dir): int {
    match d
    case West => -1
    case East => 1
    case South => 0
    case North => 0
    case SouthEast => 1
    case NorthEast => 1
    case SouthWest => -1
    case NorthWest => -1
  }

  function Opposite(d: Dir): Dir {
    match d
    case West => East
    case East => West
    case South => North
    case North => South
    case SouthEast => NorthWest
    case NorthEast => SouthWest
    case SouthWest => NorthEast
    case NorthWest => SouthEast
  }

  /** The boundary test the relax pass performs before looking at neighbour `d`
      of the pixel in row `i`, column `j`. */
  predicate Guard(img: Image, i: int, j: int, d: Dir) {
    match d
    case West => j != 0
    case East => j != img.width - 1
    case South => i != img.height - 1
    case North => i != 0
    case SouthEast => i != img.height - 1 && j != img.width - 1
    case NorthEast => i != 0 && j != img.width - 1
    case SouthWest => i != img.height - 1 && j != 0
    case NorthWest => i != 0 && j != 0
  }

  /** The boundary tests accept exactly the neighbours that lie inside the image. */
  lemma GuardIsInBounds(img: Image, i: int, j: int, d: Dir)
    requires InGrid(img, i, j)
    ensures Guard(img, i, j, d) <==> InGrid(img, i + DRow(d), j + DCol(d))
  {
  }

  /** Where direction `d` comes in the comparison order: every direction is
      compared, and exactly once. */
  function Position(d: Dir): (n: nat)
    ensures n < |Neighbours| && Neighbours[n] == d
    ensures forall m :: 0 <= m < |Neighbours| && Neighbours[m] == d ==> m == n
  {
    match d
    case West => 0
    case East => 1
    case South => 2
    case North => 3
    case SouthEast => 4
    case NorthEast => 5
    case SouthWest => 6
    case NorthWest => 7
  }

  /** Index of neighbour `d` of the pixel in row `i`, column `j`. */
  function Nb(img: Image, i: int, j: int, d: Dir): (k: int)
    requires Valid(img) && InGrid(img, i, j) && Guard(img, i, j, d)
    ensures 0 <= k < Size(img)
    ensures InGrid(img, i + DRow(d), j + DCol(d))
    ensures k != Idx(img, i, j)
  {
    GuardIsInBounds(img, i, j, d);
    Idx(img, i + DRow(d), j + DCol(d))
  }

  /** Neighbour `d` passes both tests of the relax pass: it exists and it is similar. */
  predicate Accepts(img: Image, t: int, i: int, j: int, d: Dir) {
    && Valid(img)
    && InGrid(img, i, j)
    && Guard(img, i, j, d)
    && Similar(img, t, Idx(img, i, j), Nb(img, i, j, d))
  }

  /** An edge of the similarity graph: two adjacent, similar foreground pixels. */
  predicate Linked(img: Image, t: int, i: int, j: int, d: Dir) {
    && Accepts(img, t, i, j, d)
    && Foreground(img, Idx(img, i, j))
    && Foreground(img, Nb(img, i, j, d))
  }

  /** The similarity graph is undirected: the threshold test is symmetric and
      the opposite direction leads back. */
  lemma LinkedSymmetric(img: Image, t: int, i: int, j: int, d: Dir)
    requires Linked(img, t, i, j, d)
    ensures InGrid(img, i + DRow(d), j + DCol(d))
    ensures Guard(img, i + DRow(d), j + DCol(d), Opposite(d))
    ensures Nb(img, i + DRow(d), j + DCol(d), Opposite(d)) == Idx(img, i, j)
    ensures Linked(img, t, i + DRow(d), j + DCol(d), Opposite(d))
  {
    var i', j' := i + DRow(d), j + DCol(d);
    assert i' + DRow(Opposite(d)) == i && j' + DCol(Opposite(d)) == j;
    GuardIsInBounds(img, i', j', Opposite(d));
  }
}
