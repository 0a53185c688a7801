# Label-propagation image segmentation, modelled in Dafny

The program clusters the foreground pixels of a raster image into connected
regions of similar intensity. Only the first channel of each pixel takes
part. A pixel is foreground when that channel is nonzero.

Two neighbouring pixels (8-neighbourhood) are *similar* when their first
channels differ by strictly less than the threshold.

Labels work as follows:

- Every foreground pixel starts with its own index + 1 as its label.
- Background pixels carry label 0.
- A nonzero label `v` also refers back to pixel `v - 1`, which is where the
  label came from.

The labels are then propagated in rounds. Each round has two passes:

- **Pass A** scans from the bottom-right to the top-left. Each foreground
  pixel takes the largest label among itself and its similar in-image
  neighbours. If its label rose, the new label is also written back to the
  pixel its old label referred to. This write-back is the *correction*.
- **Pass B** does one pointer jump per foreground pixel:
  `label = max(label, labels[label - 1])`.

The round loop runs at most `phases + 1` rounds, where
`phases = ceil(log2(max(width, height))) + 1`. It leaves after the first
round whose Pass A made no correction.

After the rounds:

- Every label first met in raster order opens a cluster and gets the next
  colour.
- Pixels are counted per label.
- The output image gets each pixel's cluster colour.
- The smallest, largest and total cluster size are gathered.

The model is a set of pure functions and loop methods over `seq<int>`. The
modules follow the program's stages:

| module | file | content |
|---|---|---|
| `Grid` | grid.dfy | image, row-major indices, the eight neighbour tests, the threshold test |
| `Connectivity` | connectivity.dfy | regions: chains of linked (adjacent, similar, foreground) pixels |
| `LabelInvariants` | labels.dfy | the invariants of a label array, stability, agreement |
| `Initialisation` | initial.dfy | the initial labels |
| `Relaxation` | relax.dfy | Pass A: neighbour step, correction write, the scan |
| `PointerJump` | jump.dfy | Pass B |
| `Propagation` | propagation.dfy | the round bound and the round loop |
| `Clusters` | clusters.dfy | colour table, counts, recolouring, statistics |
| `Pipeline` | pipeline.dfy | initialisation, rounds and report composed |

Main proof facts:

- The propagation keeps a four-part invariant, `Inv`:
  1. exactly the background pixels carry 0;
  2. every label is in range and refers to a foreground pixel;
  3. no label refers to an earlier pixel;
  4. every label's origin lies in the pixel's own region.
- A round without a correction leaves the labels unchanged. After such a
  round, linked pixels agree and every label names a root.
- So when the loop leaves early, two foreground pixels share a label exactly
  when they lie in the same region.

## Model

| member | source | states |
|---|---|---|
| Grid.Idx | TBB/imageseg_TBB.cpp:67 | the row-major index `i*width + j` of an in-image pixel lies in `[0, width*height)` |
| Grid.GuardIsInBounds | TBB/imageseg_TBB.cpp:79-109 | the boundary tests in front of the eight comparisons (`j != 0`, `j != width-1`, `i != height-1`, `i != 0` and their pairs) accept exactly the neighbours that lie in the image |
| Grid.Position | TBB/imageseg_TBB.cpp:79-109 | every one of the eight directions is compared, exactly once, at its place in the comparison order west, east, south, north, south-east, north-east, south-west, north-west |
| Grid.Nb | TBB/imageseg_TBB.cpp:80-109 | the index a neighbour comparison reads is in range and differs from the pixel's own index |
| Grid.LinkedSymmetric | TBB/imageseg_TBB.cpp:80-109 | the threshold test is symmetric and each direction's opposite leads back, so a similar foreground neighbour sees the pixel as a similar foreground neighbour too |
| Initialisation.InitialOf | TBB/imageseg_TBB.cpp:195-211 | the initial labelling as a value: 0 exactly at pixels whose first channel is 0, index + 1 elsewhere, and every label in range |
| Initialisation.InitialUnique | TBB/imageseg_TBB.cpp:195-211 | that description leaves no choice: any labelling meeting it is `InitialOf` |
| Initialisation.InitialLabels | TBB/imageseg_TBB.cpp:195-211 | after the two loops a pixel's label is 0 exactly when its first channel is 0, and otherwise its index + 1; the loops build `InitialOf` |
| Initialisation.InitialInv | TBB/imageseg_TBB.cpp:195-211 | the initial labelling meets the propagation invariant: labels in `[0, width*height]`, each nonzero label refers to a foreground pixel at or after the pixel, and each pixel is its own origin |
| Relaxation.MaxOver | TBB/imageseg_TBB.cpp:79-109 | folding the comparisons over a list of directions gives at least the starting label and every accepted neighbour's label, and equals one of them |
| Relaxation.Relax | TBB/imageseg_TBB.cpp:79-109 | the neighbour step gives the maximum of the pixel's prior label and the labels of the neighbours that are in the image and similar; a valid reference goes in, a valid reference comes out |
| Relaxation.RelaxDependsOnAccepted | TBB/imageseg_TBB.cpp:79-109 | neighbours that fail a test have no influence: two arrays that agree on the pixel and its accepted neighbours give the same step |
| Relaxation.Correct | TBB/imageseg_TBB.cpp:114-117 | the correction write happens exactly when the label rose; it writes only `labels[ll-1]`, setting it to `max(labels[idx], labels[ll-1])`; nothing else changes, nothing decreases, zeros stay zeros, references stay in range |
| Relaxation.Step | TBB/imageseg_TBB.cpp:67-117 | one pixel of Pass A skips background pixels and reports a rise exactly when an accepted neighbour carries a larger label; without a rise the array is unchanged |
| Relaxation.StepInv | TBB/imageseg_TBB.cpp:71-117 | one pixel of Pass A keeps the propagation invariant, including that the new label's origin lies in the pixel's region |
| Relaxation.RelaxFrom | TBB/imageseg_TBB.cpp:62-120 | the rest of the scan never decreases a label, keeps zeros, keeps references in range, and once a rise is recorded it stays recorded |
| Relaxation.RelaxAllInv | TBB/imageseg_TBB.cpp:62-120 | a whole Pass A keeps the propagation invariant, and on its own the "no label refers backwards" property |
| Relaxation.RelaxAllRose | TBB/imageseg_TBB.cpp:57 | the cleared correction flag of a Pass A means exactly that the pass changed the array, and exactly that some pixel had a similar neighbour with a larger label |
| Relaxation.PassA | TBB/imageseg_TBB.cpp:62-120 | the two reverse loops compute the scan; the labels never decrease, zeros stay, references stay in range, the invariant is kept, and `rose` (the negated correction flag) holds iff the array changed iff it was not stable |
| PointerJump.Jump | TBB/imageseg_TBB.cpp:136 | a pointer jump keeps 0 at background pixels, never decreases a label, and yields a valid reference |
| PointerJump.JumpAt | TBB/imageseg_TBB.cpp:133-136 | Pass B's write at one pixel changes that pixel only, to its jumped label |
| PointerJump.JumpAllProperties | TBB/imageseg_TBB.cpp:126-141 | over labels that refer forwards, the raster-order pass equals the jump over the array as it was before the pass (`label = max(label, labels[label-1])` per pixel); it keeps references forward and keeps the invariant |
| PointerJump.PassB | TBB/imageseg_TBB.cpp:126-141 | the two loops compute the pass; labels never decrease, zeros stay, references stay in range, and each pixel gets its jumped label |
| Propagation.CeilLog2 | TBB/imageseg_TBB.cpp:52 | the least `k` with `n <= 2^k` |
| Propagation.Phases | TBB/imageseg_TBB.cpp:51-52 | `phases` is at least 1 and equals `ceil(log2(max(width, height))) + 1` |
| Propagation.Round | TBB/imageseg_TBB.cpp:57-144 | one round's result is Pass B applied to Pass A's result, and its flag is Pass A's; it never decreases a label and keeps the invariant; it reports a correction exactly when the labelling it started from was not stable; without a correction it leaves the labels unchanged, linked pixels agree and every label names a root, so a further round changes nothing |
| Propagation.QuietRound | TBB/imageseg_TBB.cpp:126-144 | a pointer jump over a stable, invariant labelling changes nothing and leaves a fixed point |
| Propagation.RoundKeeps | TBB/imageseg_TBB.cpp:62-141 | one round as a function, Pass A then Pass B, never decreases a label, keeps zeros, keeps labels referring forwards and keeps the invariant |
| Propagation.StableRound | TBB/imageseg_TBB.cpp:62-141 | a round from a stable labelling that meets the invariant returns it unchanged; then linked pixels agree and every label names a root |
| Propagation.RoundsKeep | TBB/imageseg_TBB.cpp:54-146 | any number of rounds never decreases a label, keeps zeros, keeps labels referring forwards and keeps the invariant |
| Propagation.StableLast | TBB/imageseg_TBB.cpp:144 | when the last of the rounds run started from a stable labelling that meets the invariant, that round changed nothing and the result is final |
| Propagation.RoundLoop | TBB/imageseg_TBB.cpp:54-146 | the loop's result is its input after `rounds` rounds; every round but the last started from a labelling that was not stable, so its correction flag was cleared; `converged` (the loop left through `break`) holds exactly when the last round started from a stable labelling; it runs between 1 and `phases + 1` rounds, and all of them when it does not leave early |
| Propagation.Segment | TBB/imageseg_TBB.cpp:54-146 | the round loop's contract, plus: it never decreases a label and keeps the invariant; when it leaves early the labelling is stable, linked pixels agree and every label names a root |
| LabelInvariants.StableIffAgree | TBB/imageseg_TBB.cpp:80-117 | "no similar neighbour carries a larger label" at every pixel holds exactly when every two adjacent, similar foreground pixels carry equal labels |
| LabelInvariants.AgreeFixedPoint | TBB/imageseg_TBB.cpp:136 | once linked pixels agree, `labels[idx] == labels[labels[idx]-1]` for every foreground pixel |
| LabelInvariants.AgreeClassesAreRegions | TBB/imageseg_TBB.cpp:54-146 | once linked pixels agree, two foreground pixels carry the same label exactly when a chain of adjacent similar foreground pixels joins them |
| Clusters.Inc | TBB/imageseg_TBB.cpp:258 | `count[label]++` adds the key if missing (starting from 0), adds one to it and leaves the other counts alone |
| Clusters.FirstSeen | TBB/imageseg_TBB.cpp:235-261 | the reference order of the clusters: the distinct nonzero labels, each once, in the order they are first met |
| Clusters.TallyClusters | TBB/imageseg_TBB.cpp:239-256 | `clusters` equals the number of distinct nonzero labels, and the colour table holds exactly the labels met, 0 included when a background pixel was met |
| Clusters.TallyCounts | TBB/imageseg_TBB.cpp:250-258 | `count` holds exactly the nonzero labels, and `count[l]` is the number of pixels with label `l` |
| Clusters.TallyColours | TBB/imageseg_TBB.cpp:239-255 | label 0 maps to black, and the `c`-th label met gets the `c`-th colour drawn |
| Clusters.TallySum | TBB/imageseg_TBB.cpp:250-258 | the counts add up to the number of nonzero labels |
| Clusters.AssignColours | TBB/imageseg_TBB.cpp:235-261 | the colouring loop computes the colour table, the cluster number and the counts with all of the above properties |
| Clusters.ToByte | TBB/imageseg_TBB.cpp:273-275 | the `(char)` conversion stored into an unsigned byte keeps the value modulo 256 |
| Clusters.Paint | TBB/imageseg_TBB.cpp:266-278 | the output has three bytes per pixel: offset `3*idx` gets red, `3*idx+1` blue and `3*idx+2` green of the pixel's label colour |
| Clusters.StatsBounds | TBB/imageseg_TBB.cpp:280-285 | starting from `min = width*height` and `max = -1`, the fold gives the least of the start value and the sizes, the largest of -1 and the sizes, and their total |
| Clusters.ClusterStats | TBB/imageseg_TBB.cpp:280-285 | whatever order the count table is visited in, `min_cluster <= count[l] <= max_cluster` for every `l`, each bound is attained or is the start value, and the sum is the total of the counts |
| Pipeline.SegmentImage | TBB/imageseg_TBB.cpp:195-214 | initialisation and rounds: the result is the initial labelling after `rounds` rounds, the loop left after the first round that started from a stable labelling or after `phases + 1` rounds, exactly the background pixels end with 0, and on early exit two foreground pixels share a label exactly when they lie in the same region |
| Pipeline.PaintClusters | TBB/imageseg_TBB.cpp:235-278 | background pixels are painted black; a pixel whose label was the `c`-th label met is painted with the `c`-th colour drawn |
| Pipeline.LabelStats | TBB/imageseg_TBB.cpp:280-285 | every cluster's size is between `min_cluster` and `max_cluster`, each of the two is some cluster's size unless it kept its start value `width*height` or -1, and the sizes add up to the number of nonzero labels |
| Pipeline.Attained | TBB/imageseg_TBB.cpp:280-285 | a size the count table holds is the number of pixels carrying some nonzero label |
| Pipeline.Report | TBB/imageseg_TBB.cpp:219-285 | the painted image, `clusters` as the number of distinct nonzero labels, and the statistics with their bounds attained, together |
| Pipeline.Run | TBB/imageseg_TBB.cpp:195-285 | the whole computation: the labels are the initial labelling after `rounds` rounds with the loop's exit rule, the statistics' bounds are attained cluster sizes, the cluster sizes add up to the number of foreground pixels, and on early exit the clusters are exactly the regions |

## Left out

- Image decoding and encoding, command-line parsing, `printf` reporting and
  timing are not modelled. They are foreign library calls or I/O. The image
  is a parameter (`Image`), and the outputs are return values.
- The TBB `parallel_for` of Pass B is modelled as one sequential schedule,
  rows in order and each row left to right. Other interleavings, and the
  tolerated read race across rows, are not modelled. Over labels that refer
  forwards, this schedule reads only values not yet written in the same
  pass, so it equals the jump over a snapshot of the array. `numThreads` has
  no effect on the model.
- The parallel recolouring loop is modelled as a sequential loop. Its rows
  write disjoint bytes.
- `phases` uses `log` and `ceil` on doubles in the source. The model uses
  the exact integer `ceil(log2(n)) + 1` and requires `max(width, height) >= 1`.
  Floating-point rounding of `log(n)/log(2)` is not modelled.
- Propagation.Segment: the model does not prove that `phases + 1` rounds are
  always enough to reach a round without correction. The contract says which
  rounds ran and why the loop stopped; the region property is stated only for
  the case where the loop left early.
- The average cluster size is a double divided by `clusters`, which is zero
  for an image without foreground. The model keeps only the integer sum.
- Colours come from `random()*255` in the source. The model takes them from
  an abstract `palette`, one colour per new cluster in order. The `int`
  overflow of that product is therefore not modelled.
- The iteration order of the `unordered_map`s is an abstract parameter.
  Clusters.ClusterStats takes the count keys in any order that lists each
  key once, and its contract does not depend on the order.
- Pipeline.Report and Clusters.ClusterStats visit the counts in
  first-occurrence order (`FirstSeen`). Because the statistics contract is
  order-free, this is one admissible order of the source's unordered map.
- C `int` arithmetic is modelled unbounded: `i*width + j`,
  `width*height` and the labels themselves are not checked for 32-bit
  overflow.
- The recolouring writes red, blue, green at offsets 0, 1, 2, as the code
  does. That is not the red-green-blue order of the colour triple. Since the
  colours are arbitrary, the model reproduces the literal order.
