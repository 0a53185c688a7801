/** The round loop of the segmentation: each round runs the relax pass and
    then the pointer-jumping pass, at most `Phases(img) + 1` rounds are run,
    and the loop leaves right after the first round whose relax pass raised
    no label. */
module Propagation {
  import opened Grid
  import opened Connectivity
  import opened LabelInvariants
  import opened Relaxation
  import opened PointerJump

  function Pow2(k: nat): nat {
    if k == 0 then 1 else 2 * Pow2(k - 1)
  }

  /** The least `k` with 2^k >= n. */
  function CeilLog2(n: int): (k: nat)
    requires n >= 1
    ensures n <= Pow2(k)
    ensures k > 0 ==> Pow2(k - 1) < n
    decreases n
  {
    if n == 1 then 0 else 1 + CeilLog2((n + 1) / 2)
  }

  /** The round bound `ceil(log2(max(width, height))) + 1`; the round loop
      runs at most this many rounds plus one. */
  function Phases(img: Image): (p: nat)
    requires img.width >= 1 || img.height >= 1
    ensures p >= 1
    ensures Max(img.width, img.height) <= Pow2(p - 1)
    ensures p >= 2 ==> Pow2(p - 2) < Max(img.width, img.height)
  {
    CeilLog2(Max(img.width, img.height)) + 1
  }

  /** The labelling one round leaves: the relax pass, then the
      pointer-jumping pass over its result. */
  function RoundOf(img: Image, t: int, labels: seq<int>): (out: seq<int>)
    requires Valid(img) && |labels| == Size(img) && InRange(labels)
    ensures |out| == |labels| && InRange(out)
  {
    JumpAll(img, RelaxAll(img, t, labels).labels)
  }

  /** The labelling after `n` rounds from `labels`. */
  function Rounds(img: Image, t: int, labels: seq<int>, n: nat): (out: seq<int>)
    requires Valid(img) && |labels| == Size(img) && InRange(labels)
    ensures |out| == |labels| && InRange(out)
    decreases n
  {
    if n == 0 then labels else RoundOf(img, t, Rounds(img, t, labels, n - 1))
  }

  /** One round: Pass A, then Pass B. A round without a rise leaves a
      propagated labelling unchanged, and then linked pixels agree and every
      label names a root. */
  method Round(img: Image, t: int, labels: seq<int>) returns (out: seq<int>, rose: bool)
    requires Valid(img) && |labels| == Size(img) && InRange(labels)
    ensures out == RoundOf(img, t, labels) && rose == RelaxAll(img, t, labels).rose
    ensures |out| == |labels| && InRange(out)
    ensures Monotone(labels, out) && SameZeros(labels, out)
    ensures Forward(labels) ==> Forward(out)
    ensures rose <==> !Stable(img, t, labels)
    ensures Inv(img, t, labels) ==> Inv(img, t, out)
    ensures Inv(img, t, labels) ==> (rose <==> out != labels)
    ensures Inv(img, t, labels) && !rose ==> FixedPoint(out) && Agree(img, t, out)
  {
    var relaxed;
    relaxed, rose := PassA(img, t, labels);
    out := PassB(img, relaxed);
    MonotoneTrans(labels, relaxed, out);
    if Inv(img, t, labels) {
      JumpAllProperties(img, t, relaxed);
      if rose {
        StaysChanged(labels, relaxed, out);
      } else {
        QuietRound(img, t, labels, relaxed, out);
      }
    }
  }

  /** A pointer jump over a stable propagated labelling changes nothing:
      linked pixels already agree, so every label names a root. `relaxed` is
      what Pass A returned and `out` what Pass B made of it; a quiet Pass A
      returns its input, hence `relaxed == labels`. Taking Pass A's result as
      its own parameter lets the jump facts be used as Pass B stated them,
      without rewriting them in terms of `labels`. */
  lemma QuietRound(img: Image, t: int, labels: seq<int>, relaxed: seq<int>, out: seq<int>)
    requires Inv(img, t, labels) && Stable(img, t, labels) && relaxed == labels
    requires |out| == |labels| && SameZeros(labels, out)
    requires forall k {:trigger out[k]} :: 0 <= k < |relaxed| && relaxed[k] != 0 ==> out[k] == relaxed[relaxed[k] - 1]
    ensures out == labels && Agree(img, t, out) && FixedPoint(out)
  {
    StableIffAgree(img, t, labels);
    AgreeFixedPoint(img, t, labels);
    assert forall k :: 0 <= k < |labels| ==> out[k] == labels[k];
  }

  /** A round keeps the order, the zeros, the forward property and the
      invariant. */
  lemma RoundKeeps(img: Image, t: int, labels: seq<int>)
    requires Valid(img) && |labels| == Size(img) && InRange(labels)
    ensures Monotone(labels, RoundOf(img, t, labels)) && SameZeros(labels, RoundOf(img, t, labels))
    ensures Forward(labels) ==> Forward(RoundOf(img, t, labels))
    ensures Inv(img, t, labels) ==> Inv(img, t, RoundOf(img, t, labels))
  {
    var relaxed := RelaxAll(img, t, labels).labels;
    RelaxAllInv(img, t, labels);
    MonotoneTrans(labels, relaxed, RoundOf(img, t, labels));
    if Forward(relaxed) {
      JumpAllProperties(img, t, relaxed);
    }
  }

  /** A round from a stable propagated labelling returns it unchanged, and
      that labelling is final. */
  lemma StableRound(img: Image, t: int, labels: seq<int>)
    requires Valid(img) && |labels| == Size(img) && Inv(img, t, labels) && Stable(img, t, labels)
    ensures RoundOf(img, t, labels) == labels
    ensures Agree(img, t, labels) && FixedPoint(labels)
  {
    RelaxAllRose(img, t, labels);
    var relaxed := RelaxAll(img, t, labels).labels;
    JumpAllProperties(img, t, relaxed);
    QuietRound(img, t, labels, relaxed, RoundOf(img, t, labels));
  }

  /** `out` keeps the order, the zeros, the forward property and the
      invariant of `labels`. */
  ghost predicate Keeps(img: Image, t: int, labels: seq<int>, out: seq<int>) {
    && Monotone(labels, out) && SameZeros(labels, out)
    && (Forward(labels) ==> Forward(out))
    && (Inv(img, t, labels) ==> Inv(img, t, out))
  }

  /** Any number of rounds keeps the order, the zeros, the forward property
      and the invariant. */
  lemma {:induction false} RoundsKeep(img: Image, t: int, labels: seq<int>, n: nat)
    requires Valid(img) && |labels| == Size(img) && InRange(labels)
    ensures Keeps(img, t, labels, Rounds(img, t, labels, n))
    decreases n
  {
    if n > 0 {
      RoundsKeep(img, t, labels, n - 1);
      KeepsOneMore(img, t, labels, n);
    }
  }

  /** One more round keeps what the rounds before it kept. */
  lemma KeepsOneMore(img: Image, t: int, labels: seq<int>, n: nat)
    requires Valid(img) && |labels| == Size(img) && InRange(labels)
    requires n > 0 && Keeps(img, t, labels, Rounds(img, t, labels, n - 1))
    ensures Keeps(img, t, labels, Rounds(img, t, labels, n))
  {
    var prev := Rounds(img, t, labels, n - 1);
    RoundKeeps(img, t, prev);
    MonotoneTrans(labels, prev, Rounds(img, t, labels, n));
  }

  /** When the last of `n` rounds started from a stable labelling and the
      rounds started from a propagated one, the result is final. */
  lemma StableLast(img: Image, t: int, labels: seq<int>, n: nat)
    requires Valid(img) && |labels| == Size(img) && Inv(img, t, labels)
    requires n >= 1 && Stable(img, t, Rounds(img, t, labels, n - 1))
    ensures Rounds(img, t, labels, n) == Rounds(img, t, labels, n - 1)
    ensures Stable(img, t, Rounds(img, t, labels, n))
    ensures Agree(img, t, Rounds(img, t, labels, n)) && FixedPoint(Rounds(img, t, labels, n))
  {
    RoundsKeep(img, t, labels, n - 1);
    StableRound(img, t, Rounds(img, t, labels, n - 1));
  }

  /** The round after `pp` rounds: its result is the labelling after
      `pp + 1` rounds, and it rose exactly when it started from an unstable
      labelling. */
  lemma NextRound(img: Image, t: int, labels: seq<int>, pp: nat, before: seq<int>, next: seq<int>, rose: bool)
    requires Valid(img) && |labels| == Size(img) && InRange(labels)
    requires before == Rounds(img, t, labels, pp)
    requires next == JumpAll(img, RelaxAll(img, t, before).labels)
    requires rose <==> !Stable(img, t, before)
    requires forall r :: 0 <= r < pp ==> !Stable(img, t, Rounds(img, t, labels, r))
    ensures next == Rounds(img, t, labels, pp + 1)
    ensures rose ==> forall r :: 0 <= r < pp + 1 ==> !Stable(img, t, Rounds(img, t, labels, r))
    ensures !rose ==> Stable(img, t, Rounds(img, t, labels, pp))
  {
  }

  /** The round loop: rounds 0 through `Phases(img)`, leaving right after the
      first round whose relax pass raised no label. `out` is the labelling
      after the rounds run; every round but the last started from a labelling
      that was not stable, and `converged` says the last one started from a
      stable one. */
  method RoundLoop(img: Image, t: int, labels: seq<int>) returns (out: seq<int>, rounds: nat, converged: bool)
    requires Valid(img) && |labels| == Size(img) && InRange(labels)
    requires img.width >= 1 || img.height >= 1
    ensures 1 <= rounds <= Phases(img) + 1
    ensures !converged ==> rounds == Phases(img) + 1
    ensures out == Rounds(img, t, labels, rounds)
    ensures forall r :: 0 <= r < rounds - 1 ==> !Stable(img, t, Rounds(img, t, labels, r))
    ensures converged <==> Stable(img, t, Rounds(img, t, labels, rounds - 1))
  {
    var phases := Phases(img);
    out := labels;
    rounds := 0;
    converged := false;
    var pp := 0;
    while pp <= phases
      invariant 0 <= pp <= phases + 1
      invariant rounds == pp
      invariant !converged
      invariant out == Rounds(img, t, labels, pp)
      invariant forall r :: 0 <= r < pp ==> !Stable(img, t, Rounds(img, t, labels, r))
    {
      var rose;
      var next;
      next, rose := Round(img, t, out);
      NextRound(img, t, labels, pp, out, next, rose);
      out := next;
      rounds := rounds + 1;
      if !rose {
        converged := true;
        break;
      }
      pp := pp + 1;
    }
    LoopExit(img, t, labels, rounds, converged);
  }

  /** Where the round loop leaves: after a quiet round, or after the last
      one. */
  lemma LoopExit(img: Image, t: int, labels: seq<int>, rounds: nat, converged: bool)
    requires Valid(img) && |labels| == Size(img) && InRange(labels)
    requires rounds >= 1
    requires converged ==> Stable(img, t, Rounds(img, t, labels, rounds - 1))
    requires !converged ==> forall r :: 0 <= r < rounds ==> !Stable(img, t, Rounds(img, t, labels, r))
    ensures converged <==> Stable(img, t, Rounds(img, t, labels, rounds - 1))
  {
  }

  /** The segmentation's propagation: the round loop keeps the order, the
      zeros, the forward property and the invariant, and when it left early
      from a propagated labelling that labelling is final: it is stable,
      linked pixels agree and every label names a root. */
  method Segment(img: Image, t: int, labels: seq<int>) returns (out: seq<int>, rounds: nat, converged: bool)
    requires Valid(img) && |labels| == Size(img) && InRange(labels)
    requires img.width >= 1 || img.height >= 1
    ensures 1 <= rounds <= Phases(img) + 1
    ensures !converged ==> rounds == Phases(img) + 1
    ensures out == Rounds(img, t, labels, rounds)
    ensures forall r :: 0 <= r < rounds - 1 ==> !Stable(img, t, Rounds(img, t, labels, r))
    ensures converged <==> Stable(img, t, Rounds(img, t, labels, rounds - 1))
    ensures |out| == |labels| && InRange(out)
    ensures Monotone(labels, out) && SameZeros(labels, out)
    ensures Forward(labels) ==> Forward(out)
    ensures Inv(img, t, labels) ==> Inv(img, t, out)
    ensures Inv(img, t, labels) && converged ==> Stable(img, t, out) && Agree(img, t, out) && FixedPoint(out)
  {
    out, rounds, converged := RoundLoop(img, t, labels);
    RoundsKeep(img, t, labels, rounds);
    if converged && Inv(img, t, labels) {
      StableLast(img, t, labels, rounds);
    }
  }
}
