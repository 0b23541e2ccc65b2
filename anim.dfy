/**
 * Skeleton animation sampling (src/anim.h).
 *
 * `animdata_sample` searches the keyframes for the first one later than the
 * requested time, derives the pair of frames that bracket that time (with a
 * wrap-around to frame 0 after the last frame), and blends the requested
 * joint's positions in those two frames.  Frame times are modelled as reals;
 * the blend (`tween_t` and `f3_lerp`, float arithmetic) is the parameter
 * `mix`.  The `size_t` arithmetic on the frame indices is modelled exactly,
 * wrap-around included.
 */
module Anim {

  import opened Modular

  /** `animdata_JointKey`, in declaration order. */
  datatype JointKey =
    | Hips | RightArm | RightForeArm | RightHand | Neck | Head
    | LeftArm | LeftForeArm | LeftHand | RightLeg | RightToeBase | RightToeEnd
    | LeftLeg | LeftToeBase | LeftToeEnd

  /** `animdata_JointKey_COUNT`. */
  const JointKeyCount: nat := 15

  /** The value of the enumerator, which indexes `joint_pos`. */
  function Ordinal(j: JointKey): (n: nat)
    ensures n < JointKeyCount
  {
    match j
    case Hips => 0
    case RightArm => 1
    case RightForeArm => 2
    case RightHand => 3
    case Neck => 4
    case Head => 5
    case LeftArm => 6
    case LeftForeArm => 7
    case LeftHand => 8
    case RightLeg => 9
    case RightToeBase => 10
    case RightToeEnd => 11
    case LeftLeg => 12
    case LeftToeBase => 13
    case LeftToeEnd => 14
  }

  /** Distinct joint keys have distinct values. */
  lemma OrdinalInjective(a: JointKey, b: JointKey)
    requires Ordinal(a) == Ordinal(b)
    ensures a == b
  {
  }

  /** One entry of `animdata_limb_connections`: a bone drawn between two joints. */
  datatype Limb = Limb(from: JointKey, to: JointKey)

  /** `animdata_limb_connections`, in source order. */
  const LimbConnections: seq<Limb> := [
    Limb(RightLeg, RightToeBase),
    Limb(LeftLeg, LeftToeBase),
    Limb(Neck, RightArm),
    Limb(Neck, LeftArm),
    Limb(Hips, RightLeg),
    Limb(Hips, LeftLeg),
    Limb(Hips, Neck),
    Limb(RightArm, RightForeArm),
    Limb(RightForeArm, RightHand),
    Limb(Neck, Head),
    Limb(LeftArm, LeftForeArm),
    Limb(LeftForeArm, LeftHand),
    Limb(RightToeBase, RightToeEnd),
    Limb(LeftToeBase, LeftToeEnd)
  ]

  /** The number of limbs between the hips and `j` in the skeleton drawn from the table. */
  function Depth(j: JointKey): nat
  {
    match j
    case Hips => 0
    case RightLeg | LeftLeg | Neck => 1
    case RightToeBase | LeftToeBase | RightArm | LeftArm | Head => 2
    case RightForeArm | LeftForeArm | RightToeEnd | LeftToeEnd => 3
    case RightHand | LeftHand => 4
  }

  /** The index of the first limb from `from` on that ends at `j`, or the table's length when none does. */
  function LimbEndingAt(j: JointKey, from: nat): (i: nat)
    requires from <= |LimbConnections|
    ensures from <= i <= |LimbConnections|
    ensures i < |LimbConnections| ==> LimbConnections[i].to == j
    ensures forall k :: from <= k < i ==> LimbConnections[k].to != j
    decreases |LimbConnections| - from
  {
    if from == |LimbConnections| then from
    else if LimbConnections[from].to == j then from
    else LimbEndingAt(j, from + 1)
  }

  /**
   * Every limb joins two distinct joints whose values index `joint_pos`, and
   * the limbs form a tree rooted at the hips: the hips end no limb, every
   * other joint ends exactly one, and each limb leads one step further from
   * the hips than the limb that ends at its first joint.
   */
  lemma LimbConnectionsFormSkeleton()
    ensures |LimbConnections| == JointKeyCount - 1
    ensures forall i :: 0 <= i < |LimbConnections| ==>
      LimbConnections[i].from != LimbConnections[i].to &&
      Ordinal(LimbConnections[i].from) < JointKeyCount && Ordinal(LimbConnections[i].to) < JointKeyCount
    ensures forall i :: 0 <= i < |LimbConnections| ==> LimbConnections[i].to != Hips
    ensures forall i, k :: 0 <= i < k < |LimbConnections| ==> LimbConnections[i].to != LimbConnections[k].to
    ensures forall j :: j != Hips ==> LimbEndingAt(j, 0) < |LimbConnections|
    ensures forall i :: 0 <= i < |LimbConnections| ==>
      Depth(LimbConnections[i].to) == Depth(LimbConnections[i].from) + 1
    ensures forall j :: Depth(j) == 0 <==> j == Hips
  {
  }

  /**
   * The limbs from the hips down to `j`, as indices into the table: the
   * chain starts at the hips, each limb starts where the previous one ends,
   * and the last ends at `j`.  Every joint is reached, so the table is
   * connected.
   */
  function PathFromHips(j: JointKey): (p: seq<nat>)
    ensures |p| == Depth(j)
    ensures p == [] <==> j == Hips
    ensures forall k :: 0 <= k < |p| ==> p[k] < |LimbConnections|
    ensures p != [] ==> LimbConnections[p[0]].from == Hips && LimbConnections[p[|p| - 1]].to == j
    ensures forall k :: 0 <= k < |p| - 1 ==> LimbConnections[p[k]].to == LimbConnections[p[k + 1]].from
    decreases Depth(j)
  {
    LimbConnectionsFormSkeleton();
    if j == Hips then []
    else
      var i := LimbEndingAt(j, 0);
      PathFromHips(LimbConnections[i].from) + [i]
  }

  /** `animdata_Frame`: a key time and one position per joint. */
  datatype Frame<P> = Frame(time: real, jointPos: seq<P>)

  /** `SIZE_MAX` on a 64-bit target; `(size_t)-1`. */
  const SizeMax: nat := 0xffff_ffff_ffff_ffff

  /** Arithmetic on `size_t` is modulo this. */
  const SizeModulus: nat := SizeMax + 1

  /** Reduction of an integer to `size_t`. */
  function SizeT(x: int): (r: nat)
    ensures r < SizeModulus
    ensures 0 <= x < SizeModulus ==> r == x
    ensures x == -1 ==> r == SizeMax
    ensures x == SizeModulus ==> r == 0
  {
    x % SizeModulus
  }

  /** The first frame from `from` on whose time is later than `t`, or `|frames|` when there is none. */
  function FirstLater<P>(frames: seq<Frame<P>>, t: real, from: nat): (r: nat)
    requires from <= |frames|
    ensures from <= r <= |frames|
    ensures forall k :: from <= k < r ==> frames[k].time <= t
    ensures r < |frames| ==> frames[r].time > t
    decreases |frames| - from
  {
    if from == |frames| then |frames|
    else if frames[from].time > t then from
    else FirstLater(frames, t, from + 1)
  }

  /** FirstLater is the only index with its two properties. */
  lemma FirstLaterUnique<P>(frames: seq<Frame<P>>, t: real, k: nat)
    requires k <= |frames|
    requires forall i :: 0 <= i < k ==> frames[i].time <= t
    requires k < |frames| ==> frames[k].time > t
    ensures FirstLater(frames, t, 0) == k
  {
  }

  /**
   * The pair (lhs_frame, rhs_frame) `animdata_sample` computes, in `size_t`
   * arithmetic: `rhs_frame` starts as `(size_t)-1` and becomes the first
   * later frame if there is one; then
   * `lhs_frame = (last_frame ? count : rhs_frame) - 1` and
   * `rhs_frame = (lhs_frame + 1) % count`.
   */
  function FrameIndices<P>(frames: seq<Frame<P>>, t: real): (lr: (nat, nat))
    requires 1 <= |frames| <= SizeMax
    ensures lr.1 == SizeT(lr.0 + 1) % |frames|
    ensures frames[0].time <= t ==> lr.0 < |frames| && lr.1 == (lr.0 + 1) % |frames|
    ensures frames[0].time > t ==> lr.0 == SizeMax && lr.1 == 0
    ensures var r := FirstLater(frames, t, 0);
      (0 < r < |frames| ==> lr == (r - 1, r)) && (r == |frames| ==> lr == (|frames| - 1, 0))
  {
    var found := FirstLater(frames, t, 0);
    var rhs := if found < |frames| then found else SizeMax;
    var last := rhs == SizeMax;
    var lhs := SizeT((if last then |frames| else rhs) - 1);
    ModFacts(SizeT(lhs + 1), |frames|);
    (lhs, SizeT(lhs + 1) % |frames|)
  }

  /** Does no frame lie after `t`, so that the blend runs towards the end of the animation? */
  predicate IsLastFrame<P>(frames: seq<Frame<P>>, t: real)
  {
    FirstLater(frames, t, 0) == |frames|
  }

  /** `next_frame_t`: the animation's duration after the last frame, else the time of frame rhs. */
  function NextFrameTime<P>(frames: seq<Frame<P>>, duration: real, t: real): (next: real)
    requires 1 <= |frames| <= SizeMax
    ensures IsLastFrame(frames, t) ==> next == duration
    ensures !IsLastFrame(frames, t) ==> t < next && next == frames[FirstLater(frames, t, 0)].time
  {
    if IsLastFrame(frames, t) then duration else frames[FrameIndices(frames, t).1].time
  }

  /**
   * When frame 0 is not later than `t`, the two frames bracket `t`: frame lhs
   * is at or before `t`, frame rhs follows it (cyclically), and unless lhs is
   * the last frame, frame rhs is after `t`.  With non-decreasing times, lhs
   * is the latest frame at or before `t`.
   */
  lemma {:induction false} FrameIndicesBracket<P>(frames: seq<Frame<P>>, t: real)
    requires 1 <= |frames| <= SizeMax
    requires frames[0].time <= t
    ensures var (lhs, rhs) := FrameIndices(frames, t);
      lhs < |frames| && rhs < |frames| && frames[lhs].time <= t &&
      (!IsLastFrame(frames, t) ==> rhs == lhs + 1 && t < frames[rhs].time) &&
      (IsLastFrame(frames, t) ==> lhs == |frames| - 1 && rhs == 0)
    ensures (forall i, j :: 0 <= i <= j < |frames| ==> frames[i].time <= frames[j].time) ==>
      forall k :: FrameIndices(frames, t).0 < k < |frames| ==> t < frames[k].time
  {
    var r := FirstLater(frames, t, 0);
    assert r > 0;
    if r < |frames| && forall i, j :: 0 <= i <= j < |frames| ==> frames[i].time <= frames[j].time {
      assert forall k :: r <= k < |frames| ==> frames[r].time <= frames[k].time;
    }
  }

  /**
   * `animdata_sample`: the linear search with its `break`, the index
   * arithmetic, and the blend of the requested joint in frames lhs and rhs.
   */
  method Sample<P>(frames: seq<Frame<P>>, duration: real, joint: JointKey, t: real,
                   mix: (P, P, real, real, real) -> P)
    returns (pos: P)
    requires 1 <= |frames| <= SizeMax
    requires frames[0].time <= t
    requires forall i :: 0 <= i < |frames| ==> |frames[i].jointPos| == JointKeyCount
    ensures var (lhs, rhs) := FrameIndices(frames, t);
      pos == mix(frames[lhs].jointPos[Ordinal(joint)], frames[rhs].jointPos[Ordinal(joint)],
                 t, frames[lhs].time, NextFrameTime(frames, duration, t))
  {
    var rhsFrame := SizeMax;
    var i := 0;
    while i < |frames|
      invariant 0 <= i <= |frames|
      invariant forall k :: 0 <= k < i ==> frames[k].time <= t
      invariant rhsFrame == SizeMax
    {
      if frames[i].time > t {
        rhsFrame := i;
        break;
      }
      i := i + 1;
    }
    FirstLaterUnique(frames, t, i);
    var lastFrame := rhsFrame == SizeMax;
    var lhsFrame := SizeT((if lastFrame then |frames| else rhsFrame) - 1);
    rhsFrame := SizeT(lhsFrame + 1) % |frames|;
    FrameIndicesBracket(frames, t);
    var nextFrameT := if lastFrame then duration else frames[rhsFrame].time;
    var thisFrameT := frames[lhsFrame].time;
    pos := mix(frames[lhsFrame].jointPos[Ordinal(joint)], frames[rhsFrame].jointPos[Ordinal(joint)],
               t, thisFrameT, nextFrameT);
  }
}
