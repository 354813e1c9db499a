/**
 * The `DrawSkeleton` behaviour: a fixed table of bones over the 17 keypoints, and a
 * per-frame pass that shows a bone's line iff both of its keypoints are active.
 */
module Skeleton {
  import opened PoseTypes

  /** A `{ startIndex, endIndex }` entry of `jointPairs`. */
  datatype JointPair = JointPair(start: int, end: int)

  /** The bones in slot order, as `InitializeSkeleton` lays them out. */
  const Bones: seq<JointPair> := [
    // face: nose-eyes, eyes-ears
    JointPair(0, 1), JointPair(0, 2), JointPair(1, 3), JointPair(2, 4),
    // torso: shoulders, sides, both diagonals, hips
    JointPair(5, 6), JointPair(5, 11), JointPair(6, 12), JointPair(5, 12), JointPair(6, 11), JointPair(11, 12),
    // arms
    JointPair(5, 7), JointPair(7, 9), JointPair(6, 8), JointPair(8, 10),
    // legs
    JointPair(11, 13), JointPair(13, 15), JointPair(12, 14), JointPair(14, 16)
  ]

  predicate InRange(b: JointPair, lo: int, hi: int) {
    lo <= b.start < hi && lo <= b.end < hi
  }

  /** One slot per keypoint plus one; every bone joins two distinct, existing keypoints. */
  lemma BonesWellFormed()
    ensures |Bones| == NumKeypoints + 1
    ensures forall i | 0 <= i < |Bones| :: InRange(Bones[i], 0, NumKeypoints) && Bones[i].start != Bones[i].end
  {
  }

  /** No bone is listed twice, in either direction. */
  lemma BonesDistinct()
    ensures forall i, j | 0 <= i < j < |Bones| ::
              Bones[i] != Bones[j] && Bones[i] != JointPair(Bones[j].end, Bones[j].start)
  {
  }

  /**
   * Slots 0-3 join face keypoints (0-4), slots 4-9 the shoulders and hips (5, 6, 11, 12)
   * including both diagonals, slots 10-13 the arms (5-10) and slots 14-17 the legs (11-16).
   */
  lemma BoneGroups()
    ensures forall i | 0 <= i < 4 :: InRange(Bones[i], 0, 5)
    ensures forall i | 4 <= i < 10 :: Bones[i].start in {5, 6, 11, 12} && Bones[i].end in {5, 6, 11, 12}
    ensures Bones[7] == JointPair(5, 12) && Bones[8] == JointPair(6, 11)
    ensures forall i | 10 <= i < 14 :: InRange(Bones[i], 5, 11)
    ensures forall i | 14 <= i < 18 :: InRange(Bones[i], 11, 17)
  {
  }

  /** Every keypoint is an endpoint of some bone. */
  lemma EveryKeypointHasBone(k: int)
    requires 0 <= k < NumKeypoints
    ensures exists i | 0 <= i < |Bones| :: Bones[i].start == k || Bones[i].end == k
  {
    var i := if k <= 4 then [0, 0, 1, 2, 3][k]
             else if k <= 12 then [4, 4, 10, 12, 11, 13, 5, 6][k - 5]
             else [14, 16, 15, 17][k - 13];
    assert Bones[i].start == k || Bones[i].end == k;
  }

  /** A line is shown iff both of its keypoints are active. */
  predicate LineShown(b: JointPair, active: seq<bool>)
    requires InRange(b, 0, |active|)
  {
    active[b.start] && active[b.end]
  }

  /**
   * With keypoints 5 and 6 active and 11 inactive, the shoulder line (5, 6) is shown
   * and the lines (5, 11) and (6, 11) are hidden.
   */
  lemma ShoulderHipExample(active: seq<bool>)
    requires |active| == NumKeypoints
    requires active[5] && active[6] && !active[11]
    ensures LineShown(Bones[4], active)
    ensures !LineShown(Bones[5], active) && !LineShown(Bones[8], active)
  {
  }

  class DrawSkeleton {
    /** Length of the script's `keypoints` array. */
    const keypointCount: nat
    /** `jointPairs`; `None` is a slot `InitializeSkeleton` never wrote (a null entry). */
    const jointPairs: array<Option<JointPair>>
    /** Per line: active flag and its two positions. */
    const lineActive: array<bool>
    const lineStart: array<Vec2>
    const lineEnd: array<Vec2>

    ghost predicate Valid()
      reads this
    {
      && jointPairs.Length == keypointCount + 1
      && lineActive.Length == jointPairs.Length
      && lineStart.Length == jointPairs.Length && lineEnd.Length == jointPairs.Length
      && lineStart != lineEnd
    }

    /** Every slot holds a pair of keypoint indices, so `RenderSkeleton` can run. */
    ghost predicate Renderable()
      reads this, jointPairs
    {
      && Valid()
      && forall i | 0 <= i < jointPairs.Length ::
           jointPairs[i].Some? && InRange(jointPairs[i].value, 0, keypointCount)
    }

    /**
     * `Start`: one slot per keypoint plus one, then the bone table. It needs at least 17
     * keypoints (slot 17 is written, keypoints up to 16 are named); with more, the slots
     * past 17 stay empty and `RenderSkeleton` cannot run.
     */
    constructor (keypointCount: nat)
      requires NumKeypoints <= keypointCount
      ensures Valid()
      ensures this.keypointCount == keypointCount
      ensures fresh(jointPairs) && fresh(lineActive) && fresh(lineStart) && fresh(lineEnd)
      ensures forall i | 0 <= i < |Bones| :: jointPairs[i] == Some(Bones[i])
      ensures forall i | |Bones| <= i < jointPairs.Length :: jointPairs[i] == None
      ensures Renderable() <==> keypointCount == NumKeypoints
    {
      var numPairs := keypointCount + 1;
      this.keypointCount := keypointCount;
      jointPairs := new Option<JointPair>[numPairs](_ => None);
      lineActive := new bool[numPairs](_ => true);
      lineStart := new Vec2[numPairs](_ => Vec2(0.0, 0.0));
      lineEnd := new Vec2[numPairs](_ => Vec2(0.0, 0.0));
      new;
      InitializeSkeleton();
      if keypointCount != NumKeypoints {
        assert jointPairs[|Bones|] == None;
      }
    }

    /** Records bone `pairIndex` as joining `startIndex` and `endIndex`. */
    method InitializeLine(pairIndex: int, startIndex: int, endIndex: int)
      requires Valid() && 0 <= pairIndex < jointPairs.Length
      requires 0 <= startIndex < keypointCount && 0 <= endIndex < keypointCount
      modifies jointPairs
      ensures jointPairs[..] == old(jointPairs[..])[pairIndex := Some(JointPair(startIndex, endIndex))]
    {
      jointPairs[pairIndex] := Some(JointPair(startIndex, endIndex));
    }

    /** Writes the 18 bones of the table into slots 0-17. */
    method InitializeSkeleton()
      requires Valid() && NumKeypoints <= keypointCount
      modifies jointPairs
      ensures forall i | 0 <= i < |Bones| :: jointPairs[i] == Some(Bones[i])
      ensures forall i | |Bones| <= i < jointPairs.Length :: jointPairs[i] == old(jointPairs[i])
    {
      // face
      InitializeLine(0, 0, 1);
      InitializeLine(1, 0, 2);
      InitializeLine(2, 1, 3);
      InitializeLine(3, 2, 4);
      // torso
      InitializeLine(4, 5, 6);
      InitializeLine(5, 5, 11);
      InitializeLine(6, 6, 12);
      InitializeLine(7, 5, 12);
      InitializeLine(8, 6, 11);
      InitializeLine(9, 11, 12);
      // arms
      InitializeLine(10, 5, 7);
      InitializeLine(11, 7, 9);
      InitializeLine(12, 6, 8);
      InitializeLine(13, 8, 10);
      // legs
      InitializeLine(14, 11, 13);
      InitializeLine(15, 13, 15);
      InitializeLine(16, 12, 14);
      InitializeLine(17, 14, 16);
    }

    /**
     * Shows line `i` at its keypoints' positions iff both keypoints are active; a hidden
     * line keeps its previous positions.
     */
    method RenderSkeleton(keypointActive: array<bool>, keypointPosition: array<Vec2>)
      requires Renderable()
      requires keypointActive.Length == keypointCount && keypointPosition.Length == keypointCount
      requires keypointActive != lineActive
      requires keypointPosition != lineStart && keypointPosition != lineEnd
      modifies lineActive, lineStart, lineEnd
      ensures forall i | 0 <= i < jointPairs.Length ::
                var b := jointPairs[i].value;
                && (lineActive[i] <==> LineShown(b, keypointActive[..]))
                && lineStart[i] == (if lineActive[i] then keypointPosition[b.start] else old(lineStart[i]))
                && lineEnd[i] == (if lineActive[i] then keypointPosition[b.end] else old(lineEnd[i]))
    {
      for i := 0 to jointPairs.Length
        invariant forall j | 0 <= j < i ::
                    var b := jointPairs[j].value;
                    && (lineActive[j] <==> LineShown(b, keypointActive[..]))
                    && lineStart[j] == (if lineActive[j] then keypointPosition[b.start] else old(lineStart[j]))
                    && lineEnd[j] == (if lineActive[j] then keypointPosition[b.end] else old(lineEnd[j]))
        invariant forall j | i <= j < jointPairs.Length ::
                    lineStart[j] == old(lineStart[j]) && lineEnd[j] == old(lineEnd[j])
      {
        var startpointIndex := jointPairs[i].value.start;
        var endpointIndex := jointPairs[i].value.end;
        var startPos := keypointPosition[startpointIndex];
        var endPos := keypointPosition[endpointIndex];
        if keypointActive[startpointIndex] && keypointActive[endpointIndex] {
          lineActive[i] := true;
          lineStart[i] := startPos;
          lineEnd[i] := endPos;
        } else {
          lineActive[i] := false;
        }
      }
    }
  }
}
