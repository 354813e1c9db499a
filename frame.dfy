/**
 * One frame of the scene: the host calls `PoseDetection.Update` and then, in
 * `LateUpdate`, `DrawSkeleton.RenderSkeleton` over the same keypoint objects.
 */
module FrameLoop {
  import opened PoseTypes
  import opened HeatmapDecode
  import opened JointTracking
  import opened Detection
  import opened Skeleton

  method Tick(pose: PoseDetection, skeleton: DrawSkeleton, heatmaps: Heatmap, texWidth: int, texHeight: int)
    requires pose.Valid() && skeleton.Renderable()
    requires heatmaps.Wf() && 0 < heatmaps.height && NumKeypoints <= heatmaps.channels
    requires pose.imageHeight != 0 && pose.imageWidth != 0
    requires pose.keypointActive.Length == skeleton.keypointCount == NumKeypoints
    requires pose.keypointActive != skeleton.lineActive
    requires pose.keypointPosition != skeleton.lineStart && pose.keypointPosition != skeleton.lineEnd
    modifies pose.keypointLocations, pose.keypointActive, pose.keypointPosition, pose.prevPos, pose.prevVelocity
    modifies skeleton.lineActive, skeleton.lineStart, skeleton.lineEnd
    ensures pose.Valid()
    ensures forall k | 0 <= k < NumKeypoints ::
              DecodedAs(heatmaps, k, pose.keypointLocations[k], pose.imageHeight, pose.imageWidth, texWidth, texHeight)
    ensures forall k | 0 <= k < NumKeypoints ::
              var s := Step(old(History(pose.prevPos[k], pose.prevVelocity[k])), pose.keypointLocations[k], pose.Tau());
              && History(pose.prevPos[k], pose.prevVelocity[k]) == s.next
              && Shown(pose.keypointActive[k], pose.keypointPosition[k]) == s.shown
    ensures forall i | 0 <= i < skeleton.jointPairs.Length ::
              var b := skeleton.jointPairs[i].value;
              0 <= b.start < NumKeypoints && 0 <= b.end < NumKeypoints &&
              var s := Step(old(History(pose.prevPos[b.start], pose.prevVelocity[b.start])),
                            pose.keypointLocations[b.start], pose.Tau()).shown;
              var e := Step(old(History(pose.prevPos[b.end], pose.prevVelocity[b.end])),
                            pose.keypointLocations[b.end], pose.Tau()).shown;
              && (skeleton.lineActive[i] <==> s.active && e.active)
              && (skeleton.lineActive[i] ==> skeleton.lineStart[i] == s.pos && skeleton.lineEnd[i] == e.pos)
              && (!skeleton.lineActive[i] ==>
                    skeleton.lineStart[i] == old(skeleton.lineStart[i]) && skeleton.lineEnd[i] == old(skeleton.lineEnd[i]))
  {
    pose.Update(heatmaps, texWidth, texHeight);
    skeleton.RenderSkeleton(pose.keypointActive, pose.keypointPosition);
  }
}
