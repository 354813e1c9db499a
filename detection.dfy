/**
 * The `PoseDetection` behaviour: each frame it decodes the heatmap into
 * `keypointLocations`, gates the keypoint objects by confidence and fills a joint
 * missed for one frame from its stored previous position.
 */
module Detection {
  import opened PoseTypes
  import opened HeatmapDecode
  import opened JointTracking

  /**
   * Argmax over channel `i`: scans rows `y` then columns `x`, replacing the current maximum
   * (initially 0, at cell (0, 0)) only on a strictly greater value.
   */
  method LocateKeyPoint(heatmaps: Heatmap, i: nat) returns (peak: Peak)
    requires heatmaps.Wf() && i < heatmaps.channels
    ensures IsPeak(heatmaps, i, peak)
    ensures 0.0 <= peak.conf
    ensures forall y: nat, x: nat | y < heatmaps.height && x < heatmaps.width :: heatmaps.At(y, x, i) <= peak.conf
    ensures (peak.x < heatmaps.width && peak.y < heatmaps.height) || peak == Peak(0, 0, 0.0)
  {
    peak := Peak(0, 0, 0.0);
    var y := 0;
    while y < heatmaps.height
      invariant y <= heatmaps.height
      invariant ScannedUpTo(heatmaps, i, y, 0, peak)
    {
      var x := 0;
      while x < heatmaps.width
        invariant x <= heatmaps.width
        invariant ScannedUpTo(heatmaps, i, y, x, peak)
      {
        if heatmaps.At(y, x, i) > peak.conf {
          peak := Peak(x, y, heatmaps.At(y, x, i));
        }
        x := x + 1;
      }
      y := y + 1;
    }
  }

  class PoseDetection {
    /** Network input resolution. */
    const imageHeight: int
    const imageWidth: int
    /** Confidence threshold in percent. */
    var minConfidence: int

    /** Per joint `{ xPos, yPos, confidence }` of the current frame. */
    const keypointLocations: array<Observation>
    /** The keypoint objects: active flag and transform position. */
    const keypointActive: array<bool>
    const keypointPosition: array<Vec2>
    const prevPos: array<Option<Triple>>
    const prevVelocity: array<Option<Triple>>

    ghost predicate Valid()
      reads this, prevPos, prevVelocity
    {
      && keypointLocations.Length == NumKeypoints
      && prevPos.Length == NumKeypoints && prevVelocity.Length == NumKeypoints
      && prevPos != prevVelocity
      && NumKeypoints <= keypointActive.Length == keypointPosition.Length
      && forall k | 0 <= k < NumKeypoints :: Paired(History(prevPos[k], prevVelocity[k]))
    }

    function Tau(): real
      reads this
    {
      Threshold(minConfidence)
    }

    /** Field initialisers; `keypointCount` is the length of the scene's keypoint array. */
    constructor (imageHeight: int, imageWidth: int, minConfidence: int, keypointCount: nat)
      requires NumKeypoints <= keypointCount
      ensures Valid()
      ensures this.imageHeight == imageHeight && this.imageWidth == imageWidth
      ensures this.minConfidence == minConfidence
      ensures keypointActive.Length == keypointCount
      ensures fresh(keypointLocations) && fresh(keypointActive) && fresh(keypointPosition)
      ensures fresh(prevPos) && fresh(prevVelocity)
      ensures forall k | 0 <= k < NumKeypoints :: History(prevPos[k], prevVelocity[k]) == Cold
    {
      this.imageHeight := imageHeight;
      this.imageWidth := imageWidth;
      this.minConfidence := minConfidence;
      keypointLocations := new Observation[NumKeypoints](_ => Observation(0.0, 0.0, 0.0));
      keypointActive := new bool[keypointCount](_ => false);
      keypointPosition := new Vec2[keypointCount](_ => Vec2(0.0, 0.0));
      prevPos := new Option<Triple>[NumKeypoints](_ => None);
      prevVelocity := new Option<Triple>[NumKeypoints](_ => None);
    }

    /** Decodes every joint's peak and maps it to texture coordinates. */
    method ProcessResults(heatmaps: Heatmap, texWidth: int, texHeight: int)
      requires Valid()
      requires heatmaps.Wf() && 0 < heatmaps.height && NumKeypoints <= heatmaps.channels
      requires imageHeight != 0 && imageWidth != 0
      modifies keypointLocations
      ensures forall k | 0 <= k < NumKeypoints ::
                DecodedAs(heatmaps, k, keypointLocations[k], imageHeight, imageWidth, texWidth, texHeight)
    {
      var stride := CsDiv(imageHeight, heatmaps.height);
      for k := 0 to NumKeypoints
        invariant forall j | 0 <= j < k ::
                    DecodedAs(heatmaps, j, keypointLocations[j], imageHeight, imageWidth, texWidth, texHeight)
      {
        var peak := LocateKeyPoint(heatmaps, k);
        var p := ToTexture(peak.x, peak.y, stride, imageHeight, imageWidth, texWidth, texHeight);
        keypointLocations[k] := Observation(p.x, p.y, peak.conf);
      }
    }

    /** Shows joint `k` iff its confidence reaches the threshold, and moves it to its decoded position. */
    method UpdateKeyPointPositions()
      requires Valid()
      modifies keypointActive, keypointPosition
      ensures forall k | 0 <= k < NumKeypoints ::
                Shown(keypointActive[k], keypointPosition[k]) == Gate(keypointLocations[k], Tau())
      ensures forall k | NumKeypoints <= k < keypointActive.Length ::
                keypointActive[k] == old(keypointActive[k]) && keypointPosition[k] == old(keypointPosition[k])
    {
      for k := 0 to NumKeypoints
        invariant forall j | 0 <= j < k ::
                    Shown(keypointActive[j], keypointPosition[j]) == Gate(keypointLocations[j], Tau())
        invariant forall j | k <= j < keypointActive.Length ::
                    keypointActive[j] == old(keypointActive[j]) && keypointPosition[j] == old(keypointPosition[j])
      {
        if keypointLocations[k].conf >= Threshold(minConfidence) {
          keypointActive[k] := true;
        } else {
          keypointActive[k] := false;
        }
        keypointPosition[k] := Vec2(keypointLocations[k].x, keypointLocations[k].y);
      }
    }

    /**
     * Re-shows an unconfident joint at its stored position when that position was confident,
     * and updates `prevPos` and `prevVelocity`. The branch that would add the velocity is
     * reached only when `prevVelocity[k]` is null while `prevPos[k]` is not, which `Valid()`
     * rules out.
     */
    method FillAndUpdatePrevPos()
      requires Valid()
      modifies keypointActive, keypointPosition, prevPos, prevVelocity
      ensures Valid()
      ensures forall k | 0 <= k < NumKeypoints ::
                var f := Fill(old(History(prevPos[k], prevVelocity[k])), keypointLocations[k], Tau());
                && History(prevPos[k], prevVelocity[k]) == f.next
                && Shown(keypointActive[k], keypointPosition[k]) ==
                   if f.fill.Some? then Shown(true, f.fill.value)
                   else old(Shown(keypointActive[k], keypointPosition[k]))
      ensures forall k | NumKeypoints <= k < keypointActive.Length ::
                keypointActive[k] == old(keypointActive[k]) && keypointPosition[k] == old(keypointPosition[k])
    {
      var tau := Threshold(minConfidence);
      for k := 0 to NumKeypoints
        invariant Valid()
        invariant forall j | 0 <= j < k ::
                    var f := Fill(old(History(prevPos[j], prevVelocity[j])), keypointLocations[j], tau);
                    && History(prevPos[j], prevVelocity[j]) == f.next
                    && Shown(keypointActive[j], keypointPosition[j]) ==
                       if f.fill.Some? then Shown(true, f.fill.value)
                       else old(Shown(keypointActive[j], keypointPosition[j]))
        invariant forall j | k <= j < NumKeypoints ::
                    prevPos[j] == old(prevPos[j]) && prevVelocity[j] == old(prevVelocity[j])
        invariant forall j | k <= j < keypointActive.Length ::
                    keypointActive[j] == old(keypointActive[j]) && keypointPosition[j] == old(keypointPosition[j])
      {
        var obs := keypointLocations[k];
        if obs.conf < tau {
          if prevPos[k].Some? && prevPos[k].value.w >= tau {
            var held := prevPos[k].value;
            if prevVelocity[k].Some? {
              keypointPosition[k] := Vec2(held.x, held.y);
            } else {
              assert false;
            }
            keypointActive[k] := true;
          }
          prevPos[k] := Some(Placeholder);
          prevVelocity[k] := Some(Placeholder);
        } else {
          if prevPos[k].Some? {
            var last := prevPos[k].value;
            prevVelocity[k] := Some(Triple(obs.x - last.x, obs.y - last.y, 1.0));
          } else {
            prevVelocity[k] := Some(Placeholder);
          }
          prevPos[k] := Some(Triple(obs.x, obs.y, obs.conf));
        }
      }
    }

    /** One frame: decode, gate, fill. */
    method Update(heatmaps: Heatmap, texWidth: int, texHeight: int)
      requires Valid()
      requires heatmaps.Wf() && 0 < heatmaps.height && NumKeypoints <= heatmaps.channels
      requires imageHeight != 0 && imageWidth != 0
      modifies keypointLocations, keypointActive, keypointPosition, prevPos, prevVelocity
      ensures Valid()
      ensures forall k | 0 <= k < NumKeypoints ::
                DecodedAs(heatmaps, k, keypointLocations[k], imageHeight, imageWidth, texWidth, texHeight)
      ensures forall k | 0 <= k < NumKeypoints ::
                var s := Step(old(History(prevPos[k], prevVelocity[k])), keypointLocations[k], Tau());
                History(prevPos[k], prevVelocity[k]) == s.next && Shown(keypointActive[k], keypointPosition[k]) == s.shown
      ensures forall k | NumKeypoints <= k < keypointActive.Length ::
                keypointActive[k] == old(keypointActive[k]) && keypointPosition[k] == old(keypointPosition[k])
    {
      ProcessResults(heatmaps, texWidth, texHeight);
      UpdateKeyPointPositions();
      FillAndUpdatePrevPos();
    }
  }
}
