/**
 * The per-joint state machine of `UpdateKeyPointPositions` and `FillAndUpdatePrevPos`,
 * as pure functions over one joint's history, and what it does over a run of frames.
 */
module JointTracking {
  import opened PoseTypes

  /** `prevPos[k]` and `prevVelocity[k]`: each is null (`None`) or an `{ x, y, flag }` triple. */
  datatype History = History(pos: Option<Triple>, vel: Option<Triple>)

  /** Both entries are null until the joint's first frame. */
  const Cold: History := History(None, None)

  /** The `{ 0, 0, -1 }` triple written after an unconfident frame. */
  const Placeholder: Triple := Triple(0.0, 0.0, -1.0)

  /** The two entries are assigned together, so they are null together. */
  predicate Paired(h: History) {
    h.pos.Some? <==> h.vel.Some?
  }

  /** `minConfidence / 100f`: the integer percentage as a fraction. */
  function Threshold(minConfidence: int): real {
    minConfidence as real / 100.0
  }

  /** A keypoint object's state: `SetActive` flag and transform position. */
  datatype Shown = Shown(active: bool, pos: Vec2)

  /** `UpdateKeyPointPositions` for one joint: visible iff confident, always moved to the observation. */
  function Gate(obs: Observation, tau: real): Shown {
    Shown(obs.conf >= tau, Vec2(obs.x, obs.y))
  }

  /** What `FillAndUpdatePrevPos` does for one joint: the new history, and a position to re-show the joint at. */
  datatype FillOutcome = FillOutcome(next: History, fill: Option<Vec2>)

  /**
   * `FillAndUpdatePrevPos` for one joint. An unconfident joint whose stored position was
   * confident is re-shown at that held position, and the history is reset to placeholders;
   * a confident joint stores its observation and the displacement from the stored position.
   * The re-show tests the velocity entry first; on a paired history that test always
   * succeeds, so the branch adding the velocity is unreachable.
   */
  function Fill(h: History, obs: Observation, tau: real): (r: FillOutcome)
    requires Paired(h)
    ensures r.next.pos.Some? && r.next.vel.Some?
    ensures r.fill.Some? ==> obs.conf < tau && h.pos.Some? && r.fill.value == Vec2(h.pos.value.x, h.pos.value.y)
  {
    if obs.conf < tau then
      var fill :=
        if h.pos.Some? && h.pos.value.w >= tau then
          if h.vel.Some? then Some(Vec2(h.pos.value.x, h.pos.value.y))
          else assert false; None
        else None;
      FillOutcome(History(Some(Placeholder), Some(Placeholder)), fill)
    else
      var vel := if h.pos.Some? then Triple(obs.x - h.pos.value.x, obs.y - h.pos.value.y, 1.0) else Placeholder;
      FillOutcome(History(Some(Triple(obs.x, obs.y, obs.conf)), Some(vel)), None)
  }

  /** Result of one frame for one joint: the new history and what is shown. */
  datatype Frame = Frame(next: History, shown: Shown)

  /** Gate, then fill, in the order `Update` calls them. */
  function Step(h: History, obs: Observation, tau: real): Frame
    requires Paired(h)
  {
    var f := Fill(h, obs, tau);
    Frame(f.next, if f.fill.Some? then Shown(true, f.fill.value) else Gate(obs, tau))
  }

  /** The history after a run of frames from a cold start. */
  function After(frames: seq<Observation>, tau: real): (h: History)
    ensures Paired(h)
    ensures h.pos.Some? <==> 0 < |frames|
    decreases |frames|
  {
    if |frames| == 0 then Cold
    else Step(After(frames[..|frames| - 1], tau), frames[|frames| - 1], tau).next
  }

  /** What frame `i` of a run started cold shows for the joint. */
  function ShownAt(frames: seq<Observation>, i: nat, tau: real): Shown
    requires i < |frames|
  {
    Step(After(frames[..i], tau), frames[i], tau).shown
  }

  /**
   * On the paired histories the class keeps, the value of the velocity entry is never read:
   * two such histories with the same position behave the same.
   */
  lemma VelocityNeverRead(p: Option<Triple>, v1: Option<Triple>, v2: Option<Triple>, obs: Observation, tau: real)
    requires Paired(History(p, v1)) && Paired(History(p, v2))
    ensures Step(History(p, v1), obs, tau) == Step(History(p, v2), obs, tau)
  {
  }

  /** On a confident frame the joint is shown where it was observed. */
  lemma ConfidentShownAtObservation(h: History, obs: Observation, tau: real)
    requires Paired(h) && obs.conf >= tau
    ensures Step(h, obs, tau).shown == Shown(true, Vec2(obs.x, obs.y))
    ensures Step(h, obs, tau).next.pos == Some(Triple(obs.x, obs.y, obs.conf))
    ensures Step(h, obs, tau).next.vel == Some(
              if h.pos.Some? then Triple(obs.x - h.pos.value.x, obs.y - h.pos.value.y, 1.0) else Placeholder)
  {
  }

  /** No fill on a cold start: on the first frame the joint is shown iff it is confident. */
  lemma ColdStartNoFill(obs: Observation, tau: real)
    ensures Step(Cold, obs, tau).shown == Gate(obs, tau)
  {
  }

  /** Two unconfident frames in a row: the second one is hidden, whatever came before. */
  lemma SecondMissHidden(h: History, o1: Observation, o2: Observation, tau: real)
    requires Paired(h) && -1.0 < tau
    requires o1.conf < tau && o2.conf < tau
    ensures !Step(Step(h, o1, tau).next, o2, tau).shown.active
  {
  }

  /**
   * Closed form of the history after `n > 0` frames: the position entry is the last
   * observation if it was confident and the placeholder otherwise; after a confident
   * frame the velocity entry is the displacement from the previous stored position
   * (the origin when the frame before was unconfident) or the placeholder on the first frame.
   */
  lemma AfterLastFrame(frames: seq<Observation>, tau: real)
    requires 0 < |frames|
    ensures var n := |frames|;
            var o := frames[n - 1];
            var h := After(frames, tau);
            && h.pos == Some(if o.conf >= tau then Triple(o.x, o.y, o.conf) else Placeholder)
            && h.vel == Some(
                 if o.conf < tau || n == 1 then Placeholder
                 else
                   var prev := After(frames[..n - 1], tau).pos.value;
                   Triple(o.x - prev.x, o.y - prev.y, 1.0))
  {
  }

  /**
   * Gap-filling lasts a single frame and never happens on a cold start: in a run started
   * cold, with a threshold above -1 (any percentage from 0 to 100), frame `i` shows the joint iff frame `i` or frame
   * `i - 1` was confident; it is shown at frame `i`'s observation, except when only frame
   * `i - 1` was confident, where it is held at frame `i - 1`'s observation.
   */
  lemma ShownDependsOnLastTwoFrames(frames: seq<Observation>, i: nat, tau: real)
    requires -1.0 < tau && i < |frames|
    ensures var s := ShownAt(frames, i, tau);
            var held := frames[i].conf < tau && 0 < i && frames[i - 1].conf >= tau;
            && (s.active <==> frames[i].conf >= tau || held)
            && s.pos == (if held then Vec2(frames[i - 1].x, frames[i - 1].y) else Vec2(frames[i].x, frames[i].y))
  {
  }

  /**
   * A joint confident at frame 1 at (100, 100), unconfident at frames 0 and 2 (threshold 70%):
   * hidden at frame 0, shown at (100, 100) at frames 1 and 2; the velocity stored at frame 1
   * is the displacement from the placeholder written at frame 0.
   */
  lemma ThreeFrameExample(a: Observation, c: Observation)
    requires a.conf == 0.5 && c.conf == 0.5
    ensures var frames := [a, Observation(100.0, 100.0, 0.9), c];
            var tau := Threshold(70);
            && !ShownAt(frames, 0, tau).active
            && ShownAt(frames, 1, tau) == Shown(true, Vec2(100.0, 100.0))
            && ShownAt(frames, 2, tau) == Shown(true, Vec2(100.0, 100.0))
            && After(frames[..2], tau).vel == Some(Triple(100.0, 100.0, 1.0))
  {
  }
}
