/** Values shared by the pose-detection and skeleton-drawing scripts. */
module PoseTypes {

  datatype Option<T> = None | Some(value: T)

  /** Number of COCO-style keypoints the network predicts (one heatmap channel each). */
  const NumKeypoints: nat := 17

  /** A position in video-texture space (the constant z = -1 of the scene is dropped). */
  datatype Vec2 = Vec2(x: real, y: real)

  /** One decoded keypoint: the `{ xPos, yPos, confidence }` triple of `keypointLocations`. */
  datatype Observation = Observation(x: real, y: real, conf: real)

  /** A `{ x, y, flag }` triple as stored in `prevPos` and `prevVelocity`. */
  datatype Triple = Triple(x: real, y: real, w: real)
}
