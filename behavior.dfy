/**
 * The rule-based behaviour classifier of one processed frame
 * (fixed_colab.py:214-309): hand-up flags from wrist and eye landmarks, a
 * standing/sitting flag from the knee angle, the mouth status coupled to the
 * last emotion the face analysis reported, and the choice of the frame's
 * main behaviour.
 *
 * The pose and face models are a source of values: a frame's landmarks are
 * the `Perception` input, with `real` coordinates and visibilities; the knee
 * angle is an input too. The session loop (module `Session`) builds the
 * status list step by step; the functions here state what it must hold.
 */
module Behavior {
  import opened Text

  /** One landmark: normalised position and visibility. */
  datatype Landmark = Landmark(x: real, y: real, visibility: real)

  /** The pose landmarks the rules read, and the left knee angle at landmark 25. */
  datatype Pose = Pose(
    rightWrist: Landmark,
    rightEye: Landmark,
    leftWrist: Landmark,
    leftEye: Landmark,
    knee: Landmark,     // landmark 25
    ankle: Landmark,    // landmark 27
    kneeAngle: real)    // `calculate_angle(hip, knee, ankle)`, in degrees

  /** The face landmarks the rules read: lips 13 (upper) and 14 (lower). */
  datatype Face = Face(upperLip: Landmark, lowerLip: Landmark)

  /** What the holistic model found in a frame; either part may be missing. */
  datatype Perception = Perception(pose: Option<Pose>, face: Option<Face>)

  const RightHandUp := "RIGHT HAND UP"
  const LeftHandUp := "LEFT HAND UP"
  const Standing := "STANDING"
  const Sitting := "SITTING"
  const Shouting := "SHOUTING"
  const MouthOpen := "Mouth Open"

  function Abs(x: real): (r: real)
    ensures r >= 0.0 && (r == x || r == -x)
  {
    if x < 0.0 then -x else x
  }

  /** Both landmarks visible (> 0.5) and the wrist above the eye (smaller y). */
  predicate HandRaised(wrist: Landmark, eye: Landmark) {
    wrist.visibility > 0.5 && eye.visibility > 0.5 && wrist.y < eye.y
  }

  /** Knee and ankle visible (> 0.6): only then is the knee angle used. */
  predicate LegVisible(p: Pose) {
    p.knee.visibility > 0.6 && p.ankle.visibility > 0.6
  }

  /** The posture flag of a pose, if any: above 160 degrees standing, below 140 sitting, nothing in between. */
  function PostureFlag(p: Pose): (flag: Option<string>)
    ensures flag == Some(Standing) <==> LegVisible(p) && p.kneeAngle > 160.0
    ensures flag == Some(Sitting) <==> LegVisible(p) && p.kneeAngle < 140.0
    ensures flag == None <==> !LegVisible(p) || 140.0 <= p.kneeAngle <= 160.0
  {
    if LegVisible(p) then
      if p.kneeAngle > 160.0 then Some(Standing)
      else if p.kneeAngle < 140.0 then Some(Sitting)
      else None
    else None
  }

  /** `active_statuses` after the pose rules: right hand, then left hand, then the posture flag. */
  function PoseStatuses(p: Pose): (s: seq<string>)
    ensures |s| <= 3
    ensures forall i :: 0 <= i < |s| ==> s[i] in [RightHandUp, LeftHandUp, Standing, Sitting]
  {
    (if HandRaised(p.rightWrist, p.rightEye) then [RightHandUp] else [])
    + (if HandRaised(p.leftWrist, p.leftEye) then [LeftHandUp] else [])
    + (match PostureFlag(p) case Some(f) => [f] case None => [])
  }

  /** `active_statuses` for a frame: empty when the pose model is unavailable or found no pose. */
  function ActiveStatuses(mediapipe: bool, perception: Perception): seq<string> {
    if mediapipe && perception.pose.Some? then PoseStatuses(perception.pose.value) else []
  }

  /** The lips are both visible (> 0.5) and more than 0.05 apart vertically. */
  predicate LipsApart(f: Face) {
    f.upperLip.visibility > 0.5 && f.lowerLip.visibility > 0.5 && Abs(f.upperLip.y - f.lowerLip.y) > 0.05
  }

  /** The emotions for which an open mouth counts as shouting. */
  predicate ShoutingEmotion(emotion: string) {
    emotion in ["angry", "fear", "surprise"]
  }

  /** `session.mouth_status` at the end of a processed frame: reset to "" first, then set by the lip rule. */
  function MouthStatus(mediapipe: bool, perception: Perception, emotion: string): (m: string)
    ensures m == "" || m == MouthOpen || m == Shouting
    ensures m != "" <==> mediapipe && perception.face.Some? && LipsApart(perception.face.value)
    ensures m == Shouting ==> ShoutingEmotion(emotion)
  {
    if mediapipe && perception.face.Some? && LipsApart(perception.face.value) then
      if ShoutingEmotion(emotion) then Shouting else MouthOpen
    else ""
  }

  /** `main_behavior`: the first active status, else SHOUTING, else the cached emotion. */
  function MainBehavior(active: seq<string>, mouth: string, emotion: string): (b: string)
    ensures b in active || b == Shouting || b == emotion
    ensures active != [] ==> b in active
    ensures b == Shouting ==> Shouting in active || mouth == Shouting || emotion == Shouting
  {
    if active != [] then active[0]
    else if mouth == Shouting then Shouting
    else emotion
  }

  /** The main behaviour of a frame from its perception and the cached emotion. */
  function FrameBehavior(mediapipe: bool, perception: Perception, emotion: string): (b: string)
    ensures b in [RightHandUp, LeftHandUp, Standing, Sitting, Shouting] || b == emotion
    ensures b == Shouting && emotion != Shouting ==> MouthStatus(mediapipe, perception, emotion) == Shouting
  {
    MainBehavior(ActiveStatuses(mediapipe, perception), MouthStatus(mediapipe, perception, emotion), emotion)
  }

  // ---------------------------------------------------------------------------
  // What the rules promise
  // ---------------------------------------------------------------------------

  /** Each flag is present exactly when its rule fires, and at most one posture flag is present. */
  lemma PoseStatusesExact(p: Pose)
    ensures var s := PoseStatuses(p);
      && (RightHandUp in s <==> HandRaised(p.rightWrist, p.rightEye))
      && (LeftHandUp in s <==> HandRaised(p.leftWrist, p.leftEye))
      && (Standing in s <==> LegVisible(p) && p.kneeAngle > 160.0)
      && (Sitting in s <==> LegVisible(p) && p.kneeAngle < 140.0)
      && !(Standing in s && Sitting in s)
      && |s| <= 3
      && (forall i :: 0 <= i < |s| ==> s[i] in {RightHandUp, LeftHandUp, Standing, Sitting})
  {
    var r: seq<string> := if HandRaised(p.rightWrist, p.rightEye) then [RightHandUp] else [];
    var l: seq<string> := if HandRaised(p.leftWrist, p.leftEye) then [LeftHandUp] else [];
    var f: seq<string> := match PostureFlag(p) case Some(x) => [x] case None => [];
    assert PoseStatuses(p) == r + l + f;
  }

  /** The flags come in rule order: right hand, then left hand, then the posture flag. */
  lemma PoseStatusesOrder(p: Pose)
    ensures var s := PoseStatuses(p);
      && (HandRaised(p.rightWrist, p.rightEye) ==> s[0] == RightHandUp)
      && (forall j :: 0 < j < |s| ==> s[j] != RightHandUp)
      && (forall i, j :: 0 <= i < |s| && 0 <= j < |s| && s[i] in {Standing, Sitting} && s[j] in {RightHandUp, LeftHandUp} ==> j < i)
  {
    var r: seq<string> := if HandRaised(p.rightWrist, p.rightEye) then [RightHandUp] else [];
    var l: seq<string> := if HandRaised(p.leftWrist, p.leftEye) then [LeftHandUp] else [];
    var f: seq<string> := match PostureFlag(p) case Some(x) => [x] case None => [];
    var s := PoseStatuses(p);
    assert s == r + l + f;
    assert forall i :: 0 <= i < |f| ==> f[i] in {Standing, Sitting};
    assert forall i :: 0 <= i < |l| ==> l[i] == LeftHandUp;
    forall i, j | 0 <= i < |s| && 0 <= j < |s| && s[i] in {Standing, Sitting} && s[j] in {RightHandUp, LeftHandUp}
      ensures j < i
    {
      assert i >= |r| + |l|;
      assert j < |r| + |l|;
    }
  }

  /** The mouth is shouting exactly when the lips are apart and the cached emotion is angry, fear or surprise. */
  lemma MouthStatusExact(mediapipe: bool, perception: Perception, emotion: string)
    ensures var m := MouthStatus(mediapipe, perception, emotion);
      && (m == Shouting <==> mediapipe && perception.face.Some? && LipsApart(perception.face.value) && ShoutingEmotion(emotion))
      && (m == MouthOpen <==> mediapipe && perception.face.Some? && LipsApart(perception.face.value) && !ShoutingEmotion(emotion))
      && (m == "" <==> !(mediapipe && perception.face.Some? && LipsApart(perception.face.value)))
  {
  }

  /**
   * A pose flag always wins; without one the frame is SHOUTING exactly when
   * the shouting rule fires (or the cached emotion is itself the text
   * "SHOUTING"); otherwise it is the cached emotion.
   */
  lemma FrameBehaviorPriority(mediapipe: bool, perception: Perception, emotion: string)
    ensures var active := ActiveStatuses(mediapipe, perception);
      var b := FrameBehavior(mediapipe, perception, emotion);
      && (active != [] ==> b == active[0] && b in {RightHandUp, LeftHandUp, Standing, Sitting})
      && (active == [] ==>
            (b == Shouting <==>
               (MouthStatus(mediapipe, perception, emotion) == Shouting || emotion == Shouting)))
      && (active == [] && MouthStatus(mediapipe, perception, emotion) != Shouting ==> b == emotion)
      && (!mediapipe ==> b == emotion)
  {
    if mediapipe && perception.pose.Some? {
      PoseStatusesExact(perception.pose.value);
    }
  }

  /** A visible leg at 165, 170 or 175 degrees reads as standing and the flag is the main behaviour when no hand is up. */
  lemma StandingAngles(p: Pose)
    requires LegVisible(p) && p.kneeAngle in {165.0, 170.0, 175.0}
    requires !HandRaised(p.rightWrist, p.rightEye) && !HandRaised(p.leftWrist, p.leftEye)
    ensures PoseStatuses(p) == [Standing]
    ensures forall face, emotion :: FrameBehavior(true, Perception(Some(p), face), emotion) == Standing
  {
  }

  /** Lips 0.06 apart: SHOUTING with an angry cached emotion, "Mouth Open" (and the emotion as behaviour) with a happy one. */
  lemma MouthScenarios(upperY: real)
    ensures var face := Face(Landmark(0.5, upperY, 0.9), Landmark(0.5, upperY + 0.06, 0.9));
      && FrameBehavior(true, Perception(None, Some(face)), "angry") == Shouting
      && MouthStatus(true, Perception(None, Some(face)), "happy") == MouthOpen
      && FrameBehavior(true, Perception(None, Some(face)), "happy") == "happy"
  {
    var face := Face(Landmark(0.5, upperY, 0.9), Landmark(0.5, upperY + 0.06, 0.9));
    assert Abs(face.upperLip.y - face.lowerLip.y) == 0.06;
    assert ShoutingEmotion("angry");
    assert !ShoutingEmotion("happy");
  }
}
