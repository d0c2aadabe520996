/**
 * One client session of the behaviour server (fixed_colab.py): the
 * `SessionData` record and the receive loop of `websocket_endpoint` that
 * filters messages, counts decoded frames, processes every second one,
 * starts the emotion analysis when a processed count is a multiple of 15
 * (so at counts 30, 60, ...), and appends one main behaviour per processed
 * frame.
 *
 * Receiving, base64 and image decoding, the pose model and sending the
 * reply are foreign: their outcomes arrive with each `SessionEvent`. The
 * background analysis thread is modelled as two abstract events: starting
 * it appends the frame count to `dispatches`, and its completion, at any
 * point between two messages, is an `AnalysisDone` event.
 */
module Session {
  import opened Text
  import opened Inbound
  import opened Behavior
  import opened Enrichment

  /** `FRAME_SKIP`: only every second decoded frame is processed. */
  const FrameSkip: nat := 2

  /** How a message's payload fared in `base64.b64decode` and `cv2.imdecode`. */
  datatype Decoded =
    | DecodeRaises   // invalid base64: the exception ends the session
    | NoImage        // `frame is None`: the message is skipped
    | Image          // a frame to count

  /** What can happen between two steps of the loop. */
  datatype SessionEvent =
    | ReceiveFails                                                  // 60 s timeout or disconnect
    | Message(text: string, decoded: Decoded, perception: Perception, sendOk: bool)
    | AnalysisDone(analysis: Analysis)                              // a dispatched analysis finishes

  /** The message carries an image that decodes: the frame counter moves. */
  predicate Counted(text: string, decoded: Decoded) {
    ClassifyMessage(text).Payload? && decoded == Image
  }

  /** The message is counted and its new count, `frameCount + 1`, is even: the frame is processed. */
  predicate Processes(text: string, decoded: Decoded, frameCount: int) {
    Counted(text, decoded) && (frameCount + 1) % FrameSkip == 0
  }

  /** The loop breaks on this message. */
  predicate Breaks(text: string, decoded: Decoded, sendOk: bool, frameCount: int) {
    && ClassifyMessage(text).Payload?
    && (decoded == DecodeRaises || (decoded == Image && (frameCount + 1) % FrameSkip == 0 && !sendOk))
  }

  class SessionData {
    /** `prediction_history`: one main behaviour per processed frame */
    var predictionHistory: seq<string>
    /** `frame_count`: decoded frames so far */
    var frameCount: nat
    /** `FRAME_RATE` */
    const frameRate: int := 30
    /** `detect_every_n_frames` */
    const detectEveryNFrames: int := 15
    /** `current_emotion`: the last emotion the analysis reported */
    var currentEmotion: string
    /** `faces_data`: the face boxes the last analysis reported */
    var facesData: seq<FaceBox>
    /** `mouth_status` */
    var mouthStatus: string
    /** the frame counts at which an analysis thread was started */
    var dispatches: seq<int>

    function Emotions(): EmotionState
      reads this
    {
      EmotionState(currentEmotion, facesData)
    }

    /** The fields the receive loop changes, as one value. */
    function Snapshot(): SessionState
      reads this
    {
      SessionState(predictionHistory, frameCount, Emotions(), mouthStatus, dispatches)
    }

    /** `SessionData()` (fixed_colab.py:122-134). */
    constructor ()
      ensures predictionHistory == [] && frameCount == 0
      ensures currentEmotion == "Neutral" && facesData == [] && mouthStatus == "" && dispatches == []
    {
      predictionHistory := [];
      frameCount := 0;
      currentEmotion := "Neutral";
      facesData := [];
      mouthStatus := "";
      dispatches := [];
    }

    /**
     * `analyze_emotion_task(session, img)` (fixed_colab.py:96-119): the
     * emotion and the face boxes move on as `Merge` says; nothing else
     * changes.
     */
    method AnalyzeEmotionTask(a: Analysis)
      modifies this
      ensures Emotions() == Merge(old(Emotions()), a)
      ensures predictionHistory == old(predictionHistory) && frameCount == old(frameCount)
      ensures mouthStatus == old(mouthStatus) && dispatches == old(dispatches)
    {
      if a.Unavailable? {
        return;
      }
      if a.Raises? {
        return;
      }
      var objs := if a.Single? then [a.face] else a.faces;
      var tempData: seq<FaceBox> := [];
      if objs != [] {
        if objs[0].dominantEmotion.None? {
          return;
        }
        currentEmotion := objs[0].dominantEmotion.value;
        var i := 0;
        while i < |objs|
          invariant 0 <= i <= |objs|
          invariant forall k :: 0 <= k < i ==> Complete(objs[k])
          invariant tempData == BoxesOf(objs[..i])
          invariant currentEmotion == objs[0].dominantEmotion.value && facesData == old(facesData)
          invariant predictionHistory == old(predictionHistory) && frameCount == old(frameCount)
          invariant mouthStatus == old(mouthStatus) && dispatches == old(dispatches)
        {
          if objs[i].region.None? || objs[i].dominantEmotion.None? {
            return;
          }
          assert objs[..i + 1] == objs[..i] + [objs[i]];
          BoxesOfAppend(objs[..i], objs[i]);
          tempData := tempData + [FaceBox(objs[i].region.value, objs[i].dominantEmotion.value)];
          i := i + 1;
        }
        assert objs[..i] == objs;
      }
      facesData := tempData;
    }

    /** The pose rules of a processed frame (fixed_colab.py:227-254), appending to `active_statuses` in rule order. */
    static method CollectPoseStatuses(p: Pose) returns (activeStatuses: seq<string>)
      ensures activeStatuses == PoseStatuses(p)
    {
      activeStatuses := [];
      if p.rightWrist.visibility > 0.5 && p.rightEye.visibility > 0.5 {
        if p.rightWrist.y < p.rightEye.y {
          activeStatuses := activeStatuses + [RightHandUp];
        }
      }
      if p.leftWrist.visibility > 0.5 && p.leftEye.visibility > 0.5 {
        if p.leftWrist.y < p.leftEye.y {
          activeStatuses := activeStatuses + [LeftHandUp];
        }
      }
      if p.knee.visibility > 0.6 && p.ankle.visibility > 0.6 {
        if p.kneeAngle > 160.0 {
          activeStatuses := activeStatuses + [Standing];
        } else if p.kneeAngle < 140.0 {
          activeStatuses := activeStatuses + [Sitting];
        }
      }
    }

    /**
     * The body of the loop for a frame that passed decimation
     * (fixed_colab.py:214-309): reset the mouth status, build the active
     * statuses by appending in rule order, set the mouth status, start the
     * analysis when the count is a multiple of 15, and append the main
     * behaviour to the history.
     */
    method ProcessFrame(mediapipe: bool, perception: Perception) returns (mainBehavior: string)
      modifies this
      ensures mouthStatus == MouthStatus(mediapipe, perception, currentEmotion)
      ensures mainBehavior == FrameBehavior(mediapipe, perception, currentEmotion)
      ensures predictionHistory == old(predictionHistory) + [mainBehavior]
      ensures dispatches == old(dispatches) + (if frameCount % detectEveryNFrames == 0 then [frameCount] else [])
      ensures frameCount == old(frameCount) && Emotions() == old(Emotions())
    {
      var activeStatuses: seq<string> := [];
      mouthStatus := "";
      if mediapipe {
        if perception.pose.Some? {
          activeStatuses := CollectPoseStatuses(perception.pose.value);
        }
        if perception.face.Some? {
          var f := perception.face.value;
          if f.upperLip.visibility > 0.5 && f.lowerLip.visibility > 0.5 {
            var mouthOpenDist := Abs(f.upperLip.y - f.lowerLip.y);
            if mouthOpenDist > 0.05 {
              if currentEmotion in ["angry", "fear", "surprise"] {
                mouthStatus := Shouting;
              } else {
                mouthStatus := MouthOpen;
              }
            }
          }
        }
      }
      if frameCount % detectEveryNFrames == 0 {
        dispatches := dispatches + [frameCount];
      }
      if activeStatuses != [] {
        mainBehavior := activeStatuses[0];
      } else if mouthStatus == Shouting {
        mainBehavior := Shouting;
      } else {
        mainBehavior := currentEmotion;
      }
      predictionHistory := predictionHistory + [mainBehavior];
    }

    /**
     * One received message (fixed_colab.py:193-331): filter it, decode it,
     * count it, and process it when the new count is even. Returns false
     * when the loop breaks: the payload is not valid base64, or the reply
     * cannot be sent.
     */
    method HandleMessage(mediapipe: bool, text: string, decoded: Decoded, perception: Perception, sendOk: bool)
      returns (keepGoing: bool)
      modifies this
      ensures keepGoing <==> !Breaks(text, decoded, sendOk, old(frameCount))
      ensures frameCount == old(frameCount) + (if Counted(text, decoded) then 1 else 0)
      ensures var processed := Processes(text, decoded, old(frameCount));
        && mouthStatus == (if processed then MouthStatus(mediapipe, perception, currentEmotion) else old(mouthStatus))
        && predictionHistory == old(predictionHistory)
             + (if processed then [FrameBehavior(mediapipe, perception, currentEmotion)] else [])
        && dispatches == old(dispatches) + (if processed && frameCount % 15 == 0 then [frameCount] else [])
      ensures Emotions() == old(Emotions())
    {
      keepGoing := true;
      var msg := ClassifyMessage(text);
      if msg.Ignored? {
        return;
      }
      if decoded == DecodeRaises {
        keepGoing := false;
        return;
      }
      if decoded == NoImage {
        return;
      }
      frameCount := frameCount + 1;
      if frameCount % FrameSkip != 0 {
        return;
      }
      var mainBehavior := ProcessFrame(mediapipe, perception);
      if !sendOk {
        keepGoing := false;
      }
    }

    /**
     * One event of the receive loop: a failed receive ends it, a finished
     * analysis merges its result, and a message is handled as
     * `HandleMessage` says. The new state is `Next` of the old one; returns
     * false when the loop breaks.
     */
    method Receive(mediapipe: bool, ev: SessionEvent) returns (keepGoing: bool)
      modifies this
      ensures Snapshot() == Next(mediapipe, old(Snapshot()), ev)
      ensures keepGoing <==> !Stops(ev, old(frameCount))
      ensures frameCount == old(frameCount) + CountOf(ev)
      ensures |old(predictionHistory)| <= |predictionHistory|
      ensures predictionHistory[..|old(predictionHistory)|] == old(predictionHistory)
      ensures |predictionHistory| == |old(predictionHistory)| + (if CountOf(ev) == 1 && frameCount % 2 == 0 then 1 else 0)
      ensures dispatches == old(dispatches)
        + (if CountOf(ev) == 1 && frameCount % 2 == 0 && frameCount % 15 == 0 then [frameCount] else [])
    {
      keepGoing := true;
      match ev {
        case ReceiveFails =>
          keepGoing := false;
        case AnalysisDone(a) =>
          AnalyzeEmotionTask(a);
        case Message(text, decoded, perception, sendOk) =>
          ghost var hs := predictionHistory;
          keepGoing := HandleMessage(mediapipe, text, decoded, perception, sendOk);
          KeepsPrefix(hs, hs, predictionHistory[|hs|..]);
          assert predictionHistory == hs + predictionHistory[|hs|..];
      }
    }

    /**
     * The receive loop over a run of events, until one breaks it. Starting
     * from any state, the count rises by one per counted message consumed,
     * the earlier history is kept, the history grows by one entry per even
     * count reached and the analysis is started once per multiple of 30
     * reached: after n decoded frames in a fresh session, n / 2 behaviours
     * have been recorded and n / 30 analyses started. The loop stops at the
     * first event that ends the session, or at the end of the run, and the
     * new state is `Run` of the old one over the events consumed.
     */
    method RunSession(mediapipe: bool, events: seq<SessionEvent>) returns (consumed: nat)
      modifies this
      ensures consumed <= |events|
      ensures Snapshot() == Run(mediapipe, old(Snapshot()), events[..consumed])
      ensures frameCount == old(frameCount) + DecodedCount(events[..consumed])
      ensures forall j :: 0 <= j < consumed - 1 ==> !StopsAt(events, old(frameCount), j)
      ensures consumed < |events| ==> consumed >= 1 && StopsAt(events, old(frameCount), consumed - 1)
      ensures |old(predictionHistory)| <= |predictionHistory|
      ensures predictionHistory[..|old(predictionHistory)|] == old(predictionHistory)
      ensures |predictionHistory| == |old(predictionHistory)| + frameCount / 2 - old(frameCount) / 2
      ensures |dispatches| == |old(dispatches)| + frameCount / 30 - old(frameCount) / 30
      ensures |old(dispatches)| <= |dispatches| && dispatches[..|old(dispatches)|] == old(dispatches)
      ensures forall k :: |old(dispatches)| <= k < |dispatches| ==> dispatches[k] % 30 == 0
    {
      ghost var f0, s0 := frameCount, Snapshot();
      consumed := 0;
      while consumed < |events|
        invariant Consumed(events, f0, consumed, frameCount)
        invariant Tracks(mediapipe, s0, events, consumed, Snapshot())
      {
        ghost var f, snap := frameCount, Snapshot();
        var keepGoing := Receive(mediapipe, events[consumed]);
        TracksStep(mediapipe, s0, events, consumed, snap, Snapshot());
        ConsumedStep(events, f0, consumed, f, frameCount);
        consumed := consumed + 1;
        if !keepGoing {
          break;
        }
      }
      RunProgress(mediapipe, s0, events[..consumed]);
    }
  }

  /** The fields of a session that the receive loop changes. */
  datatype SessionState = SessionState(
    history: seq<string>, frameCount: int, emotions: EmotionState, mouthStatus: string, dispatches: seq<int>)

  /**
   * What one event does to a session: a failed receive changes nothing; a
   * finished analysis merges its result into the emotion fields; a message
   * whose frame is counted moves the count, and when the new count is even
   * the frame is processed with the cached emotion: the mouth status is
   * set, the main behaviour appended, and at a multiple of 15 the analysis
   * started.
   */
  function Next(mediapipe: bool, s: SessionState, ev: SessionEvent): SessionState {
    match ev
    case ReceiveFails => s
    case AnalysisDone(a) => s.(emotions := Merge(s.emotions, a))
    case Message(text, decoded, perception, _) =>
      if !Counted(text, decoded) then s
      else
        var f := s.frameCount + 1;
        if f % FrameSkip != 0 then s.(frameCount := f)
        else
          var emotion := s.emotions.emotion;
          s.(frameCount := f,
             mouthStatus := MouthStatus(mediapipe, perception, emotion),
             history := s.history + [FrameBehavior(mediapipe, perception, emotion)],
             dispatches := s.dispatches + (if f % 15 == 0 then [f] else []))
  }

  /** The state after every event of a run, one after the other. */
  function Run(mediapipe: bool, s: SessionState, evs: seq<SessionEvent>): SessionState {
    if evs == [] then s
    else
      Next(mediapipe, Run(mediapipe, s, evs[..|evs| - 1]), evs[|evs| - 1])
  }

  /** Running one more event. */
  lemma RunNext(mediapipe: bool, s: SessionState, evs: seq<SessionEvent>, i: nat)
    requires i < |evs|
    ensures Run(mediapipe, s, evs[..i + 1]) == Next(mediapipe, Run(mediapipe, s, evs[..i]), evs[i])
  {
    assert evs[..i + 1][..i] == evs[..i];
  }

  /** The state `snap` is the one the first n events of the run lead to from s0. */
  ghost predicate Tracks(mediapipe: bool, s0: SessionState, events: seq<SessionEvent>, n: nat, snap: SessionState) {
    n <= |events| && snap == Run(mediapipe, s0, events[..n])
  }

  /** Consuming event n keeps `Tracks`. */
  lemma TracksStep(mediapipe: bool, s0: SessionState, events: seq<SessionEvent>, n: nat,
                   snap: SessionState, snap': SessionState)
    requires Tracks(mediapipe, s0, events, n, snap) && n < |events|
    requires snap' == Next(mediapipe, snap, events[n])
    ensures Tracks(mediapipe, s0, events, n + 1, snap')
  {
    RunNext(mediapipe, s0, events, n);
  }

  /**
   * One event as `Next` takes it: the count moves by `CountOf`, and the
   * history and the dispatches only grow at their ends, by one behaviour at
   * an even count and by one dispatch at an even multiple of 15.
   */
  lemma NextGrows(mediapipe: bool, s: SessionState, ev: SessionEvent)
    ensures Next(mediapipe, s, ev).frameCount == s.frameCount + CountOf(ev)
    ensures var s', c := Next(mediapipe, s, ev), CountOf(ev) == 1;
      && |s.history| <= |s'.history| && s'.history[..|s.history|] == s.history
      && |s'.history| == |s.history| + (if c && s'.frameCount % 2 == 0 then 1 else 0)
      && s'.dispatches == s.dispatches
           + (if c && s'.frameCount % 2 == 0 && s'.frameCount % 15 == 0 then [s'.frameCount] else [])
  {
    var s' := Next(mediapipe, s, ev);
    assert s'.history[..|s.history|] == s.history;
  }

  /**
   * Over a run, the count, the history and the dispatches move as
   * `Progress` says: the old entries stay in front, one behaviour per even
   * count reached and one dispatch per multiple of 30 reached.
   */
  lemma {:induction false} RunProgress(mediapipe: bool, s: SessionState, evs: seq<SessionEvent>)
    requires s.frameCount >= 0
    ensures var r := Run(mediapipe, s, evs);
      Progress(s.history, s.dispatches, s.frameCount, r.history, r.dispatches, r.frameCount)
  {
    if evs == [] {
      assert s.history[..|s.history|] == s.history && s.dispatches[..|s.dispatches|] == s.dispatches;
    } else {
      var init, last := evs[..|evs| - 1], evs[|evs| - 1];
      RunProgress(mediapipe, s, init);
      var r := Run(mediapipe, s, init);
      var r' := Next(mediapipe, r, last);
      NextGrows(mediapipe, r, last);
      ProgressStep(s.history, s.dispatches, s.frameCount, r.history, r.dispatches, r.frameCount,
                   CountOf(last) == 1, r'.history, r'.dispatches, r'.frameCount);
    }
  }

  /** The analysis results among the events, in the order they finish. */
  function Analyses(evs: seq<SessionEvent>): (r: seq<Analysis>)
    ensures |r| <= |evs|
  {
    if evs == [] then []
    else
      var last := evs[|evs| - 1];
      Analyses(evs[..|evs| - 1]) + (if last.AnalysisDone? then [last.analysis] else [])
  }

  /** The emotion fields after merging each result in turn. */
  function MergeAll(e: EmotionState, results: seq<Analysis>): EmotionState {
    if results == [] then e
    else
      Merge(MergeAll(e, results[..|results| - 1]), results[|results| - 1])
  }

  /** Over a run, the count rises by one per counted message. */
  lemma {:induction false} RunCount(mediapipe: bool, s: SessionState, evs: seq<SessionEvent>)
    ensures Run(mediapipe, s, evs).frameCount == s.frameCount + DecodedCount(evs)
  {
    if evs != [] {
      RunCount(mediapipe, s, evs[..|evs| - 1]);
    }
  }

  /**
   * Over a run, the emotion fields depend only on the analyses that finish
   * in it: messages never write them, whatever their frames show.
   */
  lemma {:induction false} RunEmotions(mediapipe: bool, s: SessionState, evs: seq<SessionEvent>)
    ensures Run(mediapipe, s, evs).emotions == MergeAll(s.emotions, Analyses(evs))
  {
    if evs != [] {
      var init, last := evs[..|evs| - 1], evs[|evs| - 1];
      RunEmotions(mediapipe, s, init);
      if last.AnalysisDone? {
        var rs := Analyses(init) + [last.analysis];
        assert rs[..|rs| - 1] == Analyses(init);
      } else {
        assert Analyses(evs) == Analyses(init);
      }
    }
  }

  /**
   * The behaviour recorded for the frame of message j, when that frame is
   * processed, is `FrameBehavior` of its perception with the emotion left
   * by the analyses that finished before it.
   */
  lemma RecordedBehaviour(mediapipe: bool, s: SessionState, evs: seq<SessionEvent>, j: nat)
    requires j < |evs| && evs[j].Message?
    requires Processes(evs[j].text, evs[j].decoded, s.frameCount + DecodedCount(evs[..j]))
    ensures Run(mediapipe, s, evs[..j + 1]).history
         == Run(mediapipe, s, evs[..j]).history
              + [FrameBehavior(mediapipe, evs[j].perception, MergeAll(s.emotions, Analyses(evs[..j])).emotion)]
  {
    RunNext(mediapipe, s, evs, j);
    RunCount(mediapipe, s, evs[..j]);
    RunEmotions(mediapipe, s, evs[..j]);
  }

  /** 1 for a message whose frame is counted, 0 for any other event. */
  function CountOf(ev: SessionEvent): (n: nat)
    ensures n == 1 <==> ev.Message? && Counted(ev.text, ev.decoded)
    ensures n <= 1
  {
    if ev.Message? && Counted(ev.text, ev.decoded) then 1 else 0
  }

  /** How many of the events are messages whose frame is counted. */
  function DecodedCount(evs: seq<SessionEvent>): (n: nat)
    ensures n <= |evs|
  {
    if evs == [] then 0
    else
      DecodedCount(evs[..|evs| - 1]) + CountOf(evs[|evs| - 1])
  }

  /** The event ends the loop when it arrives at frame count `frameCount`. */
  predicate Stops(ev: SessionEvent, frameCount: int) {
    ev.ReceiveFails? || (ev.Message? && Breaks(ev.text, ev.decoded, ev.sendOk, frameCount))
  }

  /** Event j of the run ends the loop, given that the run started at frame count f0. */
  predicate StopsAt(events: seq<SessionEvent>, f0: int, j: nat)
    requires j < |events|
  {
    Stops(events[j], f0 + DecodedCount(events[..j]))
  }

  /** Counting one more event. */
  lemma DecodedCountNext(evs: seq<SessionEvent>, i: nat)
    requires i < |evs|
    ensures DecodedCount(evs[..i + 1]) == DecodedCount(evs[..i]) + CountOf(evs[i])
  {
    assert evs[..i + 1][..i] == evs[..i];
  }

  /** Sequence helper for `Receive`: appending to a sequence that starts with `p` keeps `p` at its front. */
  lemma KeepsPrefix(p: seq<string>, s: seq<string>, t: seq<string>)
    requires |p| <= |s| && s[..|p|] == p
    ensures (s + t)[..|p|] == p
  {
    assert (s + t)[..|p|] == s[..|p|];
  }

  /**
   * What a run of messages has done since the loop started at count f0 with
   * the history hist0 and the dispatches d0: the old history and dispatches
   * kept in front, one behaviour per even count reached, one dispatch per
   * multiple of 30 reached.
   */
  ghost predicate Progress(hist0: seq<string>, d0: seq<int>, f0: int, hist: seq<string>, d: seq<int>, f: int) {
    && f >= f0 >= 0
    && |hist0| <= |hist| && hist[..|hist0|] == hist0
    && |hist| == |hist0| + f / 2 - f0 / 2
    && |d0| <= |d| && d[..|d0|] == d0
    && |d| == |d0| + f / 30 - f0 / 30
    && forall k :: |d0| <= k < |d| ==> d[k] % 30 == 0
  }

  /** One event keeps `Progress`: a counted frame at an even count adds a behaviour, and at a multiple of 30 a dispatch. */
  lemma ProgressStep(hist0: seq<string>, d0: seq<int>, f0: int, hist: seq<string>, d: seq<int>, f: int,
                     counted: bool, hist': seq<string>, d': seq<int>, f': int)
    requires Progress(hist0, d0, f0, hist, d, f)
    requires f' == f + (if counted then 1 else 0)
    requires |hist| <= |hist'| && hist'[..|hist|] == hist
    requires |hist'| == |hist| + (if counted && f' % 2 == 0 then 1 else 0)
    requires d' == d + (if counted && f' % 2 == 0 && f' % 15 == 0 then [f'] else [])
    ensures Progress(hist0, d0, f0, hist', d', f')
  {
    if counted {
      CountStep(f);
      EvenAndFifteen(f');
    }
    assert d'[..|d0|] == d[..|d0|];
    assert hist'[..|hist0|] == hist[..|hist0|];
  }

  /**
   * The loop has consumed the first n events without stopping, and the
   * count has risen by one per counted message among them.
   */
  ghost predicate Consumed(events: seq<SessionEvent>, f0: int, n: nat, f: int) {
    && n <= |events|
    && f == f0 + DecodedCount(events[..n])
    && forall j :: 0 <= j < n ==> !StopsAt(events, f0, j)
  }

  /**
   * Consuming event n: the count moves by `CountOf`; if the event did not
   * stop the loop, the consumed prefix grows by one.
   */
  lemma ConsumedStep(events: seq<SessionEvent>, f0: int, n: nat, f: int, f': int)
    requires Consumed(events, f0, n, f) && n < |events|
    requires f' == f + CountOf(events[n])
    ensures f' == f0 + DecodedCount(events[..n + 1])
    ensures !StopsAt(events, f0, n) ==> Consumed(events, f0, n + 1, f')
    ensures StopsAt(events, f0, n) <==> Stops(events[n], f)
  {
    DecodedCountNext(events, n);
  }

  /** Reaching f + 1 passes a multiple of 2 or of 30 exactly when f + 1 is one. */
  lemma CountStep(f: nat)
    ensures (f + 1) / 2 == f / 2 + (if (f + 1) % 2 == 0 then 1 else 0)
    ensures (f + 1) / 30 == f / 30 + (if (f + 1) % 30 == 0 then 1 else 0)
  {
  }

  /** A count is processed and dispatches the analysis exactly when it is a multiple of 30. */
  lemma EvenAndFifteen(n: nat)
    ensures (n % 2 == 0 && n % 15 == 0) <==> n % 30 == 0
  {
    var rb, rn := (n / 15) % 2, n % 15;
    DecomposeThirty(n);
    if rb == 0 {
      assert n % 2 == rn % 2;
    } else {
      assert n % 2 == (rn + 1) % 2;
    }
  }

  /** `n` is 30 q + 15 rb + rn, where rn is n % 15 and rb is the parity of n / 15. */
  lemma DecomposeThirty(n: nat)
    ensures n % 30 == 15 * ((n / 15) % 2) + n % 15
    ensures n % 2 == ((n / 15) % 2 + n % 15) % 2
  {
    var b := n / 15;
    var c, rb, rn := b / 2, b % 2, n % 15;
    assert n == 30 * c + (15 * rb + rn) && 0 <= 15 * rb + rn < 30;
    assert n % 30 == 15 * rb + rn;
    assert n == 2 * (15 * c + 7 * rb) + (rb + rn);
  }
}
