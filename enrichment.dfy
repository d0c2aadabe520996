/**
 * The emotion-enrichment merge of the behaviour server
 * (`analyze_emotion_task` in fixed_colab.py): the face analysis of a
 * dispatched frame overwrites the session's cached emotion and its face
 * boxes. The analysis itself is foreign; its outcome is the `Analysis`
 * value. The session field update is `Session.SessionData.AnalyzeEmotionTask`,
 * proved against `Merge` below.
 */
module Enrichment {
  import opened Text

  /** A face region as the analysis reports it. */
  datatype Region = Region(x: int, y: int, w: int, h: int)

  /**
   * One entry of the analysis result. A missing `dominant_emotion` key, or a
   * `region` without its four keys, makes the indexing raise `KeyError`.
   */
  datatype FaceResult = FaceResult(dominantEmotion: Option<string>, region: Option<Region>)

  /** What `DeepFace.analyze` gave. */
  datatype Analysis =
    | Unavailable                  // DEEPFACE_AVAILABLE is false: return at once
    | Raises                       // the analysis itself raised
    | Single(face: FaceResult)     // a dict, wrapped in a list by `analyze_emotion_task`
    | Many(faces: seq<FaceResult>) // a list, possibly empty

  /** One entry of `faces_data`. */
  datatype FaceBox = FaceBox(box: Region, emotion: string)

  /** The two session fields `analyze_emotion_task` writes: `current_emotion` and `faces_data`. */
  datatype EmotionState = EmotionState(emotion: string, faces: seq<FaceBox>)

  /** `objs` after `if isinstance(objs, dict): objs = [objs]`. */
  function Entries(a: Analysis): seq<FaceResult>
    requires a.Single? || a.Many?
  {
    if a.Single? then [a.face] else a.faces
  }

  /** An entry the loop can read without raising. */
  predicate Complete(r: FaceResult) {
    r.dominantEmotion.Some? && r.region.Some?
  }

  /** The `faces_data` entry of a complete result. */
  function BoxOf(r: FaceResult): FaceBox
    requires Complete(r)
  {
    FaceBox(r.region.value, r.dominantEmotion.value)
  }

  /** The boxes of a run of complete results, in order. */
  function BoxesOf(rs: seq<FaceResult>): (bs: seq<FaceBox>)
    requires forall i :: 0 <= i < |rs| ==> Complete(rs[i])
    ensures |bs| == |rs|
    ensures forall i :: 0 <= i < |rs| ==> bs[i] == BoxOf(rs[i])
  {
    if rs == [] then [] else [BoxOf(rs[0])] + BoxesOf(rs[1..])
  }

  /** Boxing one more complete result appends its box. */
  lemma BoxesOfAppend(rs: seq<FaceResult>, r: FaceResult)
    requires forall i :: 0 <= i < |rs| ==> Complete(rs[i])
    requires Complete(r)
    ensures forall i :: 0 <= i < |rs + [r]| ==> Complete((rs + [r])[i])
    ensures BoxesOf(rs + [r]) == BoxesOf(rs) + [BoxOf(r)]
  {
    var ext := rs + [r];
    assert forall i :: 0 <= i < |ext| ==> Complete(ext[i]);
    assert BoxesOf(ext) == BoxesOf(rs) + [BoxOf(r)];
  }

  /**
   * The session's emotion fields after `analyze_emotion_task` (fixed_colab.py:96-119). The
   * emotion is written before the loop over the entries, so an entry that
   * raises inside the loop leaves the new emotion with the old boxes: the
   * two writes are not atomic.
   */
  function Merge(s: EmotionState, a: Analysis): (r: EmotionState)
    ensures a.Unavailable? || a.Raises? ==> r == s
    ensures r.emotion == s.emotion
      || ((a.Single? || a.Many?) && Entries(a) != [] && Entries(a)[0].dominantEmotion == Some(r.emotion))
    ensures r.faces != s.faces ==> (a.Single? || a.Many?) && |r.faces| == |Entries(a)|
  {
    if a.Unavailable? || a.Raises? then s
    else
      var objs := Entries(a);
      if objs == [] then EmotionState(s.emotion, [])
      else if objs[0].dominantEmotion.None? then s
      else
        var emotion := objs[0].dominantEmotion.value;
        if forall i :: 0 <= i < |objs| ==> Complete(objs[i]) then EmotionState(emotion, BoxesOf(objs))
        else EmotionState(emotion, s.faces)
  }

  // ---------------------------------------------------------------------------
  // What a merge does
  // ---------------------------------------------------------------------------

  /**
   * A well-formed, non-empty result sets the emotion to the first entry's and
   * replaces the boxes wholesale, one per entry, in order; an empty result
   * clears the boxes and keeps the emotion; an unavailable or failed analysis
   * changes nothing.
   */
  lemma MergeOutcomes(s: EmotionState, a: Analysis)
    ensures (a.Unavailable? || a.Raises?) ==> Merge(s, a) == s
    ensures (a.Many? && a.faces == []) ==> Merge(s, a) == EmotionState(s.emotion, [])
    ensures (a.Single? || a.Many?) && Entries(a) != [] && (forall i :: 0 <= i < |Entries(a)| ==> Complete(Entries(a)[i])) ==>
      var t := Merge(s, a);
      && t.emotion == Entries(a)[0].dominantEmotion.value
      && |t.faces| == |Entries(a)|
      && forall i :: 0 <= i < |t.faces| ==>
           t.faces[i].box == Entries(a)[i].region.value && t.faces[i].emotion == Entries(a)[i].dominantEmotion.value
  {
  }

  /** The boxes after a merge are the old ones, or exactly the ones the analysis reported. */
  lemma MergeFacesFromAnalysis(s: EmotionState, a: Analysis)
    ensures var t := Merge(s, a);
      || t.faces == s.faces
      || ((a.Single? || a.Many?) && |t.faces| == |Entries(a)|
          && forall i :: 0 <= i < |t.faces| ==> Complete(Entries(a)[i]) && t.faces[i] == BoxOf(Entries(a)[i]))
  {
  }

  /** The merge is not atomic: a bad second entry leaves the first entry's emotion next to the old boxes. */
  lemma MergeNotAtomic(s: EmotionState, first: FaceResult, bad: FaceResult)
    requires Complete(first) && !Complete(bad)
    ensures Merge(s, Many([first, bad])) == EmotionState(first.dominantEmotion.value, s.faces)
  {
    assert !Complete(Many([first, bad]).faces[1]);
  }

  /** A second delivery of the same result changes nothing more. */
  lemma MergeIdempotent(s: EmotionState, a: Analysis)
    ensures Merge(Merge(s, a), a) == Merge(s, a)
  {
  }

  /**
   * Last writer wins: after a non-empty well-formed result the fields do not
   * depend on anything merged before it.
   */
  lemma LastWriterWins(s1: EmotionState, s2: EmotionState, a: Analysis)
    requires (a.Single? || a.Many?) && Entries(a) != []
    requires forall i :: 0 <= i < |Entries(a)| ==> Complete(Entries(a)[i])
    ensures Merge(s1, a) == Merge(s2, a)
  {
  }
}
