/**
 * The per-frame bookkeeping of the tracking server (server.py): the
 * module-level state (`class_counters`, `track_to_human_id`, the rolling
 * `detections` list and the CSV log), and the two loops of
 * `_run_track_on_frame` that turn the detector's boxes into detection events.
 *
 * The detector and tracker (`model.track`) are a source of values: their
 * output for one frame is the `TrackerOutput` parameter. Image work (crops,
 * drawing, the motion score) is not modelled.
 */
module Tracking {
  import opened Text
  import opened Identity
  import opened Boxes
  import opened DetectionBuffer

  /** One detector box with its class index (`xyxy[i]`, `cls_ids[i]`). */
  datatype Detection = Detection(box: RawBox, classId: int)

  /** What `model.track` returns for one frame; confidences and track ids may be absent. */
  datatype TrackerOutput = TrackerOutput(
    dets: seq<Detection>,
    confs: Option<seq<real>>,
    trackIds: Option<seq<int>>)

  /** The detector gives one confidence and one track id per box, when it gives them at all. */
  predicate WellFormed(out: TrackerOutput) {
    && (out.confs.Some? ==> |out.confs.value| == |out.dets|)
    && (out.trackIds.Some? ==> |out.trackIds.value| == |out.dets|)
  }

  /** The per-call inputs: class names, frame size, labels and the two time stamps. */
  datatype FrameContext = FrameContext(
    names: map<int, string>,
    width: int,
    height: int,
    source: string,
    frameIdx: int,
    timestampIso: string,
    timestampFile: string)

  /** One detection event, as put in the rolling list and written as a CSV row. */
  datatype Event = Event(
    timestamp: string,
    source: string,
    frame: int,
    classLabel: string,
    humanId: string,
    trackId: int,
    confidence: Option<real>,
    bbox: Box,
    cropUrl: string,
    postureHint: string,
    childByScaleHint: bool)

  /**
   * `_safe_lower_name`: the model's name for the class, stripped and
   * lower-cased, or the index itself. The detector reports class indices as
   * floats, so the source prints an unnamed index 2 as "2.0" where the model
   * prints "2"; neither spelling is a tracked class, so the filter keeps and
   * drops the same boxes either way.
   */
  function SafeLowerName(names: map<int, string>, cid: int): (name: string)
    ensures forall i :: 0 <= i < |name| ==> !IsUpper(name[i])
    ensures cid !in names ==> name == IntToString(cid) && name !in TargetClasses
  {
    if cid in names then Lower(Strip(names[cid]))
    else
      var s := IntToString(cid);
      StripKeeps(s);
      LowerKeeps(s);
      NumberNotTarget(s);
      Lower(Strip(s))
  }

  /** A printed number starts with a digit or a minus sign, so it is never a tracked class name. */
  lemma NumberNotTarget(s: string)
    requires s != [] && (IsDigit(s[0]) || s[0] == '-')
    ensures s !in TargetClasses
  {
    assert "man"[0] == 'm' && "woman"[0] == 'w' && "child"[0] == 'c';
  }

  /** What both loops read from box i: its class name, its clamped box, its track id and its confidence. */
  datatype Candidate = Candidate(cls: string, box: Box, trackId: int, conf: Option<real>)

  /**
   * Box i as the loops see it. The track id is `int(track_ids[i])`, or the
   * box index when the tracker gave none; the confidence is `float(confs[i])`
   * or None.
   */
  function CandidateAt(ctx: FrameContext, out: TrackerOutput, i: nat): Candidate
    requires WellFormed(out) && i < |out.dets|
  {
    Candidate(
      SafeLowerName(ctx.names, out.dets[i].classId),
      ClampBox(out.dets[i].box, ctx.width, ctx.height),
      if out.trackIds.Some? then out.trackIds.value[i] else i,
      if out.confs.Some? then Some(out.confs.value[i]) else None)
  }

  /** A box lies inside a w x h frame. */
  predicate InFrame(b: Box, w: int, h: int) {
    0 <= b.x1 <= w - 1 && 0 <= b.x2 <= w - 1 && 0 <= b.y1 <= h - 1 && 0 <= b.y2 <= h - 1
  }

  /** All boxes of a frame, in detector order. */
  function Candidates(ctx: FrameContext, out: TrackerOutput): (cs: seq<Candidate>)
    requires WellFormed(out)
    ensures |cs| == |out.dets|
    ensures forall i :: 0 <= i < |cs| ==> cs[i] == CandidateAt(ctx, out, i)
  {
    seq(|out.dets|, i requires 0 <= i < |out.dets| => CandidateAt(ctx, out, i))
  }

  /**
   * Every candidate's box lies inside a non-empty frame; without tracker ids
   * the boxes are numbered 0, 1, 2, ... in detector order; without
   * confidences every confidence is None.
   */
  lemma CandidatesShape(ctx: FrameContext, out: TrackerOutput)
    requires WellFormed(out)
    ensures var cs := Candidates(ctx, out);
      && (ctx.width >= 1 && ctx.height >= 1 ==>
            forall i :: 0 <= i < |cs| ==> InFrame(cs[i].box, ctx.width, ctx.height))
      && (out.trackIds.None? ==> forall i :: 0 <= i < |cs| ==> cs[i].trackId == i)
      && (out.confs.None? ==> forall i :: 0 <= i < |cs| ==> cs[i].conf.None?)
  {
  }

  /** A candidate yields an event: a tracked class, and a box with positive width and height. */
  predicate Kept(c: Candidate) {
    c.cls in TargetClasses && c.box.x2 > c.box.x1 && c.box.y2 > c.box.y1
  }

  /** The heights gathered by the first loop over the first n boxes (every tracked class, degenerate boxes too). */
  function PersonHeights(cs: seq<Candidate>, n: nat): (hs: seq<int>)
    requires n <= |cs|
    ensures |hs| <= n
    ensures forall k :: 0 <= k < |hs| ==> hs[k] >= 1
  {
    if n == 0 then []
    else
      var prev := PersonHeights(cs, n - 1);
      if cs[n - 1].cls in TargetClasses then prev + [BoxHeight(cs[n - 1].box)] else prev
  }

  /** `os.path.join("detections", class_name, f"{timestamp_file}_{human_id}.jpg")` with '/' separators, then '/' in front. */
  function CropUrl(cls: string, tsFile: string, humanId: string): (url: string)
    ensures |url| == 18 + |cls| + |tsFile| + |humanId|
  {
    "/" + "detections" + "/" + cls + "/" + tsFile + "_" + humanId + ".jpg"
  }

  /**
   * The crop path can be read back: it lies under "/detections/", the
   * directory after that is the class, and the file name ends with
   * "_<identity>.jpg".
   */
  lemma CropUrlParts(cls: string, tsFile: string, humanId: string)
    ensures var url := CropUrl(cls, tsFile, humanId);
      && StartsWith(url, "/detections/") && url[|url| - 4..] == ".jpg"
      && url[12..12 + |cls|] == cls && url[12 + |cls|] == '/'
      && url[|url| - 4 - |humanId|..|url| - 4] == humanId && url[|url| - 5 - |humanId|] == '_'
  {
  }

  /** The event for a candidate once it has passed both filters and received `humanId`. */
  function MakeEvent(ctx: FrameContext, heights: seq<int>, c: Candidate, humanId: string): Event {
    Event(ctx.timestampIso, ctx.source, ctx.frameIdx, c.cls, humanId, c.trackId, c.conf, c.box,
          CropUrl(c.cls, ctx.timestampFile, humanId),
          PostureHint(c.box), ChildByScaleHint(heights, c.box.y2 - c.box.y1))
  }

  /**
   * An event gives back the candidate it was made from and its identity; it
   * is stamped with the frame's labels, and it is flagged as a child only
   * when there were person heights to compare with.
   */
  lemma MakeEventParts(ctx: FrameContext, heights: seq<int>, c: Candidate, humanId: string)
    ensures var e := MakeEvent(ctx, heights, c, humanId);
      && CandidateOf(e) == c && e.humanId == humanId
      && e.timestamp == ctx.timestampIso && e.source == ctx.source && e.frame == ctx.frameIdx
      && (e.childByScaleHint ==> heights != [])
  {
  }

  /** The body of the second loop for one candidate: the registry afterwards and the event, if any. */
  function Step(reg: Registry, ctx: FrameContext, heights: seq<int>, c: Candidate)
    : (res: (Registry, Option<Event>))
    requires TargetClasses <= reg.counters.Keys
    ensures res.0.counters.Keys == reg.counters.Keys
    ensures res.1.Some? <==> Kept(c)
    ensures !Kept(c) ==> res.0 == reg
    ensures Kept(c) ==> (res.0, res.1.value.humanId) == Assign(reg, c.cls, c.trackId)
    ensures Kept(c) ==> res.1.value == MakeEvent(ctx, heights, c, res.1.value.humanId)
  {
    if c.cls !in TargetClasses then (reg, None)
    else if c.box.x2 <= c.box.x1 || c.box.y2 <= c.box.y1 then (reg, None)
    else
      var minted := Assign(reg, c.cls, c.trackId);
      (minted.0, Some(MakeEvent(ctx, heights, c, minted.1)))
  }

  /** The second loop run over the first n candidates: the registry afterwards and the events, in box order. */
  function Scan(reg: Registry, ctx: FrameContext, heights: seq<int>, cs: seq<Candidate>, n: nat)
    : (res: (Registry, seq<Event>))
    requires n <= |cs| && TargetClasses <= reg.counters.Keys
    ensures res.0.counters.Keys == reg.counters.Keys
    ensures |res.1| <= n
  {
    if n == 0 then (reg, [])
    else
      var prev := Scan(reg, ctx, heights, cs, n - 1);
      var step := Step(prev.0, ctx, heights, cs[n - 1]);
      (step.0, if step.1.Some? then prev.1 + [step.1.value] else prev.1)
  }

  /** The second loop over one more candidate: the previous scan followed by one `Step`. */
  lemma ScanUnfold(reg: Registry, ctx: FrameContext, heights: seq<int>, cs: seq<Candidate>, i: nat)
    requires i < |cs| && TargetClasses <= reg.counters.Keys
    ensures var prev := Scan(reg, ctx, heights, cs, i);
      var step := Step(prev.0, ctx, heights, cs[i]);
      Scan(reg, ctx, heights, cs, i + 1) == (step.0, prev.1 + (if step.1.Some? then [step.1.value] else []))
  {
    var prev := Scan(reg, ctx, heights, cs, i).1;
    assert prev + [] == prev;
  }

  /**
   * Concatenation regroups: used to extend the log by one step's rows. Kept
   * as a lemma so the loop of `LogCandidates` sees this one instance rather
   * than proving it among all its other facts.
   */
  lemma AppendAssoc(a: seq<Event>, b: seq<Event>, c: seq<Event>)
    ensures (a + b) + c == a + (b + c)
  {
  }

  /** One more candidate: an unkept one changes nothing, a kept one assigns its key and appends its event. */
  lemma ScanNext(reg: Registry, ctx: FrameContext, heights: seq<int>, cs: seq<Candidate>, i: nat)
    requires i < |cs| && TargetClasses <= reg.counters.Keys
    ensures var prev := Scan(reg, ctx, heights, cs, i);
      && (!Kept(cs[i]) ==> Scan(reg, ctx, heights, cs, i + 1) == prev)
      && (Kept(cs[i]) ==>
            var a := Assign(prev.0, cs[i].cls, cs[i].trackId);
            Scan(reg, ctx, heights, cs, i + 1) == (a.0, prev.1 + [MakeEvent(ctx, heights, cs[i], a.1)]))
  {
  }

  /** The indices of the candidates among the first n that pass both filters, in order. */
  function KeptIndices(cs: seq<Candidate>, n: nat): (ks: seq<nat>)
    requires n <= |cs|
    ensures forall m :: 0 <= m < |ks| ==> ks[m] < n
  {
    if n == 0 then []
    else KeptIndices(cs, n - 1) + (if Kept(cs[n - 1]) then [n - 1] else [])
  }

  /** The kept indices among n candidates: those among the first n - 1, then n - 1 if it is kept. */
  lemma KeptIndicesUnfold(cs: seq<Candidate>, n: nat)
    requires 0 < n <= |cs|
    ensures KeptIndices(cs, n) == KeptIndices(cs, n - 1) + (if Kept(cs[n - 1]) then [n - 1] else [])
  {
  }

  // ---------------------------------------------------------------------------
  // What a frame produces
  // ---------------------------------------------------------------------------

  /** Exactly the candidates that pass both filters are listed, each once, in box order. */
  lemma {:induction false} KeptIndicesExact(cs: seq<Candidate>, n: nat)
    requires n <= |cs|
    ensures forall i :: 0 <= i < n ==> (i in KeptIndices(cs, n) <==> Kept(cs[i]))
    ensures forall a, b :: 0 <= a < b < |KeptIndices(cs, n)| ==> KeptIndices(cs, n)[a] < KeptIndices(cs, n)[b]
  {
    if n > 0 {
      KeptIndicesExact(cs, n - 1);
      var ks := KeptIndices(cs, n - 1);
      var ks' := KeptIndices(cs, n);
      assert n - 1 !in ks;
      forall i | 0 <= i < n
        ensures i in ks' <==> Kept(cs[i])
      {
        assert i in ks' <==> i in ks || (Kept(cs[n - 1]) && i == n - 1);
      }
      forall a, b | 0 <= a < b < |ks'|
        ensures ks'[a] < ks'[b]
      {
        if b >= |ks| {
          assert ks'[b] == n - 1;
          assert ks'[a] == ks[a];
        }
      }
    }
  }

  /** The box an event was made from: its class, clamped box, track id and confidence. */
  function CandidateOf(e: Event): Candidate {
    Candidate(e.classLabel, e.bbox, e.trackId, e.confidence)
  }

  /** The boxes a list of events was made from, in the same order. */
  function CandidatesOf(evs: seq<Event>): (cs: seq<Candidate>)
    ensures |cs| == |evs|
  {
    if evs == [] then [] else CandidatesOf(evs[..|evs| - 1]) + [CandidateOf(evs[|evs| - 1])]
  }

  /** The candidates at positions `ks`, in that order. */
  function Pick(cs: seq<Candidate>, ks: seq<nat>): (r: seq<Candidate>)
    requires forall m :: 0 <= m < |ks| ==> ks[m] < |cs|
    ensures |r| == |ks|
  {
    if ks == [] then [] else Pick(cs, ks[..|ks| - 1]) + [cs[ks[|ks| - 1]]]
  }

  /** The boxes behind one more event are those behind the earlier ones, then its own. */
  lemma CandidatesOfAppend(evs: seq<Event>, e: Event)
    ensures CandidatesOf(evs + [e]) == CandidatesOf(evs) + [CandidateOf(e)]
  {
    assert (evs + [e])[..|evs|] == evs;
  }

  /** Picking one more position picks the earlier ones, then that candidate. */
  lemma PickAppend(cs: seq<Candidate>, ks: seq<nat>, k: nat)
    requires forall m :: 0 <= m < |ks| ==> ks[m] < |cs|
    requires k < |cs|
    ensures Pick(cs, ks + [k]) == Pick(cs, ks) + [cs[k]]
  {
    assert (ks + [k])[..|ks|] == ks;
  }

  /** Read back as candidates, one more candidate adds itself to the events exactly when it is kept. */
  lemma ScanCandidatesUnfold(reg: Registry, ctx: FrameContext, heights: seq<int>, cs: seq<Candidate>, i: nat)
    requires i < |cs| && TargetClasses <= reg.counters.Keys
    ensures CandidatesOf(Scan(reg, ctx, heights, cs, i + 1).1) ==
              CandidatesOf(Scan(reg, ctx, heights, cs, i).1) + (if Kept(cs[i]) then [cs[i]] else [])
  {
    var prev := Scan(reg, ctx, heights, cs, i);
    var step := Step(prev.0, ctx, heights, cs[i]);
    ScanUnfold(reg, ctx, heights, cs, i);
    if step.1.Some? {
      CandidatesOfAppend(prev.1, step.1.value);
    } else {
      assert prev.1 + [] == prev.1;
    }
  }

  /** Picking the kept indices among one more candidate adds that candidate exactly when it is kept. */
  lemma PickKeptUnfold(cs: seq<Candidate>, n: nat)
    requires 0 < n <= |cs|
    ensures Pick(cs, KeptIndices(cs, n)) == Pick(cs, KeptIndices(cs, n - 1)) + (if Kept(cs[n - 1]) then [cs[n - 1]] else [])
  {
    var ks := KeptIndices(cs, n - 1);
    KeptIndicesUnfold(cs, n);
    if Kept(cs[n - 1]) {
      PickAppend(cs, ks, n - 1);
    } else {
      assert ks + [] == ks;
    }
  }

  /**
   * The events of a frame are made from exactly the kept candidates, in box
   * order: read back as (class, clamped box, track id, confidence), the m-th
   * event is the m-th kept candidate.
   */
  lemma {:induction false} ScanEventsFromKeptBoxes(reg: Registry, ctx: FrameContext, heights: seq<int>, cs: seq<Candidate>, n: nat)
    requires n <= |cs| && TargetClasses <= reg.counters.Keys
    ensures CandidatesOf(Scan(reg, ctx, heights, cs, n).1) == Pick(cs, KeptIndices(cs, n))
  {
    if n > 0 {
      ScanEventsFromKeptBoxes(reg, ctx, heights, cs, n - 1);
      ScanCandidatesUnfold(reg, ctx, heights, cs, n - 1);
      PickKeptUnfold(cs, n);
    }
  }

  /** An event's crop path and both hints are those of its own box and identity. */
  predicate Derived(e: Event, ctx: FrameContext, heights: seq<int>) {
    e == MakeEvent(ctx, heights, CandidateOf(e), e.humanId)
  }

  /** Every event of a frame carries the frame's labels and the crop path and hints of its own box. */
  lemma {:induction false} ScanEventsDerived(reg: Registry, ctx: FrameContext, heights: seq<int>, cs: seq<Candidate>, n: nat)
    requires n <= |cs| && TargetClasses <= reg.counters.Keys
    ensures forall e :: e in Scan(reg, ctx, heights, cs, n).1 ==> Derived(e, ctx, heights)
  {
    if n > 0 {
      ScanEventsDerived(reg, ctx, heights, cs, n - 1);
      ScanUnfold(reg, ctx, heights, cs, n - 1);
    }
  }

  /**
   * An event is for a tracked class, its box lies inside the w x h frame with
   * x1 < x2 and y1 < y2, and `reg` maps its (class, track id) key to its identity.
   */
  predicate Recorded(e: Event, reg: Registry, w: int, h: int) {
    && e.classLabel in TargetClasses
    && InFrame(e.bbox, w, h) && e.bbox.x1 < e.bbox.x2 && e.bbox.y1 < e.bbox.y2
    && (e.classLabel, e.trackId) in reg.ids
    && reg.ids[(e.classLabel, e.trackId)] == e.humanId
  }

  /**
   * Every event is for a tracked class, its box lies inside the frame with
   * x1 < x2 and y1 < y2, and its identity is the one the registry holds for
   * its (class, track id) key after the frame.
   */
  lemma {:induction false} ScanEventsInFrame(reg: Registry, ctx: FrameContext, heights: seq<int>, cs: seq<Candidate>, n: nat)
    requires n <= |cs| && TargetClasses <= reg.counters.Keys
    requires forall i :: 0 <= i < |cs| ==> InFrame(cs[i].box, ctx.width, ctx.height)
    ensures forall e :: e in Scan(reg, ctx, heights, cs, n).1 ==>
              Recorded(e, Scan(reg, ctx, heights, cs, n).0, ctx.width, ctx.height)
  {
    if n > 0 {
      ScanEventsInFrame(reg, ctx, heights, cs, n - 1);
      var r1 := Scan(reg, ctx, heights, cs, n - 1).0;
      var evs := Scan(reg, ctx, heights, cs, n - 1).1;
      var step := Step(r1, ctx, heights, cs[n - 1]);
      ScanUnfold(reg, ctx, heights, cs, n - 1);
      forall ev | ev in evs
        ensures Recorded(ev, step.0, ctx.width, ctx.height)
      {
        RecordedKept(ev, r1, step.0, ctx.width, ctx.height);
      }
      if step.1.Some? {
        assert Recorded(step.1.value, step.0, ctx.width, ctx.height);
      }
    }
  }

  /** `Assign` never changes or drops an identity, so what was recorded stays recorded. */
  lemma RecordedKept(e: Event, r1: Registry, r2: Registry, w: int, h: int)
    requires Recorded(e, r1, w, h)
    requires forall k :: k in r1.ids ==> k in r2.ids && r2.ids[k] == r1.ids[k]
    ensures Recorded(e, r2, w, h)
  {
    assert (e.classLabel, e.trackId) in r1.ids;
  }

  /** The registry after the first n candidates, ignoring the events: one `Assign` per kept candidate. */
  function Registered(reg: Registry, cs: seq<Candidate>, n: nat): (r: Registry)
    requires n <= |cs| && TargetClasses <= reg.counters.Keys
    ensures r.counters.Keys == reg.counters.Keys
  {
    if n == 0 then reg
    else
      var prev := Registered(reg, cs, n - 1);
      if Kept(cs[n - 1]) then Assign(prev, cs[n - 1].cls, cs[n - 1].trackId).0 else prev
  }

  /** The registry a frame leaves does not depend on the events it records. */
  lemma {:induction false} ScanRegistered(reg: Registry, ctx: FrameContext, heights: seq<int>, cs: seq<Candidate>, n: nat)
    requires n <= |cs| && TargetClasses <= reg.counters.Keys
    ensures Scan(reg, ctx, heights, cs, n).0 == Registered(reg, cs, n)
  {
    if n > 0 {
      ScanRegistered(reg, ctx, heights, cs, n - 1);
      var prev := Scan(reg, ctx, heights, cs, n - 1).0;
      assert Scan(reg, ctx, heights, cs, n).0 == Step(prev, ctx, heights, cs[n - 1]).0;
    }
  }

  /** The kept candidates of a frame keep the registry invariant. */
  lemma {:induction false} RegisteredPreservesValid(reg: Registry, cs: seq<Candidate>, n: nat)
    requires n <= |cs| && Identity.Valid(reg)
    ensures Identity.Valid(Registered(reg, cs, n))
  {
    if n > 0 {
      RegisteredPreservesValid(reg, cs, n - 1);
      if Kept(cs[n - 1]) {
        AssignPreservesValid(Registered(reg, cs, n - 1), cs[n - 1].cls, cs[n - 1].trackId);
      }
    }
  }

  /** A frame keeps the registry invariant. */
  lemma ScanPreservesValid(reg: Registry, ctx: FrameContext, heights: seq<int>, cs: seq<Candidate>, n: nat)
    requires n <= |cs| && Identity.Valid(reg)
    ensures Identity.Valid(Scan(reg, ctx, heights, cs, n).0)
  {
    ScanRegistered(reg, ctx, heights, cs, n);
    RegisteredPreservesValid(reg, cs, n);
  }

  // ---------------------------------------------------------------------------
  // The server's module-level state
  // ---------------------------------------------------------------------------

  class TrackingServer {
    /** `class_counters` */
    var classCounters: map<string, nat>
    /** `track_to_human_id` */
    var trackToHumanId: map<TrackKey, string>
    /** `detections`: the last events, oldest first, for the UI */
    var detections: seq<Event>
    /** the rows written to tracking_log.csv since start-up */
    var csvRows: seq<Event>

    function Reg(): Registry
      reads this
    {
      Registry(classCounters, trackToHumanId)
    }

    /** The registry invariant, and the UI list is the tail of the log. */
    ghost predicate Valid()
      reads this
    {
      Identity.Valid(Reg()) && detections == TakeLast(csvRows, MaxKeep)
    }

    /** The state at import: every counter 0, nothing registered, nothing logged. */
    constructor ()
      ensures Valid()
      ensures Reg() == Initial() && detections == [] && csvRows == []
    {
      classCounters := map c | c in TargetClasses :: 0;
      trackToHumanId := map[];
      detections := [];
      csvRows := [];
      new;
      InitialValid();
    }

    /** `_get_human_id(class_name, track_id)` (server.py:67-72). */
    method GetHumanId(cls: string, tid: int) returns (hid: string)
      requires cls in classCounters
      modifies this
      ensures (Reg(), hid) == Assign(old(Reg()), cls, tid)
      ensures detections == old(detections) && csvRows == old(csvRows)
    {
      var key := (cls, tid);
      if key !in trackToHumanId {
        classCounters := classCounters[cls := classCounters[cls] + 1];
        trackToHumanId := trackToHumanId[key := MintId(cls, classCounters[cls])];
      }
      hid := trackToHumanId[key];
    }

    /** `_append_detection(event)` with the default `max_keep=80` (server.py:117-120). */
    method AppendDetection(e: Event)
      modifies this
      ensures detections == Appended(old(detections), e, MaxKeep)
      ensures Reg() == old(Reg()) && csvRows == old(csvRows)
    {
      detections := detections + [e];
      detections := TakeLast(detections, MaxKeep);
    }

    /** The first loop of `_run_track_on_frame` (server.py:160-166): the heights of the tracked-class boxes, in box order. */
    static method CollectPersonHeights(cs: seq<Candidate>) returns (heights: seq<int>)
      ensures heights == PersonHeights(cs, |cs|)
    {
      heights := [];
      var i := 0;
      while i < |cs|
        invariant 0 <= i <= |cs|
        invariant heights == PersonHeights(cs, i)
      {
        var c := cs[i];
        if c.cls in TargetClasses {
          heights := heights + [Max(1, c.box.y2 - c.box.y1)];
        }
        i := i + 1;
      }
    }

    /**
     * One pass of the second loop of `_run_track_on_frame` (server.py:172-238):
     * skip an untracked class or a degenerate box; otherwise look up the
     * identity, then write the CSV row and append the event to the UI list.
     * The registry and the log move on exactly as `Step` says.
     */
    method LogCandidate(ctx: FrameContext, heights: seq<int>, c: Candidate)
      requires TargetClasses <= classCounters.Keys && detections == TakeLast(csvRows, MaxKeep)
      modifies this
      ensures detections == TakeLast(csvRows, MaxKeep)
      ensures Reg() == Step(old(Reg()), ctx, heights, c).0
      ensures var e := Step(old(Reg()), ctx, heights, c).1;
        csvRows == old(csvRows) + (if e.Some? then [e.value] else [])
    {
      var className := c.cls;
      if className !in TargetClasses {
        return;
      }
      var b := c.box;
      if b.x2 <= b.x1 || b.y2 <= b.y1 {
        return;
      }
      var humanId := GetHumanId(className, c.trackId);
      var postureHint := PostureHint(b);
      var childScaleHint := ChildByScaleHint(heights, b.y2 - b.y1);
      var event := Event(ctx.timestampIso, ctx.source, ctx.frameIdx, className, humanId, c.trackId, c.conf, b,
                         CropUrl(className, ctx.timestampFile, humanId), postureHint, childScaleHint);
      assert event == MakeEvent(ctx, heights, c, humanId);
      TakeLastAppend(csvRows, event, MaxKeep);
      csvRows := csvRows + [event];
      AppendDetection(event);
    }

    /**
     * The second loop of `_run_track_on_frame` (server.py:171-238) over the
     * frame's candidates: the registry and the log move on exactly as `Scan`
     * says, the UI list stays the last 80 rows of the log, and the invariant
     * holds.
     */
    method LogCandidates(ctx: FrameContext, heights: seq<int>, cs: seq<Candidate>)
      requires TargetClasses <= classCounters.Keys && detections == TakeLast(csvRows, MaxKeep)
      modifies this
      ensures detections == TakeLast(csvRows, MaxKeep)
      ensures Reg() == Scan(old(Reg()), ctx, heights, cs, |cs|).0
      ensures csvRows == old(csvRows) + Scan(old(Reg()), ctx, heights, cs, |cs|).1
    {
      ghost var reg0 := Reg();
      ghost var rows0 := csvRows;
      var i := 0;
      while i < |cs|
        invariant 0 <= i <= |cs|
        invariant Reg() == Scan(reg0, ctx, heights, cs, i).0
        invariant csvRows == rows0 + Scan(reg0, ctx, heights, cs, i).1
        invariant detections == TakeLast(csvRows, MaxKeep)
      {
        ghost var before := csvRows;
        ScanUnfold(reg0, ctx, heights, cs, i);
        LogCandidate(ctx, heights, cs[i]);
        AppendAssoc(rows0, Scan(reg0, ctx, heights, cs, i).1, csvRows[|before|..]);
        i := i + 1;
      }
    }

    /**
     * `_run_track_on_frame` (server.py:148-238) without the image work: read
     * every box's class name, clamped box, track id and confidence, collect
     * the heights, then log the kept boxes. A frame without boxes changes
     * nothing.
     */
    method RunTrackOnFrame(ctx: FrameContext, out: TrackerOutput)
      requires Valid() && WellFormed(out)
      modifies this
      ensures Valid()
      ensures var cs := Candidates(ctx, out);
        && Reg() == Scan(old(Reg()), ctx, PersonHeights(cs, |cs|), cs, |cs|).0
        && csvRows == old(csvRows) + Scan(old(Reg()), ctx, PersonHeights(cs, |cs|), cs, |cs|).1
    {
      if |out.dets| == 0 {
        return;
      }
      var cs := Candidates(ctx, out);
      var heights := CollectPersonHeights(cs);
      ghost var reg0 := Reg();
      LogCandidates(ctx, heights, cs);
      ScanPreservesValid(reg0, ctx, heights, cs, |cs|);
    }
  }
}
