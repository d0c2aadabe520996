# Behaviour-tracking servers: a Dafny model of the bookkeeping

The repository runs two camera-analysis servers.

- **server.py** is the tracking server. For each frame it runs a person
  detector and tracker. It clamps each box into the frame and keeps only
  boxes of class man, woman or child that are not degenerate. It gives each
  (class, raw track id) pair a stable identity such as `Man1` or `Child3`,
  minted from a per-class counter. It attaches two hints to each event: an
  aspect-ratio posture hint, and a "much smaller than the median person"
  child hint. Each event is written as a CSV row and appended to a rolling
  list of the last 80 events.
- **fixed_colab.py** is the behaviour server. A browser streams JPEG data
  URIs over a WebSocket.
  - A handshake picks the session id.
  - A filter drops control messages.
  - Every second decoded frame is processed. Hand-up, standing/sitting and
    mouth/shouting rules run on the pose and face landmarks, and one "main
    behaviour" per processed frame goes into the session history.
  - A processed frame whose count is a multiple of 15 starts a background
    face-emotion analysis. Only even counts are processed, so analyses start
    at counts 30, 60, 90, ... The result overwrites the session's cached
    emotion and face boxes.
  - When a connection ends, a cleanup deletes the session five minutes
    later.
  - A separate endpoint summarises a session's history: the total, the
    per-label counts and the most frequent label.

The detector, tracker, pose, face and emotion models are treated as sources
of values. Their outputs are parameters of the model: `TrackerOutput`,
`Perception`, `Analysis`, and the decode outcome of a message.

## Modules and how they are proved

| file | module | what it holds |
|---|---|---|
| text.dfy | `Text` | Python `str(int)`, `capitalize`, `lower`, `strip`, `startswith`, `in`, `split` and `sorted` (ASCII) |
| identity.dfy | `Identity` | the identity registry as a value, `Assign`, and the registry invariant `Valid` |
| boxes.dfy | `Boxes` | `_clamp_box`, `_posture_hint_from_box`, `_child_by_scale_hint` and the upper median |
| buffer.dfy | `DetectionBuffer` | `_append_detection`: the list trimmed to the last 80 events |
| tracking.dfy | `Tracking` | the two loops of `_run_track_on_frame` as `Step`/`Scan`, and the class `TrackingServer` holding the module globals |
| handshake.dfy | `Handshake` | JSON values and the session-id choice |
| inbound.dfy | `Inbound` | the message filter and data-URI payload extraction |
| behavior.dfy | `Behavior` | the pose, mouth and main-behaviour rules |
| enrichment.dfy | `Enrichment` | the merge done by `analyze_emotion_task` |
| session.dfy | `Session` | the class `SessionData` and the receive loop: decimation, processing, dispatch |
| report.dfy | `Report` | the summary of `generate_graphs` |
| lifecycle.dfy | `Lifecycle` | the session table, its delayed cleanup, and the corrected cleanup |

The code that updates state in place is written as classes:
`TrackingServer` (`class_counters`, `track_to_human_id`, `detections`, the
CSV rows), `SessionData`, and `SessionTable`. Each method states its new
state through a specification function (`Assign`, `Appended`, `Step`, `Scan`,
`Merge`, `PoseStatuses`, `MouthStatus`, `FrameBehavior`, `Next`/`Run`,
`Open`/`Close`/`Expire`). The properties the source promises are then proved
about those functions as lemmas, or kept as loop invariants. For the receive
loop, `Session.Next` is what one event does to a session and `Session.Run`
folds it over a run of events; `RunSession` ends in `Run` of its start state
over the events it consumed, and the lemmas about `Run` give the count, the
history, the dispatches and the emotion fields that result.

## Model

| member | source | states |
|---|---|---|
| Text.SortInts | server.py:111 | `sorted(heights)` is an ascending permutation of the heights (same multiset, same length) |
| Identity.Initial | server.py:40-41 | at start-up every target class has counter 0 and no key is registered |
| Identity.Assign | server.py:67-72 | the returned identity is the one now stored for the key; no counter class appears or disappears; every earlier key keeps its identity |
| Identity.CapitalizedTargets | server.py:71 | `capitalize` turns man, woman, child into Man, Woman, Child |
| Identity.MintIdInjective | server.py:71 | an identity `Cap(class)n` determines both the target class and the ordinal n |
| Identity.InitialValid | server.py:40-41 | the start-up registry satisfies the invariant |
| Identity.AssignKnownKey | server.py:68-72 | asking again for a registered key returns its identity and changes no state |
| Identity.AssignNewKey | server.py:69-71 | a new key raises only its own class's counter, by exactly 1, and receives `Cap(class)` followed by the new counter |
| Identity.FreshIdUnused | server.py:70-71 | the identity minted for a new key is not held by any registered key |
| Identity.AssignPreservesValid | server.py:40-41 | every call keeps the invariant: per class, the counter equals the number of keys of that class, those keys hold exactly `Cap(c)1`..`Cap(c)n`, and no identity is shared |
| Identity.AssignNeverShared | server.py:67-72 | the identity returned for a key is never the identity of a different key |
| Identity.RepeatedKeyScenario | server.py:67-72 | keys man/7, man/9, man/7 from start-up receive Man1, Man2, Man1 |
| Identity.AssignAll | server.py:67-72 | a run of calls returns one identity per key, each the identity the registry holds for that key at the end; every key registered before the run keeps its identity; a valid registry stays valid |
| Identity.AssignAllNeverShared | server.py:67-72 | over a run from a valid registry, two different keys never receive the same identity |
| Boxes.Trunc | server.py:76-79 | `int(x)` on a float truncates toward zero |
| Boxes.ClampCoord | server.py:76-79 | `max(0, min(v, size-1))` lies in 0..size-1, leaves an in-range value alone, and sends values below to 0 and above to size-1 |
| Boxes.ClampBox | server.py:75-80 | for w, h >= 1 the clamped corners satisfy 0 <= x1, x2 <= w-1 and 0 <= y1, y2 <= h-1 |
| Boxes.ClampBoxIdempotent | server.py:75-80 | clamping a clamped box again gives the same box |
| Boxes.PostureHint | server.py:83-92 | with width and height floored at 1: "standing/upright" iff bh/bw > 2.2, "crouched/sitting/unclear" iff bh/bw < 1.4, "unknown" iff 1.4 <= bh/bw <= 2.2, stated as 5bh > 11bw and 5bh < 7bw |
| Boxes.ChildByScaleHint | server.py:107-114 | false for no heights; otherwise true iff this height < 0.65 times `sorted(heights)[len // 2]` |
| Boxes.UpperMedianRank | server.py:110-113 | the compared value is the upper median: at most len/2 heights are strictly below it and more than len/2 are at or below it |
| Boxes.CountBelowPermutation | server.py:111 | how many values lie below a bound does not depend on their order, so `sorted` keeps the ranks |
| DetectionBuffer.TakeLast | server.py:120 | `s[-k:]` keeps the last min(k, \|s\|) elements in order, and everything when k = 0 |
| DetectionBuffer.Appended | server.py:117-120 | after an append the list ends with the new event and holds at most one more event than before, and at most 80 |
| DetectionBuffer.AppendedShape | server.py:117-120 | after one append the list has min(\|old\|+1, 80) events, ends with the new event, and keeps the newest older events in order |
| DetectionBuffer.TakeLastAppend | server.py:118-120 | trimming before an append does not change what the trim after it keeps |
| DetectionBuffer.AppendAllKeepsLast | server.py:117-120 | a run of appends leaves the last 80 of all events ever appended, oldest first |
| DetectionBuffer.OverflowKeepsNewest | server.py:117-120 | from empty, after 80 + j appends (j > 0) exactly the newest 80 remain and the first j are dropped |
| Tracking.CandidatesShape | server.py:151-158 | each box the loops read is clamped into a non-empty frame; without tracker ids the track id is the box index; without confidences every confidence is None |
| Tracking.SafeLowerName | server.py:62-64 | the class name has no upper-case letters; a class index the detector does not name is printed as the number itself and is never a tracked class |
| Tracking.NumberNotTarget | server.py:62-64 | a printed number is none of man, woman, child |
| Tracking.CropUrlParts | server.py:187-233 | the crop URL lies under `/detections/`, its directory is the class name, and its file name ends with `_<identity>.jpg` |
| Tracking.MakeEventParts | server.py:224-237 | an event gives back the class, box, track id and confidence it was built from, its identity and the frame's labels, and flags a child only when there were person heights |
| Tracking.PersonHeights | server.py:160-166 | the first loop collects at most one height per box, each at least 1 |
| Tracking.Step | server.py:171-238 | a box yields an event iff its class is tracked and its clamped box has x2 > x1 and y2 > y1; only then is an identity assigned, exactly as `Assign` does; otherwise nothing changes |
| Tracking.Scan | server.py:171-238 | the second loop over the first n boxes keeps the counter classes and yields at most one event per box |
| Tracking.ScanNext | server.py:171-238 | one more box: an unkept box changes nothing; a kept box assigns its key and appends the event built from it |
| Tracking.KeptIndicesExact | server.py:171-178 | exactly the boxes that pass both filters are listed, each once, in increasing box order |
| Tracking.ScanEventsFromKeptBoxes | server.py:171-238 | the events of a frame, read back as (class, box, track id, confidence), are exactly the kept boxes in box order |
| Tracking.ScanEventsDerived | server.py:185-236 | each event carries the frame's labels, the crop path built from its class and identity, and the posture and child hints of its own box |
| Tracking.ScanEventsInFrame | server.py:171-183 | every event is for a tracked class, lies inside the frame with x1 < x2 and y1 < y2, and its identity is the one the registry holds for its key after the frame |
| Tracking.ScanRegistered | server.py:171-183 | the registry after a frame is one `Assign` per kept box, whatever events were made |
| Tracking.RegisteredPreservesValid | server.py:171-183 | a frame's assignments keep the registry invariant |
| Tracking.ScanPreservesValid | server.py:171-183 | a whole frame keeps the registry invariant |
| Tracking.TrackingServer.constructor | server.py:40-56 | import-time state: counters 0, no identities, empty detection list and log; the invariant holds |
| Tracking.TrackingServer.GetHumanId | server.py:67-72 | the counters, the identity map and the returned identity move exactly as `Assign` says; the lists are untouched |
| Tracking.TrackingServer.AppendDetection | server.py:117-120 | the detection list becomes the last 80 of old list plus the event; nothing else changes |
| Tracking.TrackingServer.CollectPersonHeights | server.py:160-166 | the loop returns the heights of the tracked-class boxes in box order |
| Tracking.TrackingServer.LogCandidate | server.py:172-238 | one pass of the second loop: registry and log move as `Step` says and the UI list stays the last 80 rows of the log |
| Tracking.TrackingServer.LogCandidates | server.py:171-238 | the whole second loop: the registry and log move as `Scan` says and the UI list stays the last 80 rows of the log |
| Tracking.TrackingServer.RunTrackOnFrame | server.py:123-240 | a frame moves registry and log as the two loops specify, and the server invariant holds afterwards |
| Handshake.ChooseSessionId | fixed_colab.py:163-177 | the id is the client's `session_id` iff the first message arrived, parsed as an object, has `type == "session_init"` and a truthy, hashable `session_id`; otherwise the temporary id |
| Handshake.DeclaredStringIdKept | fixed_colab.py:165-170 | a client that declares a non-empty string id keeps it, whatever other fields it sends |
| Handshake.FallbackCases | fixed_colab.py:163-177 | a timeout, a parse failure, any parsed value that is not an object, an object without `type` or `session_id`, and a declared id that cannot be a dictionary key all fall back to the temporary id |
| Inbound.ClassifyMessage | fixed_colab.py:194-204 | a payload comes out iff the message is not empty, "pong" or `{...`, and contains both "," and ";base64,"; the payload has no comma |
| Inbound.PayloadBetweenCommas | fixed_colab.py:199 | the payload is exactly the text between the first comma and the next comma or the end |
| Inbound.DataUriRoundTrip | fixed_colab.py:198-199 | any comma-free base64 body sent as `data:image/jpeg;base64,<body>` passes the filter and comes back unchanged |
| Enrichment.BoxesOf | fixed_colab.py:110-114 | one `{box, emotion}` per complete result, in order |
| Enrichment.Merge | fixed_colab.py:96-119 | an unavailable or failed analysis changes nothing; the emotion afterwards is the old one or the first entry's; the boxes change only to one box per reported entry |
| Enrichment.MergeOutcomes | fixed_colab.py:96-119 | unavailable or failed analysis changes nothing; an empty result clears the boxes and keeps the emotion; a well-formed non-empty result sets the first entry's emotion and replaces the boxes one per entry, in order |
| Enrichment.MergeFacesFromAnalysis | fixed_colab.py:104-117 | afterwards the boxes are the old ones, or exactly the boxes the analysis reported |
| Enrichment.MergeNotAtomic | fixed_colab.py:106-114 | a malformed second entry leaves the first entry's emotion next to the old boxes |
| Enrichment.MergeIdempotent | fixed_colab.py:96-119 | delivering the same result twice changes nothing more |
| Enrichment.LastWriterWins | fixed_colab.py:104-117 | after a well-formed non-empty result the fields do not depend on any earlier state |
| Behavior.PostureFlag | fixed_colab.py:244-254 | with knee and ankle visible (> 0.6): STANDING iff the angle is > 160, SITTING iff < 140, nothing in [140, 160] or when not visible |
| Behavior.PoseStatuses | fixed_colab.py:227-254 | at most three statuses, each a hand or posture flag |
| Behavior.MouthStatus | fixed_colab.py:215-270 | "", "Mouth Open" or "SHOUTING"; non-empty exactly when the face model found lips that are visible and apart; SHOUTING only with a shouting emotion |
| Behavior.MainBehavior | fixed_colab.py:302-307 | the result is an active status, SHOUTING or the cached emotion; the first active status whenever there is one; SHOUTING only if some input says so |
| Behavior.FrameBehavior | fixed_colab.py:214-307 | a frame's main behaviour is a hand or posture flag, SHOUTING, or the cached emotion; SHOUTING from a calm emotion only when the mouth rule says so |
| Behavior.PoseStatusesExact | fixed_colab.py:227-254 | each hand flag is present iff both landmarks are visible (> 0.5) and the wrist is above the eye; each posture flag iff its rule fires; never both posture flags; nothing else |
| Behavior.PoseStatusesOrder | fixed_colab.py:234-254 | a raised right hand comes first; posture flags come after every hand flag |
| Behavior.MouthStatusExact | fixed_colab.py:256-270 | SHOUTING iff the lips are visible and more than 0.05 apart and the cached emotion is angry, fear or surprise; "Mouth Open" iff apart with another emotion; "" otherwise |
| Behavior.FrameBehaviorPriority | fixed_colab.py:302-307 | the first pose flag wins; without one the main behaviour is SHOUTING iff the mouth rule says so (or the cached emotion is that text); otherwise it is the cached emotion |
| Behavior.StandingAngles | fixed_colab.py:244-254 | a visible leg at 165, 170 or 175 degrees with no hand up gives exactly [STANDING], which is then the main behaviour |
| Behavior.MouthScenarios | fixed_colab.py:256-307 | lips 0.06 apart: SHOUTING with "angry", "Mouth Open" and the emotion itself with "happy" |
| Session.SessionData.constructor | fixed_colab.py:122-134 | a new session: empty history, count 0, emotion "Neutral", no face boxes, empty mouth status |
| Session.SessionData.AnalyzeEmotionTask | fixed_colab.py:96-119 | the emotion fields become `Merge` of the old ones and the analysis; the history, count, mouth status and dispatches are untouched |
| Session.SessionData.CollectPoseStatuses | fixed_colab.py:227-254 | the appended statuses are `PoseStatuses` of the pose |
| Session.SessionData.ProcessFrame | fixed_colab.py:214-309 | the mouth status and main behaviour are as the rules say; one behaviour is appended to the history; an analysis is dispatched iff the count is a multiple of 15; count and emotion unchanged |
| Session.SessionData.HandleMessage | fixed_colab.py:193-334 | the count rises by 1 exactly for a passing, decodable message; a behaviour is recorded iff the new count is even; a dispatch iff it is also a multiple of 15; the mouth status is recomputed on a processed frame and left alone otherwise; the loop breaks iff the payload is not base64 or the reply of a processed frame cannot be sent |
| Session.SessionData.Receive | fixed_colab.py:191-334 | one event of the loop leaves the session in `Next` of its old state: a failed receive changes nothing, a finished analysis merges into the emotion fields only, and a counted message moves the count and, on an even count, sets the mouth status and appends `FrameBehavior` with the cached emotion, dispatching at a multiple of 15; the count rises by `CountOf` the event, the history keeps its old entries, and the loop continues iff the event does not stop it |
| Session.NextGrows | fixed_colab.py:206-273 | under `Next` the count moves by `CountOf` the event, the history gains one entry at its end exactly on an even count and the dispatches one exactly at an even multiple of 15 |
| Session.RunProgress | fixed_colab.py:191-273 | over any run of events, the old history and dispatches stay in front, the history grows by one per even count reached and the dispatches by one per multiple of 30 |
| Session.RunCount | fixed_colab.py:200-207 | over any run, the count rises by the number of counted messages in it |
| Session.RunEmotions | fixed_colab.py:96-119 | over any run, the emotion fields are the start fields merged with the analyses that finished in it, in the order they finished; messages never write them |
| Session.RecordedBehaviour | fixed_colab.py:214-309 | the behaviour recorded for a processed message is `FrameBehavior` of its perception with the emotion left by the analyses finished before it |
| Session.TracksStep | fixed_colab.py:191-334 | consuming one more event of the run moves the session from `Run` of the shorter prefix to `Run` of the longer one |
| Session.CountOf | fixed_colab.py:206-207 | an event counts 1 exactly when it is a message that passes the filter and decodes to an image |
| Session.DecodedCount | fixed_colab.py:206-207 | the number of counted messages in a run of events, at most its length |
| Session.SessionData.RunSession | fixed_colab.py:191-334 | over any run of events the session ends in `Run` of its start state over the events consumed, so each recorded behaviour and the emotion fields are as `RecordedBehaviour` and `RunEmotions` give; the count rises by the number of counted messages consumed; the loop stops at the first event that ends the session (a failed receive, an invalid payload, a failed send) or at the end; the old history and dispatches are kept in front; the history grows by one per even count reached and the dispatches by one per multiple of 30; so from a fresh session n decoded frames give n/2 behaviours and n/30 analyses |
| Session.ConsumedStep | fixed_colab.py:191-207 | consuming one event moves the count by `CountOf`, and the consumed prefix grows exactly when the event does not stop the loop |
| Session.ProgressStep | fixed_colab.py:206-207 | one message keeps the progress relation between count, history length and dispatches |
| Session.CountStep | fixed_colab.py:206-207 | moving from f to f + 1 passes a multiple of 2 (or 30) iff f + 1 is one |
| Session.EvenAndFifteen | fixed_colab.py:273 | a count is processed and dispatches iff it is a multiple of 30 |
| Report.Count | fixed_colab.py:366 | a label's count is at most the history length and zero iff the label is absent |
| Report.FirstIndex | fixed_colab.py:366 | helper of `Distinct`, with no counterpart in the source: the first position of a label in the history, which fixes the first-occurrence order that `Counter` keys follow |
| Report.Distinct | fixed_colab.py:366 | the keys of `Counter(h)`: no duplicates, exactly the labels of the history |
| Report.Tally | fixed_colab.py:366 | the counter's items: each key paired with its count |
| Report.MaxIndex | fixed_colab.py:407 | `max(counts, key=counts.get)`: a largest count, and every earlier entry is strictly smaller, so ties go to the first |
| Report.DummyHistory | fixed_colab.py:360 | ten "Standing" labels |
| Report.FindHistory | fixed_colab.py:352-357 | the session is found iff the request's `session_id` (default "") is hashable and present, and then the history returned is the one stored under that id |
| Report.Summarise | fixed_colab.py:366-411 | a non-empty history always gives a summary, whose `totalFrames` is the history length |
| Report.GenerateSummary | fixed_colab.py:350-411 | an unknown session is summarised from the dummy history; an empty history gives "No data"; otherwise the summary of the history |
| Report.CountOnce | fixed_colab.py:366 | in a duplicate-free key list each key occurs once |
| Report.TotalCovers | fixed_colab.py:366 | counting a duplicate-free key list that covers the history accounts for every label exactly once |
| Report.DistinctInFirstOccurrenceOrder | fixed_colab.py:366 | the counter's keys come in order of first occurrence |
| Report.SummaryCounts | fixed_colab.py:366-405 | `totalFrames` is the history length; the counts list every label of the history, each with its positive count, and nothing else |
| Report.SummaryKeysInFirstOccurrenceOrder | fixed_colab.py:366 | each label appears once in the counts, in order of first occurrence |
| Report.SummaryCountsAddUp | fixed_colab.py:366-405 | the counts add up to `totalFrames` |
| Report.MostFrequentIsFirstMaximum | fixed_colab.py:407 | the most frequent label is in the history, no label is more frequent, and a label seen earlier is strictly less frequent |
| Report.UnknownSessionDummy | fixed_colab.py:358-361 | an unknown session gives 10 frames, counts [("Standing", 10)], most frequent "Standing" |
| Report.EmptyHistoryNoData | fixed_colab.py:363 | a live session with an empty history gives "No data" |
| Lifecycle.OpenServes | fixed_colab.py:179 | a connection stores a fresh session under its id, with a generation no pending cleanup carries |
| Lifecycle.Open | fixed_colab.py:179 | the id is now served, the table gains only that id, every other id keeps its session, and pending cleanups are untouched |
| Lifecycle.Close | fixed_colab.py:338-343 | the connection is no longer open, the sessions are untouched, and one cleanup for (id, generation) is queued exactly when the id is in the table |
| Lifecycle.ExpireAsWritten | fixed_colab.py:340-342 | the cleanup removes its id from the table, whichever session is stored there, and changes no other entry |
| Lifecycle.Expire | fixed_colab.py:338-343 | corrected: the id stays in the table iff it holds a session of another generation; no other id is removed and no entry changes |
| Lifecycle.ClosePreservesInv | fixed_colab.py:338-343 | ending a connection keeps the table invariant, and every other open connection keeps its session |
| Lifecycle.ExpireRemovesClosedSession | fixed_colab.py:340-342 | a cleanup whose session was not replaced deletes it, as written and as corrected |
| Lifecycle.StaleTimerDeletesReconnectedSession | fixed_colab.py:179-343 | connect as X, disconnect, reconnect as X: the first cleanup as written deletes the live session, and the corrected one keeps it |
| Lifecycle.ExpireKeepsServedSessions | fixed_colab.py:338-343 | the corrected cleanup never deletes or changes the session of an open connection, and keeps the invariant |
| Lifecycle.SessionTable.Connect | fixed_colab.py:179 | the table moves as `Open` says; the new session is served |
| Lifecycle.SessionTable.Disconnect | fixed_colab.py:338-343 | the table moves as `Close` says: a cleanup is scheduled only if the id is still stored |
| Lifecycle.SessionTable.Cleanup | fixed_colab.py:340-342 | the table moves as the corrected `Expire` says, not as the lines as written (see "## Findings"); served sessions stay served |

## Left out

- `calculate_angle`: it uses floating-point `arctan2`. The knee angle is an input of the posture rule.
- `_motion_score_in_box`: a mean of pixel differences over floats.
- The random intensity scores and the rounding of `totalTime`.
- The detector, tracker, `model.names`, the pose and face model, and the emotion analysis. They are value sources; their outputs are parameters.
- Image work: base64 and image decoding, resizing, flipping, JPEG encoding, drawing, and writing crops.
- CSV formatting. Each written row is the event appended to the `csvRows` sequence; the motion-score column is not modelled.
- Float thresholds are compared exactly as Dafny reals. IEEE rounding is not modelled.
- Strings are sequences of characters. Case mapping and `strip` cover ASCII only.
- WebSocket and HTTP routing, the receive and send timeouts, `ConnectionManager` and its keep-alive task.
- Threads: starting the analysis thread is recorded as an entry of `dispatches`. Its completion is an `AnalysisDone` event that can occur between any two messages. Interleaving inside a message is not modelled, so `current_emotion` is read once per processed frame.
- The 300-second delay of the cleanup task is abstract: a pending cleanup can fire at any later point.
- `int()` on tracker ids is applied before the model. Track ids are integers.
- Python dictionary keys that compare equal across types (`True`, `1`, `1.0`) are not identified. JSON session ids are compared as structured values.
- The request body of the summary endpoint is taken to be a JSON object. The branch for a non-dict body is not modelled.
- matplotlib rendering in `generate_graphs`.
- The frame count is a `nat` field, as the source only starts it at 0 and increments it.

Where the code and its documented intent differ, the model follows the code. The exception is the session table's cleanup: `Lifecycle.SessionTable.Cleanup` performs the corrected cleanup, and the code as written is modelled beside it as `Lifecycle.ExpireAsWritten` (see "## Findings").

- An invalid base64 payload raises. The outer `except Exception: break` then ends the session; it is not skipped.
- A reconnect under the same id replaces the stored `SessionData`, so the earlier history is lost.
- `_append_detection` with `max_keep=0` keeps everything (`s[-0:]`). The server only calls it with 80.

## Findings

| source | as written | input that shows it | evidently intended | confidence | as-written member | corrected member |
|---|---|---|---|---|---|---|
| fixed_colab.py:338-343 | the cleanup started when a connection ends deletes whatever is stored under the session id when it fires | connect with session id X, disconnect, reconnect with id X within 300 s; the first connection's cleanup fires and deletes the new, live session | delete the entry only if it still holds the session of the connection that started the cleanup | not executed | Lifecycle.StaleTimerDeletesReconnectedSession | Lifecycle.ExpireKeepsServedSessions |
