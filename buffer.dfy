/**
 * The rolling detection list of the tracking server (`_append_detection` in
 * server.py): append the event, then keep only the last `max_keep` (80)
 * entries, oldest first. The list itself is a field of
 * `Tracking.TrackingServer`; this module states what one append, and a run of
 * appends, leave in it.
 */
module DetectionBuffer {

  /** `max_keep`'s default, the only value the server uses. */
  const MaxKeep: nat := 80

  /**
   * Python `s[-k:]` for k >= 0: the last k elements, or all of them when
   * there are fewer. `s[-0:]` is `s[0:]`, so k = 0 keeps everything.
   */
  function TakeLast<T>(s: seq<T>, k: nat): (r: seq<T>)
    ensures k == 0 ==> r == s
    ensures k > 0 ==> |r| == (if |s| < k then |s| else k)
    ensures |r| <= |s|
    ensures forall i :: 0 <= i < |r| ==> r[i] == s[|s| - |r| + i]
  {
    if k == 0 || |s| <= k then s else s[|s| - k..]
  }

  /** The list after `detections.append(e); detections = detections[-k:]`. */
  function Appended<T>(buf: seq<T>, e: T, k: nat): (r: seq<T>)
    ensures r != [] && r[|r| - 1] == e
    ensures |r| <= |buf| + 1 && (k > 0 ==> |r| <= k)
  {
    TakeLast(buf + [e], k)
  }

  /** One append keeps at most k events, ends with the new one, and keeps the newest older ones in order. */
  lemma AppendedShape<T>(buf: seq<T>, e: T, k: nat)
    requires k >= 1
    ensures var r := Appended(buf, e, k);
      && |r| == (if |buf| + 1 < k then |buf| + 1 else k)
      && r[|r| - 1] == e
      && r[..|r| - 1] == buf[|buf| - (|r| - 1)..]
  {
    var s := buf + [e];
    var r := TakeLast(s, k);
    assert r == s[|s| - |r|..];
    assert r[..|r| - 1] == s[|s| - |r|..|s| - 1];
  }

  /** Trimming before the append does not change what the trim after it keeps. */
  lemma TakeLastAppend<T>(s: seq<T>, e: T, k: nat)
    requires k >= 1
    ensures TakeLast(TakeLast(s, k) + [e], k) == TakeLast(s + [e], k)
  {
    var t := TakeLast(s, k);
    assert t == s[|s| - |t|..];
    if |s| > k {
      assert t + [e] == (s + [e])[|s| - k..];
      assert TakeLast(t + [e], k) == (t + [e])[1..];
      assert (t + [e])[1..] == (s + [e])[|s| + 1 - k..];
    }
  }

  /** The list after appending each of `es` in turn. */
  function AppendAll<T>(buf: seq<T>, es: seq<T>, k: nat): seq<T>
    decreases |es|
  {
    if es == [] then buf else AppendAll(Appended(buf, es[0], k), es[1..], k)
  }

  /** A run of appends to a trimmed list leaves the last k of everything, in insertion order. */
  lemma {:induction false} AppendAllKeepsLast<T>(buf: seq<T>, s: seq<T>, es: seq<T>, k: nat)
    requires k >= 1 && buf == TakeLast(s, k)
    ensures AppendAll(buf, es, k) == TakeLast(s + es, k)
    decreases |es|
  {
    if es == [] {
      assert s + es == s;
    } else {
      var next := s + [es[0]];
      calc {
        AppendAll(buf, es, k);
        AppendAll(Appended(buf, es[0], k), es[1..], k);
        { TakeLastAppend(s, es[0], k);
          AppendAllKeepsLast(Appended(buf, es[0], k), next, es[1..], k); }
        TakeLast(next + es[1..], k);
        { assert next + es[1..] == s + es; }
        TakeLast(s + es, k);
      }
    }
  }

  /** Starting empty, after k + j appends (j > 0) exactly the last k events remain, oldest first. */
  lemma OverflowKeepsNewest<T>(es: seq<T>, k: nat, j: nat)
    requires k >= 1 && j > 0 && |es| == k + j
    ensures AppendAll([], es, k) == es[j..]
  {
    var empty: seq<T> := [];
    AppendAllKeepsLast(empty, empty, es, k);
    assert empty + es == es;
    LastOfLonger(es, k, j);
  }

  /** Of a list longer than k by j, the last k are the ones after the first j. */
  lemma LastOfLonger<T>(es: seq<T>, k: nat, j: nat)
    requires k >= 1 && |es| == k + j
    ensures TakeLast(es, k) == es[j..]
  {
  }
}
