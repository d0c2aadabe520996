/**
 * The inbound-message filter of the behaviour server's receive loop
 * (fixed_colab.py:194-204): keep-alive replies, JSON control messages and
 * anything that is not a base64 data URI are ignored; for a data URI the
 * base64 payload is cut out of the text.
 */
module Inbound {
  import opened Text

  /** What the loop does with one text message before decoding. */
  datatype Inbound =
    | Ignored              // `continue` without touching the session
    | Payload(b64: string) // `data.split(",")[1]`, handed to `base64.b64decode`

  /** Skipped outright: empty, the keep-alive reply "pong", or a JSON control message. */
  predicate IsControl(data: string) {
    data == "" || data == "pong" || StartsWith(data, "{")
  }

  /** `"," in data and ";base64," in data` */
  predicate LooksLikeDataUri(data: string) {
    ',' in data && Contains(data, ";base64,")
  }

  /**
   * The filter (fixed_colab.py:194-204): a payload comes out exactly for a
   * message that is not a control message and contains both "," and
   * ";base64,"; the payload is the text after the first comma, up to the
   * next comma or the end.
   */
  function ClassifyMessage(data: string): (r: Inbound)
    ensures r.Payload? <==> !IsControl(data) && LooksLikeDataUri(data)
    ensures r.Payload? ==> ',' !in r.b64
  {
    if data == "" || data == "pong" || StartsWith(data, "{") then Ignored
    else if Contains(data, ",") && Contains(data, ";base64,") then
      ContainsChar(data, ',');
      SplitCount(data, ',');
      Payload(Split(data, ',')[1])
    else
      ContainsChar(data, ',');
      Ignored
  }

  /** `Join` of at least two fields puts the second right after the first comma. */
  lemma JoinSecondField(parts: seq<string>, c: char)
    requires |parts| >= 2
    ensures exists rest :: Join(parts, c) == parts[0] + [c] + parts[1] + rest && (rest == [] || rest[0] == c)
  {
    if |parts| == 2 {
      assert Join(parts, c) == parts[0] + [c] + parts[1] + [];
    } else {
      var rest := [c] + Join(parts[2..], c);
      assert Join(parts[1..], c) == parts[1] + rest;
      assert Join(parts, c) == parts[0] + [c] + parts[1] + rest;
    }
  }

  /**
   * The payload is the segment between the first comma and the second one
   * (or the end of the message): with `i` the position of the first comma,
   * the payload starts at i + 1 and is followed by a comma or by nothing.
   */
  lemma PayloadBetweenCommas(data: string)
    requires ClassifyMessage(data).Payload?
    ensures var p := ClassifyMessage(data).b64;
      var i := |Split(data, ',')[0]|;
      && i < |data| && data[i] == ',' && ',' !in data[..i]
      && i + 1 + |p| <= |data| && data[i + 1..i + 1 + |p|] == p
      && (i + 1 + |p| == |data| || data[i + 1 + |p|] == ',')
  {
    var parts := Split(data, ',');
    SplitCount(data, ',');
    ContainsChar(data, ',');
    SplitJoin(data, ',');
    JoinSecondField(parts, ',');
    var rest :| Join(parts, ',') == parts[0] + [','] + parts[1] + rest && (rest == [] || rest[0] == ',');
    var pre, p := parts[0], parts[1];
    assert ClassifyMessage(data).b64 == p;
    var i := |pre|;
    assert data == pre + [','] + p + rest;
    assert data[..i] == pre;
    assert data[i + 1..i + 1 + |p|] == p;
    if rest != [] {
      assert data[i + 1 + |p|] == rest[0];
    }
  }

  /** The prefix of the frames the browser sends and of the processed frames the server sends back. */
  const JpegDataUriPrefix := "data:image/jpeg;base64,"

  /** A JPEG data URI for a base64 body. */
  function JpegDataUri(b64: string): string {
    JpegDataUriPrefix + b64
  }

  /** Any comma-free base64 body wrapped as a JPEG data URI passes the filter and comes back unchanged. */
  lemma DataUriRoundTrip(b64: string)
    requires ',' !in b64
    ensures ClassifyMessage(JpegDataUri(b64)) == Payload(b64)
  {
    var data := JpegDataUri(b64);
    var tail := ";base64," + b64;
    assert data == "data:image/jpeg" + tail;
    assert StartsWith(tail, ";base64,");
    ContainsAfter("data:image/jpeg", tail, ";base64,");
    assert data[0] == 'd';
    assert !StartsWith(data, "{");
    assert data != "pong" by {
      assert |data| >= |JpegDataUriPrefix| > 4;
    }
    assert data[|JpegDataUriPrefix| - 1] == ',';
    ContainsChar(data, ',');
    assert Contains(data, ",") && Contains(data, ";base64,");
    assert data == "data:image/jpeg;base64" + [','] + b64;
    SplitPrefix("data:image/jpeg;base64", b64, ',');
    assert Split(data, ',')[1] == b64;
  }

  /** A string that occurs in `t` occurs in any `p + t`. */
  lemma {:induction false} ContainsAfter(p: string, t: string, w: string)
    requires Contains(t, w)
    ensures Contains(p + t, w)
  {
    if p == [] {
      assert p + t == t;
    } else {
      ContainsAfter(p[1..], t, w);
      assert (p + t)[1..] == p[1..] + t;
      assert p + t != [] && Contains((p + t)[1..], w);
    }
  }

  /** Splitting `a + [c] + b` with no separator in `a` or `b` gives exactly the two fields. */
  lemma {:induction false} SplitPrefix(a: string, b: string, c: char)
    requires c !in a && c !in b
    ensures Split(a + [c] + b, c) == [a, b]
  {
    if a == [] {
      assert a + [c] + b == [c] + b;
      assert (a + [c] + b)[1..] == b;
      SplitNone(b, c);
    } else {
      SplitPrefix(a[1..], b, c);
      var s := a + [c] + b;
      assert s[1..] == a[1..] + [c] + b;
      assert s[0] == a[0] && s[0] != c;
      assert [a[0]] + a[1..] == a;
    }
  }

  /** A string without the separator is a single field. */
  lemma {:induction false} SplitNone(s: string, c: char)
    requires c !in s
    ensures Split(s, c) == [s]
  {
    if s != [] {
      SplitNone(s[1..], c);
      assert [s[0]] + s[1..] == s;
    }
  }
}
