/** The ASR engine's segments and the two views of them the handler builds:
    the joined transcript text and the per-segment JSON records. */
module Segments {

  /** A float timestamp in seconds, carried as its 64-bit pattern and never
      computed with. */
  datatype Timestamp = Timestamp(bits: bv64)

  /** One segment as the ASR engine yields it; `id` stands for the engine's
      other per-segment fields, which the handler does not forward. */
  datatype Segment = Segment(id: int, start: Timestamp, end: Timestamp, text: string)

  /** `{"start": ..., "end": ..., "text": ...}` in the response. */
  datatype SegmentJson = SegmentJson(start: Timestamp, end: Timestamp, text: string)

  /** The total number of characters in the segment texts. */
  function TextLength(segments: seq<Segment>): nat
  {
    if segments == [] then 0 else |segments[0].text| + TextLength(segments[1..])
  }

  /** `"".join(segment.text for segment in segments)`. No separator is
      inserted: the result is exactly as long as the texts together, and it
      starts with the first segment's text. */
  function JoinTexts(segments: seq<Segment>): (r: string)
    ensures |r| == TextLength(segments)
    ensures segments != [] ==> r[..|segments[0].text|] == segments[0].text
  {
    if segments == [] then "" else segments[0].text + JoinTexts(segments[1..])
  }

  /** The list comprehension that builds the response's `segments`. */
  function ToJson(segments: seq<Segment>): (r: seq<SegmentJson>)
    ensures |r| == |segments|
    ensures forall k :: 0 <= k < |segments| ==>
      r[k].start == segments[k].start && r[k].end == segments[k].end && r[k].text == segments[k].text
  {
    if segments == [] then []
    else [SegmentJson(segments[0].start, segments[0].end, segments[0].text)] + ToJson(segments[1..])
  }

  /** Joining distributes over concatenation of segment lists. */
  lemma {:induction false} JoinTextsAppend(a: seq<Segment>, b: seq<Segment>)
    ensures JoinTexts(a + b) == JoinTexts(a) + JoinTexts(b)
  {
    if a == [] {
      assert a + b == b;
    } else {
      assert (a + b)[1..] == a[1..] + b;
      JoinTextsAppend(a[1..], b);
    }
  }

  /** The joined text is the segment texts laid end to end in order with
      nothing between them: segment `k`'s text starts right where the texts
      before it end, and the texts after it follow directly. */
  lemma JoinTextsLayout(segments: seq<Segment>, k: nat)
    requires k < |segments|
    ensures var before := |JoinTexts(segments[..k])|;
      && |JoinTexts(segments)| == before + |segments[k].text| + |JoinTexts(segments[k + 1..])|
      && JoinTexts(segments)[before..before + |segments[k].text|] == segments[k].text
  {
    var pre, post := segments[..k], segments[k + 1..];
    var mid := [segments[k]];
    assert segments == pre + (mid + post);
    JoinTextsAppend(pre, mid + post);
    JoinTextsAppend(mid, post);
    assert mid[1..] == [];
    assert JoinTexts(mid) == segments[k].text;
    var joined := JoinTexts(pre) + (segments[k].text + JoinTexts(post));
    assert JoinTexts(segments) == joined;
    assert joined[|JoinTexts(pre)|..|JoinTexts(pre)| + |segments[k].text|] == segments[k].text;
  }

  /** `"".join(...)` written as the accumulating loop it performs. */
  method JoinTextsLoop(segments: seq<Segment>) returns (s: string)
    ensures s == JoinTexts(segments)
  {
    s := "";
    var i := 0;
    while i < |segments|
      invariant 0 <= i <= |segments|
      invariant s == JoinTexts(segments[..i])
    {
      JoinTextsAppend(segments[..i], [segments[i]]);
      assert segments[..i + 1] == segments[..i] + [segments[i]];
      s := s + segments[i].text;
      i := i + 1;
    }
    assert segments[..i] == segments;
  }

  /** Joining inserts no separator: `["Hello", " world"]` gives `"Hello world"`. */
  lemma JoinHelloWorld(t0: Timestamp, t1: Timestamp, t2: Timestamp)
    ensures JoinTexts([Segment(0, t0, t1, "Hello"), Segment(1, t1, t2, " world")]) == "Hello world"
  {
    var segments := [Segment(0, t0, t1, "Hello"), Segment(1, t1, t2, " world")];
    assert segments[1..][1..] == [];
    assert JoinTexts(segments[1..]) == " world" + "";
    assert "Hello" + (" world" + "") == "Hello world";
  }
}
