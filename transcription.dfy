/**
 * Live transcription: the `recognition.onresult` handler walks the result
 * list from `resultIndex`, appends every final segment (and a space) to a
 * transcript that outlives the event, and rebuilds the interim text.
 */
module Transcription {

  /** `event.results[i]`: the first alternative's transcript and whether it is final. */
  datatype Segment = Segment(transcript: string, isFinal: bool)

  /** What the final segments of `segs` contribute to the final transcript, in order. */
  function Finals(segs: seq<Segment>): string
  {
    if segs == [] then ""
    else
      var last := segs[|segs| - 1];
      Finals(segs[..|segs| - 1]) + (if last.isFinal then last.transcript + " " else "")
  }

  /** The interim text of `segs`: its non-final transcripts, concatenated in order. */
  function Interims(segs: seq<Segment>): string
  {
    if segs == [] then ""
    else
      var last := segs[|segs| - 1];
      Interims(segs[..|segs| - 1]) + (if last.isFinal then "" else last.transcript)
  }

  /** The segments an event visits: those from `resultIndex` on. */
  function Visited(results: seq<Segment>, resultIndex: nat): seq<Segment>
  {
    if resultIndex <= |results| then results[resultIndex..] else []
  }

  /**
   * The loop of `recognition.onresult`: starting from the final transcript
   * so far, it returns the grown final transcript and this event's interim
   * text.
   */
  method ScanResults(results: seq<Segment>, resultIndex: nat, finalSoFar: string)
    returns (final: string, interim: string)
    ensures final == finalSoFar + Finals(Visited(results, resultIndex))
    ensures interim == Interims(Visited(results, resultIndex))
  {
    final, interim := finalSoFar, "";
    ghost var lo := if resultIndex <= |results| then resultIndex else |results|;
    var i := resultIndex;
    while i < |results|
      invariant lo <= |results|
      invariant resultIndex <= |results| ==> lo == resultIndex && resultIndex <= i <= |results|
      invariant resultIndex > |results| ==> i == resultIndex
      invariant final == finalSoFar + Finals(results[lo..if i <= |results| then i else |results|])
      invariant interim == Interims(results[lo..if i <= |results| then i else |results|])
      decreases |results| - i
    {
      assert results[lo..i + 1][..i - lo] == results[lo..i];
      var transcript := results[i].transcript;
      if results[i].isFinal {
        final := final + transcript + " ";
      } else {
        interim := interim + transcript;
      }
      i := i + 1;
    }
    assert resultIndex <= |results| ==> results[lo..|results|] == results[resultIndex..];
  }

  /** The final transcript of two batches of segments is that of the first followed by that of the second. */
  lemma {:induction false} FinalsAppend(a: seq<Segment>, b: seq<Segment>)
    ensures Finals(a + b) == Finals(a) + Finals(b)
    decreases |b|
  {
    if b == [] {
      assert a + b == a;
    } else {
      var b' := b[..|b| - 1];
      FinalsAppend(a, b');
      var last := b[|b| - 1];
      var tail := if last.isFinal then last.transcript + " " else "";
      assert (a + b)[..|a + b| - 1] == a + b';
      assert (a + b)[|a + b| - 1] == last;
      assert Finals(a + b) == Finals(a) + Finals(b') + tail;
    }
  }

  /** The interim text of two batches is that of the first followed by that of the second. */
  lemma {:induction false} InterimsAppend(a: seq<Segment>, b: seq<Segment>)
    ensures Interims(a + b) == Interims(a) + Interims(b)
    decreases |b|
  {
    if b == [] {
      assert a + b == a;
    } else {
      var b' := b[..|b| - 1];
      InterimsAppend(a, b');
      var last := b[|b| - 1];
      var tail := if last.isFinal then "" else last.transcript;
      assert (a + b)[..|a + b| - 1] == a + b';
      assert (a + b)[|a + b| - 1] == last;
      assert Interims(a + b) == Interims(a) + Interims(b') + tail;
    }
  }

  /** The segments of `segs` whose finality is `final`, in order. */
  function Selected(segs: seq<Segment>, final: bool): seq<Segment>
  {
    if segs == [] then []
    else
      var last := segs[|segs| - 1];
      Selected(segs[..|segs| - 1], final) + (if last.isFinal == final then [last] else [])
  }

  /** The transcripts of `segs`, in order, each followed by `sep`. */
  function Joined(segs: seq<Segment>, sep: string): string
  {
    if segs == [] then "" else Joined(segs[..|segs| - 1], sep) + segs[|segs| - 1].transcript + sep
  }

  /**
   * Every segment is taken once, by its finality: the final transcript is
   * the final segments' texts, each with a space, and the interim text is
   * the other segments' texts, both in index order; together the two
   * selections hold as many segments as were visited.
   */
  lemma {:induction false} SegmentsSplitByFinality(segs: seq<Segment>)
    ensures Finals(segs) == Joined(Selected(segs, true), " ")
    ensures Interims(segs) == Joined(Selected(segs, false), "")
    ensures |Selected(segs, true)| + |Selected(segs, false)| == |segs|
  {
    if segs != [] {
      var init := segs[..|segs| - 1];
      var last := segs[|segs| - 1];
      SegmentsSplitByFinality(init);
      var f := Selected(init, true);
      var n := Selected(init, false);
      if last.isFinal {
        assert Selected(segs, true) == f + [last] && (f + [last])[..|f|] == f;
        assert Selected(segs, false) == n + [] && n + [] == n;
      } else {
        assert Selected(segs, false) == n + [last] && (n + [last])[..|n|] == n;
        assert Selected(segs, true) == f + [] && f + [] == f;
      }
    }
  }

  /**
   * The two transcripts together are as long as the visited texts, plus
   * one space per final segment.
   */
  lemma {:induction false} TranscriptLengths(segs: seq<Segment>)
    ensures |Finals(segs)| + |Interims(segs)| == Length(segs) + FinalCount(segs)
  {
    if segs != [] {
      TranscriptLengths(segs[..|segs| - 1]);
    }
  }

  /** The total length of the transcripts of `segs`. */
  function Length(segs: seq<Segment>): nat
  {
    if segs == [] then 0 else Length(segs[..|segs| - 1]) + |segs[|segs| - 1].transcript|
  }

  /** The number of final segments of `segs`. */
  function FinalCount(segs: seq<Segment>): nat
  {
    if segs == [] then 0 else FinalCount(segs[..|segs| - 1]) + (if segs[|segs| - 1].isFinal then 1 else 0)
  }

  /** Interim results alone never change the final transcript. */
  lemma {:induction false} InterimOnlyKeepsFinal(segs: seq<Segment>)
    requires forall i :: 0 <= i < |segs| ==> !segs[i].isFinal
    ensures Finals(segs) == ""
    ensures FinalCount(segs) == 0
  {
    if segs != [] {
      InterimOnlyKeepsFinal(segs[..|segs| - 1]);
    }
  }
}
