/**
 * The session store: `handleReset` snapshots a finished interview into a
 * history that keeps the ten most recent sessions, newest first, and folds
 * it into lifetime counters that are never capped.
 */
module Sessions {

  import opened Common
  import opened Analysis
  import opened Conversation

  /** How many sessions the history keeps. */
  const Capacity: nat := 10

  /** A snapshot of one interview (its date is not modelled). */
  datatype Session = Session(
    id: int,
    role: string,
    messages: seq<Message>,
    totalQuestions: nat,
    averageConfidence: real,
    totalFillerWords: nat,
    duration: string)

  /**
   * The lifetime counters: sessions snapshotted, filler words in every answer
   * sent, and one confidence sample per snapshotted session (dates are not
   * modelled).
   */
  datatype Aggregate = Aggregate(totalSessions: nat, totalFillerWords: nat, improvementTrend: seq<real>)

  /** The counters before anything has happened. */
  function InitialAggregate(): Aggregate
  {
    Aggregate(0, 0, [])
  }

  // ---------------------------------------------------------------------
  // calculateAverageConfidence
  // ---------------------------------------------------------------------

  /** The confidence scores of the user messages that carry analytics, in order. */
  function Scores(ms: seq<Message>): (r: seq<real>)
    ensures |r| <= |ms|
  {
    if ms == [] then []
    else
      (if ms[0].speaker == User && ms[0].analytics.Some? then [ms[0].analytics.value.confidenceScore] else [])
      + Scores(ms[1..])
  }

  function Sum(xs: seq<real>): real
  {
    if xs == [] then 0.0 else xs[0] + Sum(xs[1..])
  }

  /** The mean of `xs`, or 0 when there is nothing to average. */
  function Mean(xs: seq<real>): real
  {
    if xs == [] then 0.0 else Sum(xs) / |xs| as real
  }

  /** `calculateAverageConfidence()` over a transcript (before the one-decimal rounding). */
  function AverageConfidence(ms: seq<Message>): real
  {
    Mean(Scores(ms))
  }

  /** Every analysed message of the transcript has a score within [0, 100]. */
  predicate ScoresInRange(ms: seq<Message>)
  {
    forall i :: 0 <= i < |ms| && ms[i].analytics.Some? ==> 0.0 <= ms[i].analytics.value.confidenceScore <= 100.0
  }

  /** Appending a message whose score, if any, is in range keeps every score in range. */
  lemma AnswerKeepsScoresInRange(ms: seq<Message>, m: Message)
    requires ScoresInRange(ms)
    requires m.analytics.Some? ==> 0.0 <= m.analytics.value.confidenceScore <= 100.0
    ensures ScoresInRange(ms + [m])
  {
    var r := ms + [m];
    forall i | 0 <= i < |r| && r[i].analytics.Some? ensures 0.0 <= r[i].analytics.value.confidenceScore <= 100.0 {
      if i < |ms| { assert r[i] == ms[i]; }
    }
  }

  lemma {:induction false} SumBounds(xs: seq<real>, lo: real, hi: real)
    requires forall i :: 0 <= i < |xs| ==> lo <= xs[i] <= hi
    ensures lo * |xs| as real <= Sum(xs) <= hi * |xs| as real
  {
    if xs != [] {
      SumBounds(xs[1..], lo, hi);
    }
  }

  /** A mean lies between the least and the greatest value averaged. */
  lemma MeanBounds(xs: seq<real>, lo: real, hi: real)
    requires xs != []
    requires forall i :: 0 <= i < |xs| ==> lo <= xs[i] <= hi
    ensures lo <= Mean(xs) <= hi
  {
    SumBounds(xs, lo, hi);
    var n := |xs| as real;
    assert Mean(xs) * n == Sum(xs);
  }

  lemma {:induction false} ScoresFromRange(ms: seq<Message>)
    requires ScoresInRange(ms)
    ensures forall i :: 0 <= i < |Scores(ms)| ==> 0.0 <= Scores(ms)[i] <= 100.0
  {
    if ms != [] {
      ScoresFromRange(ms[1..]);
    }
  }

  /** The average confidence of a transcript whose scores come from `Analyze` lies in [0, 100]. */
  lemma AverageConfidenceInRange(ms: seq<Message>)
    requires ScoresInRange(ms)
    ensures 0.0 <= AverageConfidence(ms) <= 100.0
  {
    ScoresFromRange(ms);
    if Scores(ms) != [] {
      MeanBounds(Scores(ms), 0.0, 100.0);
    }
  }

  /** A transcript in which no message is analysed averages to 0. */
  lemma {:induction false} NoAnswersAverageZero(ms: seq<Message>)
    requires forall i :: 0 <= i < |ms| ==> ms[i].speaker != User || ms[i].analytics.None?
    ensures Scores(ms) == [] && AverageConfidence(ms) == 0.0
  {
    if ms != [] {
      NoAnswersAverageZero(ms[1..]);
      assert Scores(ms) == [] + Scores(ms[1..]);
    }
  }

  // ---------------------------------------------------------------------
  // The bounded history
  // ---------------------------------------------------------------------

  /** `[session, ...prev].slice(0, 10)`. */
  function PushSession(history: seq<Session>, s: Session): (r: seq<Session>)
    ensures |r| == Min(|history| + 1, Capacity)
    ensures r[0] == s
    ensures forall i :: 1 <= i < |r| ==> r[i] == history[i - 1]
  {
    ([s] + history)[..Min(|history| + 1, Capacity)]
  }

  /** The sessions pushed one after the other, oldest first. */
  function PushAll(history: seq<Session>, ss: seq<Session>): seq<Session>
    decreases |ss|
  {
    if ss == [] then history else PushAll(PushSession(history, ss[0]), ss[1..])
  }

  function Reverse<T>(xs: seq<T>): (r: seq<T>)
    ensures |r| == |xs|
  {
    if xs == [] then [] else Reverse(xs[1..]) + [xs[0]]
  }

  /**
   * After any series of snapshots the history holds the most recent ones,
   * newest first, followed by what it held before, cut to ten entries.
   */
  lemma {:induction false} PushAllKeepsNewest(history: seq<Session>, ss: seq<Session>)
    requires |history| <= Capacity
    ensures PushAll(history, ss) == (Reverse(ss) + history)[..Min(|ss| + |history|, Capacity)]
    decreases |ss|
  {
    if ss == [] {
      assert (Reverse(ss) + history)[..|history|] == history;
    } else {
      var h' := PushSession(history, ss[0]);
      PushAllKeepsNewest(h', ss[1..]);
      var n := Min(|ss| + |history|, Capacity);
      var left := (Reverse(ss[1..]) + h')[..Min(|ss| - 1 + |h'|, Capacity)];
      var right := (Reverse(ss) + history)[..n];
      assert Reverse(ss) + history == Reverse(ss[1..]) + ([ss[0]] + history);
      assert |left| == n;
      forall j | 0 <= j < n ensures left[j] == right[j] {
        var k := |Reverse(ss[1..])|;
        if j >= k {
          assert left[j] == h'[j - k];
          assert right[j] == ([ss[0]] + history)[j - k];
        }
      }
    }
  }

  /**
   * Eleven snapshots from an empty history leave ten sessions, newest first:
   * the first snapshot is the one evicted.
   */
  lemma ElevenSnapshots(ss: seq<Session>)
    requires |ss| == 11
    ensures |PushAll([], ss)| == Capacity
    ensures forall i :: 0 <= i < Capacity ==> PushAll([], ss)[i] == ss[10 - i]
  {
    PushAllKeepsNewest([], ss);
    ReverseAt(ss);
    assert Reverse(ss) + [] == Reverse(ss);
  }

  lemma {:induction false} ReverseAt<T>(xs: seq<T>)
    ensures forall i :: 0 <= i < |xs| ==> Reverse(xs)[i] == xs[|xs| - 1 - i]
  {
    if xs != [] {
      ReverseAt(xs[1..]);
    }
  }

  // ---------------------------------------------------------------------
  // The snapshot
  // ---------------------------------------------------------------------

  /** The session `handleReset` builds from the live state. */
  function Snapshot(id: int, role: string, ms: seq<Message>, questionCount: nat, totalFillerWords: nat): Session
  {
    Session(
      id, role, ms,
      questionCount / 2,
      AverageConfidence(ms),
      totalFillerWords,
      if |ms| > 0 then "Completed" else "In Progress")
  }

  /** The counters after a snapshot whose average confidence is `score`. */
  function Record(a: Aggregate, score: real): (r: Aggregate)
    ensures r.totalSessions == a.totalSessions + 1
    ensures r.totalFillerWords == a.totalFillerWords
    ensures r.improvementTrend == a.improvementTrend + [score]
  {
    Aggregate(a.totalSessions + 1, a.totalFillerWords, a.improvementTrend + [score])
  }

  /**
   * The history fills to ten entries and then stays there, while the
   * session counter keeps growing: after a snapshot the history length is
   * still the smaller of the counter and ten.
   */
  lemma HistoryTracksCounter(history: seq<Session>, a: Aggregate, s: Session)
    requires |history| == Min(a.totalSessions, Capacity)
    ensures |PushSession(history, s)| == Min(Record(a, s.averageConfidence).totalSessions, Capacity)
  {
  }
}
