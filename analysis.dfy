/**
 * Answer analysis: the filler-word count, the word count and the confidence
 * score that `handleSend` attaches to every user message.
 *
 * Characters follow ECMAScript: `\s` and `String.prototype.trim` use the
 * WhiteSpace and LineTerminator code points, `\b` uses the ASCII word
 * characters `[A-Za-z0-9_]`, and the `i` flag of a non-Unicode regular
 * expression folds only ASCII letters onto ASCII letters.
 */
module Analysis {

  import opened Common

  // ---------------------------------------------------------------------
  // Character classes
  // ---------------------------------------------------------------------

  /** The code points matched by `\s` and removed by `trim`. */
  predicate IsSpace(c: char)
  {
    var n := c as int;
    (0x09 <= n <= 0x0D) || n == 0x20 || n == 0xA0 || n == 0x1680
    || (0x2000 <= n <= 0x200A) || n == 0x2028 || n == 0x2029
    || n == 0x202F || n == 0x205F || n == 0x3000 || n == 0xFEFF
  }

  /** The characters `\w` matches, which decide where `\b` holds. */
  predicate IsWordChar(c: char)
  {
    ('a' <= c <= 'z') || ('A' <= c <= 'Z') || ('0' <= c <= '9') || c == '_'
  }

  /** Case folding as the `i` flag applies it to the ASCII vocabulary. */
  function Fold(c: char): (f: char)
    ensures IsWordChar(f) <==> IsWordChar(c)
    ensures 'A' <= c <= 'Z' ==> 'a' <= f <= 'z'
  {
    if 'A' <= c <= 'Z' then (c as int + 32) as char else c
  }

  // ---------------------------------------------------------------------
  // trim
  // ---------------------------------------------------------------------

  /** The end of the run of whitespace that starts at `i`. */
  function SpaceRunEnd(s: string, i: nat): (j: nat)
    requires i <= |s|
    ensures i <= j <= |s|
    ensures forall k :: i <= k < j ==> IsSpace(s[k])
    ensures j < |s| ==> !IsSpace(s[j])
    decreases |s| - i
  {
    if i < |s| && IsSpace(s[i]) then SpaceRunEnd(s, i + 1) else i
  }

  /** The start of the run of whitespace that ends at `j`, looking no further left than `lo`. */
  function SpaceRunStart(s: string, lo: nat, j: nat): (i: nat)
    requires lo <= j <= |s|
    ensures lo <= i <= j
    ensures forall k :: i <= k < j ==> IsSpace(s[k])
    ensures lo < i ==> !IsSpace(s[i - 1])
    decreases j - lo
  {
    if lo < j && IsSpace(s[j - 1]) then SpaceRunStart(s, lo, j - 1) else j
  }

  /** A string with no whitespace at either end. */
  predicate IsTrimmed(s: string)
  {
    s == [] || (!IsSpace(s[0]) && !IsSpace(s[|s| - 1]))
  }

  /** `r` is `s` with `k` whitespace characters cut from the front and only whitespace cut from the back. */
  predicate Cut(s: string, r: string, k: int)
  {
    0 <= k && k + |r| <= |s| && r == s[k..k + |r|]
    && (forall i :: 0 <= i < k ==> IsSpace(s[i]))
    && (forall i :: k + |r| <= i < |s| ==> IsSpace(s[i]))
  }

  /** `s.trim()`. */
  function Trim(s: string): string
  {
    var a := SpaceRunEnd(s, 0);
    s[a..SpaceRunStart(s, a, |s|)]
  }

  /**
   * `trim` returns the infix of `s` with no whitespace at either end such
   * that everything cut away is whitespace; it is empty exactly when `s` is
   * whitespace only, which is the send guard's test.
   */
  lemma TrimSpec(s: string)
    ensures IsTrimmed(Trim(s))
    ensures Cut(s, Trim(s), SpaceRunEnd(s, 0))
    ensures Trim(s) == [] <==> forall i :: 0 <= i < |s| ==> IsSpace(s[i])
  {
    TrimEnds(s);
    TrimCut(s);
    TrimEmpty(s);
  }

  lemma TrimEnds(s: string)
    ensures IsTrimmed(Trim(s))
  {
    var a := SpaceRunEnd(s, 0);
    var b := SpaceRunStart(s, a, |s|);
    if a < b {
      var r := s[a..b];
      assert r[0] == s[a] && r[|r| - 1] == s[b - 1];
    }
  }

  lemma TrimCut(s: string)
    ensures Cut(s, Trim(s), SpaceRunEnd(s, 0))
  {
    var a := SpaceRunEnd(s, 0);
    var b := SpaceRunStart(s, a, |s|);
    assert |Trim(s)| == b - a;
  }

  lemma TrimEmpty(s: string)
    ensures Trim(s) == [] <==> forall i :: 0 <= i < |s| ==> IsSpace(s[i])
  {
    var a := SpaceRunEnd(s, 0);
    var b := SpaceRunStart(s, a, |s|);
    if a == b {
      assert a == |s|;
    } else {
      assert !IsSpace(s[a]);
      assert s[a..b] != [];
    }
  }

  // ---------------------------------------------------------------------
  // split(/\s+/) and the word count
  // ---------------------------------------------------------------------

  /**
   * `s.split(/\s+/)`: the pieces between maximal runs of whitespace. A
   * leading run yields an empty first piece and a trailing run an empty
   * last piece; the empty string yields one empty piece.
   */
  function Split(s: string): (r: seq<string>)
    ensures |r| >= 1
    decreases |s|
  {
    if s == [] then [""]
    else if IsSpace(s[0]) then [""] + Split(s[SpaceRunEnd(s, 0)..])
    else
      var rest := Split(s[1..]);
      [[s[0]] + rest[0]] + rest[1..]
  }

  /** `userMessage.split(/\s+/).length`. */
  function WordCount(s: string): (n: nat)
    ensures n >= 1
  {
    |Split(s)|
  }

  /** `s` without its whitespace characters. */
  function NonSpace(s: string): string
  {
    if s == [] then "" else (if IsSpace(s[0]) then "" else [s[0]]) + NonSpace(s[1..])
  }

  function Concat(ps: seq<string>): string
  {
    if ps == [] then "" else ps[0] + Concat(ps[1..])
  }

  lemma NonSpaceOfSpaces(s: string, k: nat)
    requires k <= |s|
    requires forall i :: 0 <= i < k ==> IsSpace(s[i])
    ensures NonSpace(s) == NonSpace(s[k..])
  {
    if k > 0 {
      NonSpaceOfSpaces(s[1..], k - 1);
      assert s[1..][k - 1..] == s[k..];
    }
  }

  /** No piece of `Split(s)` holds whitespace. */
  lemma {:induction false} SplitPiecesHaveNoSpace(s: string)
    ensures forall k, j :: 0 <= k < |Split(s)| && 0 <= j < |Split(s)[k]| ==> !IsSpace(Split(s)[k][j])
    decreases |s|
  {
    if s == [] {
    } else if IsSpace(s[0]) {
      var t := s[SpaceRunEnd(s, 0)..];
      SplitPiecesHaveNoSpace(t);
      assert Split(s) == [""] + Split(t);
    } else {
      var rest := Split(s[1..]);
      SplitPiecesHaveNoSpace(s[1..]);
      var r := Split(s);
      assert r == [[s[0]] + rest[0]] + rest[1..];
      forall k, j | 0 <= k < |r| && 0 <= j < |r[k]|
        ensures !IsSpace(r[k][j])
      {
        if k == 0 {
          if j > 0 { assert r[0][j] == rest[0][j - 1]; }
        } else {
          assert r[k] == rest[k];
        }
      }
    }
  }

  /** The pieces of `Split(s)`, put together, are the non-whitespace characters of `s` in order. */
  lemma {:induction false} SplitKeepsWords(s: string)
    ensures Concat(Split(s)) == NonSpace(s)
    decreases |s|
  {
    if s == [] {
    } else if IsSpace(s[0]) {
      var t := s[SpaceRunEnd(s, 0)..];
      SplitKeepsWords(t);
      NonSpaceOfSpaces(s, SpaceRunEnd(s, 0));
      ConcatCons("", Split(t));
    } else {
      var rest := Split(s[1..]);
      SplitKeepsWords(s[1..]);
      ConcatCons(rest[0], rest[1..]);
      ConcatCons([s[0]] + rest[0], rest[1..]);
    }
  }

  lemma ConcatCons(p: string, ps: seq<string>)
    ensures Concat([p] + ps) == p + Concat(ps)
  {
    assert ([p] + ps)[1..] == ps;
  }

  /**
   * A piece of `r` is empty only at the very front, when `s` is empty or
   * starts with whitespace, or at the very end, when `s` ends with
   * whitespace.
   */
  predicate EmptyOnlyAtEnds(s: string, r: seq<string>)
  {
    forall k :: 0 <= k < |r| && r[k] == [] ==>
      (k == 0 && (s == [] || IsSpace(s[0])))
      || (k == |r| - 1 && s != [] && IsSpace(s[|s| - 1]))
  }

  /** The pieces of `Split(s)` are empty only at its ends, as `EmptyOnlyAtEnds` says. */
  lemma {:induction false} SplitEmptyPieces(s: string)
    ensures EmptyOnlyAtEnds(s, Split(s))
    decreases |s|
  {
    if s == [] {
    } else if IsSpace(s[0]) {
      var t := s[SpaceRunEnd(s, 0)..];
      SplitEmptyPieces(t);
      EmptyPiecesAfterSpace(s, t, Split(t));
    } else {
      SplitEmptyPieces(s[1..]);
      EmptyPiecesAfterChar(s, Split(s[1..]));
    }
  }

  lemma EmptyPiecesAfterSpace(s: string, t: string, rest: seq<string>)
    requires s != [] && IsSpace(s[0])
    requires t == s[SpaceRunEnd(s, 0)..] && rest == Split(t)
    requires EmptyOnlyAtEnds(t, rest)
    ensures EmptyOnlyAtEnds(s, Split(s))
  {
    var r := Split(s);
    assert r == [""] + rest;
    forall k | 0 < k < |r| && r[k] == []
      ensures k == |r| - 1 && IsSpace(s[|s| - 1])
    {
      assert rest[k - 1] == [];
      if t != [] {
        assert t[|t| - 1] == s[|s| - 1];
      }
    }
  }

  lemma EmptyPiecesAfterChar(s: string, rest: seq<string>)
    requires s != [] && !IsSpace(s[0])
    requires rest == Split(s[1..])
    requires EmptyOnlyAtEnds(s[1..], rest)
    ensures EmptyOnlyAtEnds(s, Split(s))
  {
    var u := s[1..];
    var r := Split(s);
    assert r == [[s[0]] + rest[0]] + rest[1..];
    forall k | 0 < k < |r| && r[k] == []
      ensures k == |r| - 1 && IsSpace(s[|s| - 1])
    {
      assert rest[k] == [];
      assert u != [] && u[|u| - 1] == s[|s| - 1];
    }
  }

  /**
   * For trimmed, non-empty text (what `handleSend` passes) every piece is a
   * non-empty word.
   */
  lemma TrimmedSplitIsWords(s: string)
    requires IsTrimmed(s) && s != []
    ensures forall k :: 0 <= k < |Split(s)| ==> Split(s)[k] != []
  {
    SplitEmptyPieces(s);
  }

  /** A word of `s` starts at `i`: a non-whitespace character at the front or right after whitespace. */
  predicate IsWordStart(s: string, i: int)
  {
    0 <= i < |s| && !IsSpace(s[i]) && (i == 0 || IsSpace(s[i - 1]))
  }

  /** The number of positions from `p` on at which a word of `s` starts. */
  function WordStarts(s: string, p: nat): nat
    decreases |s| - p
  {
    if p >= |s| then 0 else (if IsWordStart(s, p) then 1 else 0) + WordStarts(s, p + 1)
  }

  /** The empty piece `split` puts in front: for the empty string, or a leading whitespace run. */
  function LeadingPiece(s: string): nat
  {
    if s == [] || IsSpace(s[0]) then 1 else 0
  }

  /** The empty piece `split` puts at the end, after a trailing whitespace run. */
  function TrailingPiece(s: string): nat
  {
    if s != [] && IsSpace(s[|s| - 1]) then 1 else 0
  }

  lemma {:induction false} WordStartsSkip(s: string, p: nat, q: nat)
    requires p <= q <= |s|
    requires forall i :: p <= i < q ==> IsSpace(s[i])
    ensures WordStarts(s, p) == WordStarts(s, q)
    decreases q - p
  {
    if p < q {
      WordStartsSkip(s, p + 1, q);
    }
  }

  lemma {:induction false} WordStartsSuffix(s: string, k: nat, p: nat)
    requires k < p && k <= |s|
    ensures WordStarts(s, p) == WordStarts(s[k..], p - k)
    decreases |s| - p
  {
    if p < |s| {
      assert s[k..][p - k] == s[p] && s[k..][p - k - 1] == s[p - 1];
      WordStartsSuffix(s, k, p + 1);
    }
  }

  /**
   * `split(/\s+/)` yields one piece per word of `s`, plus an empty piece in
   * front when `s` is empty or starts with whitespace and one at the end
   * when it ends with whitespace.
   */
  lemma {:induction false} SplitCountsWords(s: string)
    ensures |Split(s)| == WordStarts(s, 0) + LeadingPiece(s) + TrailingPiece(s)
    decreases |s|
  {
    if s == [] {
    } else if IsSpace(s[0]) {
      var t := s[SpaceRunEnd(s, 0)..];
      SplitCountsWords(t);
      CountAfterSpace(s, t);
    } else {
      SplitCountsWords(s[1..]);
      CountAfterChar(s);
    }
  }

  lemma CountAfterSpace(s: string, t: string)
    requires s != [] && IsSpace(s[0]) && t == s[SpaceRunEnd(s, 0)..]
    requires |Split(t)| == WordStarts(t, 0) + LeadingPiece(t) + TrailingPiece(t)
    ensures |Split(s)| == WordStarts(s, 0) + LeadingPiece(s) + TrailingPiece(s)
  {
    var e := SpaceRunEnd(s, 0);
    WordStartsSkip(s, 0, e);
    assert |Split(s)| == 1 + |Split(t)|;
    if e < |s| {
      WordStartsSuffix(s, e, e + 1);
      assert IsWordStart(s, e) && IsWordStart(t, 0);
      assert t[|t| - 1] == s[|s| - 1];
    }
  }

  lemma CountAfterChar(s: string)
    requires s != [] && !IsSpace(s[0])
    requires |Split(s[1..])| == WordStarts(s[1..], 0) + LeadingPiece(s[1..]) + TrailingPiece(s[1..])
    ensures |Split(s)| == WordStarts(s, 0) + LeadingPiece(s) + TrailingPiece(s)
  {
    var u := s[1..];
    assert |Split(s)| == |Split(u)|;
    if u != [] {
      WordStartsSuffix(s, 1, 2);
      assert u[0] == s[1] && u[|u| - 1] == s[|s| - 1];
      assert !IsWordStart(s, 1);
    }
  }

  /** The word count of a trimmed, non-empty answer is its number of words. */
  lemma WordCountIsWords(s: string)
    requires IsTrimmed(s) && s != []
    ensures WordCount(s) == WordStarts(s, 0)
  {
    SplitCountsWords(s);
  }

  // ---------------------------------------------------------------------
  // Filler words
  // ---------------------------------------------------------------------

  /** The filler vocabulary, in the order the `reduce` visits it. */
  const Vocabulary: seq<string> := ["um", "uh", "like", "you know", "actually", "basically", "literally"]

  /** `s[j]` exists and is a word character. */
  predicate WordAt(s: string, j: int)
  {
    0 <= j < |s| && IsWordChar(s[j])
  }

  /** `\b` holds at position `p` of `s` (between `s[p-1]` and `s[p]`). */
  predicate IsBoundary(s: string, p: int)
  {
    WordAt(s, p - 1) != WordAt(s, p)
  }

  /** `a` and `b` are equal up to ASCII case. */
  predicate FoldEq(a: string, b: string)
  {
    |a| == |b| && forall i :: 0 <= i < |a| ==> Fold(a[i]) == Fold(b[i])
  }

  /** The regular expression `\b<w>\b` with flag `i` matches `s` at position `i`. */
  predicate MatchAt(s: string, w: string, i: int)
  {
    0 <= i && i + |w| <= |s|
    && IsBoundary(s, i) && FoldEq(s[i..i + |w|], w) && IsBoundary(s, i + |w|)
  }

  /**
   * The number of matches `s.match(regex)` finds with flag `g`, scanning
   * from position `p`: after a match the search resumes at its end,
   * otherwise one position further on.
   */
  function CountFrom(s: string, w: string, p: nat): nat
    requires |w| > 0
    decreases |s| - p
  {
    if p + |w| > |s| then 0
    else if MatchAt(s, w, p) then 1 + CountFrom(s, w, p + |w|)
    else CountFrom(s, w, p + 1)
  }

  /** `(userMessage.match(new RegExp('\\b' + w + '\\b', 'gi')) || []).length`. */
  function CountMatches(s: string, w: string): nat
    requires |w| > 0
  {
    CountFrom(s, w, 0)
  }

  /**
   * `ws.reduce((count, word) => count + CountMatches(s, word), acc)`: the
   * words are visited from first to last.
   */
  function Reduce(s: string, ws: seq<string>, acc: nat): nat
    requires forall k :: 0 <= k < |ws| ==> |ws[k]| > 0
  {
    if ws == [] then acc else Reduce(s, ws[1..], acc + CountMatches(s, ws[0]))
  }

  /** `fillerCount` of `handleSend`. */
  function FillerCount(s: string): nat
  {
    Reduce(s, Vocabulary, 0)
  }

  /**
   * The number of positions from `p` on at which `w` stands in `s` as a whole
   * word, every position considered on its own.
   */
  function Occurrences(s: string, w: string, p: nat): nat
    decreases |s| - p
  {
    if p + |w| > |s| then 0
    else (if MatchAt(s, w, p) then 1 else 0) + Occurrences(s, w, p + 1)
  }

  /** The number of whole-word occurrences of each word of `ws` in `s`, summed. */
  function TotalOccurrences(s: string, ws: seq<string>): nat
  {
    if ws == [] then 0 else Occurrences(s, ws[0], 0) + TotalOccurrences(s, ws[1..])
  }

  /**
   * A pattern whose whole-word matches can never overlap: it starts and ends
   * with a word character, and wherever a later character could start a
   * second copy of it, the character before is a word character, after
   * which no boundary can stand.
   */
  predicate Unoverlappable(w: string)
  {
    |w| > 0 && IsWordChar(w[0]) && IsWordChar(w[|w| - 1])
    && forall k :: 0 < k < |w| ==> IsWordChar(w[k - 1]) || Fold(w[k]) != Fold(w[0])
  }

  lemma VocabularyUnoverlappable()
    ensures forall k :: 0 <= k < |Vocabulary| ==> Unoverlappable(Vocabulary[k])
  {
    var yk := "you know";
    forall k | 0 < k < |yk| ensures IsWordChar(yk[k - 1]) || Fold(yk[k]) != Fold(yk[0]) {
      if k == 4 { assert yk[4] == 'k'; } else { assert IsWordChar(yk[k - 1]); }
    }
  }

  /** Two whole-word matches of an unoverlappable pattern are at least `|w|` apart. */
  lemma NoOverlap(s: string, w: string, i: int, k: int)
    requires Unoverlappable(w) && MatchAt(s, w, i) && 0 < k < |w|
    ensures !MatchAt(s, w, i + k)
  {
    assert s[i..i + |w|][k] == s[i + k];
    assert s[i..i + |w|][k - 1] == s[i + k - 1];
    if IsWordChar(w[k - 1]) {
      assert WordAt(s, i + k - 1);
      assert Fold(s[i + k]) == Fold(w[k]);
      assert WordAt(s, i + k) || !IsBoundary(s, i + k) || Fold(s[i + k]) != Fold(w[0]);
    } else {
      assert Fold(s[i + k]) == Fold(w[k]) != Fold(w[0]);
    }
  }

  /** Positions at which `w` does not match add nothing to the count. */
  lemma {:induction false} OccurrencesSkip(s: string, w: string, p: nat, q: nat)
    requires p <= q
    requires forall i :: p <= i < q ==> !MatchAt(s, w, i)
    ensures Occurrences(s, w, p) == Occurrences(s, w, q)
    decreases q - p
  {
    if p < q {
      OccurrencesSkip(s, w, p + 1, q);
    }
  }

  /**
   * The left-to-right scan counts every whole-word occurrence: matching
   * without overlap finds as many matches as there are positions where the
   * pattern stands alone.
   */
  lemma {:induction false} ScanCountsOccurrences(s: string, w: string, p: nat)
    requires Unoverlappable(w)
    ensures CountFrom(s, w, p) == Occurrences(s, w, p)
    decreases |s| - p
  {
    if p + |w| > |s| {
    } else if MatchAt(s, w, p) {
      ScanCountsOccurrences(s, w, p + |w|);
      forall i | p + 1 <= i < p + |w| ensures !MatchAt(s, w, i) {
        NoOverlap(s, w, p, i - p);
      }
      OccurrencesSkip(s, w, p + 1, p + |w|);
    } else {
      ScanCountsOccurrences(s, w, p + 1);
    }
  }

  /** The reduce adds up the whole-word occurrences of every word it visits. */
  lemma {:induction false} ReduceCountsOccurrences(s: string, ws: seq<string>, acc: nat)
    requires forall k :: 0 <= k < |ws| ==> |ws[k]| > 0 && Unoverlappable(ws[k])
    ensures Reduce(s, ws, acc) == acc + TotalOccurrences(s, ws)
  {
    if ws != [] {
      ScanCountsOccurrences(s, ws[0], 0);
      ReduceCountsOccurrences(s, ws[1..], acc + CountMatches(s, ws[0]));
    }
  }

  /**
   * The filler count is the number of case-insensitive, whole-word
   * occurrences of the seven vocabulary entries, summed.
   */
  lemma FillerCountIsOccurrences(s: string)
    ensures FillerCount(s) == TotalOccurrences(s, Vocabulary)
  {
    VocabularyUnoverlappable();
    ReduceCountsOccurrences(s, Vocabulary, 0);
  }

  /**
   * In a single token of word characters a pattern is counted only when the
   * whole token equals it up to case: "likely" and "umbrella" count no
   * filler, "Like" counts one.
   */
  lemma TokenCount(t: string, w: string)
    requires Unoverlappable(w)
    requires forall j :: 0 <= j < |t| ==> IsWordChar(t[j])
    ensures CountMatches(t, w) == if FoldEq(t, w) then 1 else 0
  {
    ScanCountsOccurrences(t, w, 0);
    if |w| <= |t| {
      forall i | 1 <= i < |t| ensures !MatchAt(t, w, i) {
        assert WordAt(t, i - 1) && WordAt(t, i);
      }
      OccurrencesSkip(t, w, 1, |t|);
      if |t| > |w| {
        assert WordAt(t, |w| - 1) && WordAt(t, |w|);
        assert !MatchAt(t, w, 0);
      }
      assert t[0..|t|] == t;
    }
  }

  /** A one-word text that is no vocabulary entry (up to case) has no fillers. */
  lemma NoFillerInToken(t: string)
    requires forall j :: 0 <= j < |t| ==> IsWordChar(t[j])
    requires forall k :: 0 <= k < |Vocabulary| ==> !FoldEq(t, Vocabulary[k])
    ensures FillerCount(t) == 0
  {
    VocabularyUnoverlappable();
    FillerCountIsOccurrences(t);
    forall k | 0 <= k < |Vocabulary| ensures CountMatches(t, Vocabulary[k]) == 0 {
      TokenCount(t, Vocabulary[k]);
    }
    ReduceCountsOccurrences(t, Vocabulary, 0);
    ReduceOfZeros(t, Vocabulary, 0);
  }

  lemma {:induction false} ReduceOfZeros(s: string, ws: seq<string>, acc: nat)
    requires forall k :: 0 <= k < |ws| ==> |ws[k]| > 0 && CountMatches(s, ws[k]) == 0
    ensures Reduce(s, ws, acc) == acc
  {
    if ws != [] { ReduceOfZeros(s, ws[1..], acc); }
  }

  // ---------------------------------------------------------------------
  // Confidence
  // ---------------------------------------------------------------------

  /**
   * `Math.max(0, Math.min(100, 100 - (fillerCount / wordCount * 100)))` in
   * exact arithmetic. The word count is never 0 (see `WordCount`).
   */
  function ConfidenceScore(fillers: nat, words: nat): (r: real)
    requires words >= 1
    ensures 0.0 <= r <= 100.0
    ensures r == 100.0 <==> fillers == 0
    ensures r == 0.0 <==> fillers >= words
    ensures fillers < words ==> r == 100.0 * (words - fillers) as real / words as real
  {
    var ratio := fillers as real / words as real;
    assert ratio * words as real == fillers as real;
    assert fillers >= words <==> ratio >= 1.0;
    assert ratio == 0.0 <==> fillers == 0;
    MaxReal(0.0, MinReal(100.0, 100.0 - ratio * 100.0))
  }

  /** The analytics record attached to a user message. */
  datatype Analytics = Analytics(fillerCount: nat, wordCount: nat, confidenceScore: real, responseTime: nat)

  /**
   * The analysis of a (trimmed) user answer given the elapsed recording
   * time `recordingTime || 0`.
   */
  function Analyze(text: string, responseTime: nat): (a: Analytics)
    ensures a.wordCount >= 1 && 0.0 <= a.confidenceScore <= 100.0
  {
    var f := FillerCount(text);
    var n := WordCount(text);
    Analytics(f, n, ConfidenceScore(f, n), responseTime)
  }
}
