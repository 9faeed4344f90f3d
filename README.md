# Interview coach: a verified model of its state logic

The interview coach is a single React component (`src/App.jsx`). It runs a
mock interview against a chat service, scores every answer, transcribes
spoken answers live, and keeps a bounded history of finished interviews.
This project models the deterministic layer under the rendering and the
browser glue, and proves what that layer promises.

- `common.dfy`: `Option` and the `min`/`max` helpers.
- `analysis.dfy`: the answer analysis of `handleSend`.
  - `trim`, and `split(/\s+/)` with the word count built on it.
  - The filler count, written exactly as the `reduce` over the seven
    `\b<word>\b` regular expressions with flags `gi` runs it: a
    left-to-right scan that resumes after each match.
  - The clamped confidence score, in exact `real` arithmetic.
- `conversation.dfy`: the transcript entries, the turn list sent with every
  request, and the assistant text taken from the reply's content blocks.
- `transcription.dfy`: the `recognition.onresult` loop, as a method with
  loop invariants, and the functions that specify it.
- `sessions.dfy`: `calculateAverageConfidence`, the ten-entry session
  history, and the lifetime counters.
- `coach.dfy`: the class `InterviewCoach`.
  - The component's state variables are its fields, and every event handler
    is one method over them.
  - `Valid()` is the invariant every handler keeps.

## Semantics

- Each handler is one atomic transition. It reads the state as it stood
  when the handler started, as the handler's closure does. For example, the
  request's turn list is built from the transcript before the answer is
  appended.
- JavaScript's character classes are modelled exactly:
  - `\s` and `trim` use the ECMAScript WhiteSpace and LineTerminator code
    points.
  - `\b` is the boundary between an ASCII word character `[A-Za-z0-9_]` and
    anything else.
  - The `i` flag of a non-Unicode expression folds only ASCII letters onto
    the ASCII vocabulary.
- The awaited request is a parameter `Outcome`: either `Reply(blocks)` or
  `Failure`. Every failure path ends in the same `catch`.
- `Date.now()` is a parameter `now`, and the elapsed-time tick is a method
  that is given the seconds elapsed.
- Where the code and its documentation disagree, the model follows the code:
  - `split(/\s+/)` always yields at least one piece, even on the empty
    string, so the confidence division never sees a word count of 0. A
    "no words gives 100" case does not exist in the code.
  - `startRecording` has no guard against starting twice; only the page
    hides its button (`src/App.jsx:616-618`).
  - The transcript only ever holds the roles `assistant` and `user`. The
    mapping `role === 'assistant' ? 'assistant' : 'user'` is therefore the
    identity on the two-valued `Speaker`.
  - The transcription loop mutates two variables captured by the handler.
    The model's `ScanResults` returns their new values, and the class stores
    them.

## Model

| member | source | states |
|---|---|---|
| Analysis.Fold | src/App.jsx:45 | the `i` flag maps A-Z onto a-z and keeps every character's word-character class |
| Analysis.TrimSpec | src/App.jsx:37-39 | `trim` keeps an infix with no whitespace at either end and cuts only whitespace; it is empty exactly when the input is all whitespace (the send guard) |
| Analysis.TrimEnds | src/App.jsx:39 | the trimmed text starts and ends with a non-whitespace character |
| Analysis.TrimCut | src/App.jsx:39 | the trimmed text is the input with whitespace-only runs removed from the front and the back |
| Analysis.TrimEmpty | src/App.jsx:37 | the trimmed text is empty if and only if every character is whitespace |
| Analysis.Split | src/App.jsx:49 | `split(/\s+/)` always yields at least one piece |
| Analysis.WordCount | src/App.jsx:49-50 | the word count is at least 1, so the confidence division is always defined |
| Analysis.SplitPiecesHaveNoSpace | src/App.jsx:49 | no piece of the split holds whitespace |
| Analysis.SplitKeepsWords | src/App.jsx:49 | the pieces, put back together, are exactly the input's non-whitespace characters in order |
| Analysis.SplitEmptyPieces | src/App.jsx:49 | a piece is empty only first (empty input, or leading whitespace) or last (trailing whitespace) |
| Analysis.EmptyPiecesAfterSpace | src/App.jsx:49 | when the text starts with whitespace and the pieces after that run are empty only at their ends, so are the text's pieces |
| Analysis.EmptyPiecesAfterChar | src/App.jsx:49 | when the text starts with a non-whitespace character and the pieces of the rest are empty only at their ends, so are the text's pieces |
| Analysis.SplitCountsWords | src/App.jsx:49 | `split(/\s+/)` yields one piece per word start (a non-whitespace character at the front or after whitespace), plus one empty piece for an empty or whitespace-led text and one for a whitespace-ended text |
| Analysis.CountAfterSpace | src/App.jsx:49 | the piece count holds for a text that starts with whitespace when it holds for the text after that run |
| Analysis.CountAfterChar | src/App.jsx:49 | the piece count holds for a text that starts with a non-whitespace character when it holds for the rest |
| Analysis.WordCountIsWords | src/App.jsx:39-50 | the word count of the trimmed, non-empty answer is exactly its number of whitespace-separated words |
| Analysis.TrimmedSplitIsWords | src/App.jsx:39-49 | for the trimmed non-empty answer every piece is a non-empty word |
| Analysis.VocabularyUnoverlappable | src/App.jsx:43 | no two whole-word matches of any of the seven fillers can overlap, "you know" included |
| Analysis.NoOverlap | src/App.jsx:45-46 | after a whole-word match, no match of the same filler starts inside it |
| Analysis.ScanCountsOccurrences | src/App.jsx:45-46 | the `g` scan finds exactly as many matches as there are positions where the word stands alone, case-insensitively |
| Analysis.ReduceCountsOccurrences | src/App.jsx:44-47 | the `reduce` adds the whole-word occurrences of every word it visits to its start value |
| Analysis.FillerCountIsOccurrences | src/App.jsx:43-47 | the filler count is the sum over the seven-word vocabulary of case-insensitive matches bounded by non-word characters or the string's ends |
| Analysis.TokenCount | src/App.jsx:45-46 | in one token of word characters a filler is counted once if the token equals it up to case, and never otherwise ("likely", "umbrella") |
| Analysis.NoFillerInToken | src/App.jsx:43-47 | a one-word answer that is no filler up to case has filler count 0 |
| Analysis.ReduceOfZeros | src/App.jsx:44-47 | a `reduce` over words that never match returns its start value |
| Analysis.ConfidenceScore | src/App.jsx:50 | the clamped score lies in [0,100]; it is 100 exactly when there are no fillers, 0 exactly when the fillers reach the word count, and otherwise 100·(words−fillers)/words |
| Analysis.Analyze | src/App.jsx:43-61 | an answer's analytics carry a word count of at least 1 and a confidence score in [0,100] |
| Conversation.InstructionNamesRole | src/App.jsx:72 | the instruction opens with its fixed words, immediately followed by the role, or "professional" when none is captured |
| Conversation.ToTurnsAt | src/App.jsx:74-77 | the mapped history keeps the length, and each entry keeps its speaker and content |
| Conversation.TurnListShape | src/App.jsx:69-79 | the request has two turns more than the transcript: the instruction first, then every earlier entry in order with its speaker and content, then the new answer |
| Conversation.Texts | src/App.jsx:94-96 | filtering yields at most one text per block, and none exactly when no block has type `text` |
| Conversation.TextsAppend | src/App.jsx:94-96 | filtering distributes over concatenation, so the texts keep the blocks' order |
| Conversation.TextsFromBlocks | src/App.jsx:94-96 | every extracted text is the text of some `text` block |
| Conversation.SplitJoin | src/App.jsx:97 | `join('\n')` is undone by splitting on `'\n'` when no part holds one |
| Conversation.ReplyTextSplitsIntoBlocks | src/App.jsx:94-97 | when the reply has at least one `text` block and no block's text holds a newline, the assistant entry's text splits on `'\n'` back into the reply's texts, in order |
| Transcription.ScanResults | src/App.jsx:186-197 | the loop returns the final transcript so far extended by each visited final segment plus a space, and the interim text of the visited non-final segments in index order |
| Transcription.FinalsAppend | src/App.jsx:183-192 | the final transcript of two events' segments is the first one's followed by the second one's: it only grows |
| Transcription.InterimsAppend | src/App.jsx:187-194 | the interim text of segments visited together is the concatenation of their parts in order |
| Transcription.SegmentsSplitByFinality | src/App.jsx:189-196 | the final transcript is the texts of exactly the final segments, each with a space, and the interim text those of exactly the other segments, both in index order; the two selections together hold every visited segment |
| Transcription.TranscriptLengths | src/App.jsx:189-196 | the two transcripts together are as long as the visited texts plus one space per final segment |
| Transcription.InterimOnlyKeepsFinal | src/App.jsx:191-195 | an event of interim results only adds nothing to the final transcript |
| Sessions.Scores | src/App.jsx:310 | at most one score per transcript entry |
| Sessions.AnswerKeepsScoresInRange | src/App.jsx:50-64 | appending an entry with a score in [0,100], or with none, keeps every score in range |
| Sessions.MeanBounds | src/App.jsx:311-313 | a mean lies between the least and the greatest value averaged |
| Sessions.ScoresFromRange | src/App.jsx:310 | the scores taken from a transcript whose entries are in range are in range |
| Sessions.AverageConfidenceInRange | src/App.jsx:309-313 | `calculateAverageConfidence` lies in [0,100] |
| Sessions.NoAnswersAverageZero | src/App.jsx:310-311 | without analysed user messages there is nothing to average, and the result is 0 |
| Sessions.PushSession | src/App.jsx:280 | the new session comes first, followed by the old history in order, cut to min(old length + 1, 10) |
| Sessions.PushAllKeepsNewest | src/App.jsx:280 | after any series of snapshots the history is the newest sessions, newest first, then the old history, cut to ten |
| Sessions.ElevenSnapshots | src/App.jsx:280 | eleven snapshots from an empty history leave ten, and the first one is evicted |
| Sessions.Record | src/App.jsx:283-292 | a snapshot adds one to the session counter and one sample to the trend, and leaves the filler total alone |
| Sessions.HistoryTracksCounter | src/App.jsx:280-284 | the history length stays the smaller of ten and the session counter |
| Coach.InterviewCoach.constructor | src/App.jsx:5-34 | the initial state: the greeting alone, empty input and role, no recording, empty history, zero counters |
| Coach.InterviewCoach.EditInput | src/App.jsx:702 | typing replaces the input and nothing else |
| Coach.InterviewCoach.Send | src/App.jsx:36-128 | a blank or in-flight send changes nothing. After a reply, the transcript grows by the trimmed answer with its analytics, then the joined reply text; the role and session id are captured once; the question counter and filler total grow. After a failure, the second entry is the apology and the role, counter and totals stay. Either way loading ends and the time resets |
| Coach.InterviewCoach.Submit | src/App.jsx:39-127 | past the guard: the turn list is built from the transcript before the answer; the transcript gains the analysed answer and then the reply text or apology; the role, session id, counter and filler total change only after a reply |
| Coach.InterviewCoach.TakeAnswer | src/App.jsx:39-65 | the input is cleared, the trimmed answer is appended with its analytics, and loading starts |
| Coach.InterviewCoach.ReceiveReply | src/App.jsx:94-117 | the reply text is appended; the role and session id are set only when no role and no question preceded; the counter grows by one and the filler total by the answer's fillers |
| Coach.InterviewCoach.ReceiveFailure | src/App.jsx:119-123 | only the fixed apology is appended |
| Coach.InterviewCoach.FinishSend | src/App.jsx:124-127 | loading ends and the recording time resets |
| Coach.InterviewCoach.StartRecording | src/App.jsx:147-222 | a refused microphone changes nothing; otherwise recording starts, and transcription starts with both transcripts cleared when speech recognition exists |
| Coach.InterviewCoach.OnResult | src/App.jsx:186-199 | the final transcript grows by the event's final segments, the interim text is rebuilt from its interim ones, and the input becomes final + interim |
| Coach.InterviewCoach.ElapsedTick | src/App.jsx:174-176 | the interval sets the elapsed seconds |
| Coach.InterviewCoach.OnRecorderStop | src/App.jsx:162-166 | the recorded audio becomes available |
| Coach.InterviewCoach.StopRecording | src/App.jsx:224-241 | a no-op unless a recorder exists and is recording; then recording stops, and transcription too |
| Coach.InterviewCoach.DeleteRecording | src/App.jsx:256-262 | the audio and the time are always cleared, the input only when not recording |
| Coach.InterviewCoach.Reset | src/App.jsx:264-307 | the state starts over unconditionally; a snapshot is pushed onto the history and recorded in the counters exactly when more than the greeting was said and a role was captured |
| Coach.InterviewCoach.StartOver | src/App.jsx:295-306 | the transcript is the greeting alone; input, role, counter, session id, audio and time are cleared |
| Coach.InterviewCoach.SaveSession | src/App.jsx:266-292 | the snapshot stores half the question counter, the average confidence and the filler total, and is prepended to the history |
| Coach.OneInterview | src/App.jsx:36-307 | naming a role, getting a reply and resetting snapshots exactly one session and returns to the initial transcript |
| Coach.ElevenInterviews | src/App.jsx:280-292 | eleven interviews, each reset, count eleven sessions while the history keeps ten |

## Left out

- The request itself (`src/App.jsx:81-93`): the URL, headers, model name and
  JSON body are network I/O. The model keeps only the turn list and the
  abstract `Reply`/`Failure` outcome.
- Timestamps on messages and sessions (`new Date().toISOString()`): the
  model has no clock. `Date.now()` appears only as the parameter `now`.
- `getUserMedia`, `MediaRecorder`, chunk collection, `Blob`, the `alert`
  notices and `playRecording`/`isPlaying`: these are browser calls. The
  model keeps which of them happened (`hasRecorder`, `hasAudio`).
- `recognition.start()`, `stop()` and `onerror`: speech recognizer calls.
- Coach.InterviewCoach.ElapsedTick: the interval is not modelled. A leaked
  interval can keep ticking after a stop, so any number of seconds is
  accepted at any time.
- `toFixed(1)` and `parseFloat`: float-to-string rounding. Scores and the
  average are exact reals.
- Sessions.Record: the lifetime `averageConfidence` fold at
  `src/App.jsx:285` is not modelled. `calculateAverageConfidence` returns a
  string, so in JavaScript that expression is string concatenation or `NaN`
  rather than a running mean. `commonWeaknesses` is copied unchanged and is
  not a field.
- The report export (`src/App.jsx:316-336`): a side-effecting download.
- The page rendering, dark mode and the dashboard (`src/App.jsx:345-782`).
- React's asynchronous `setState` batching: each handler is one atomic
  transition.
- Coach.InterviewCoach.StartRecording: the `granted` flag stands for every
  way `getUserMedia` can succeed or fail. A start while already recording
  replaces the recorder, which the model does not distinguish from the
  first start.
