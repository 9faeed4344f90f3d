/**
 * The interview coach component: its state variables as the fields of one
 * object and each event handler as one atomic method over them. Every
 * handler reads the values the state had when it started, as a React
 * handler's closure does.
 */
module Coach {

  import opened Common
  import opened Analysis
  import opened Conversation
  import opened Transcription
  import opened Sessions

  /** `currentSessionId || Date.now()`: a missing (or zero) id falls back to the clock. */
  function SessionId(current: Option<int>, now: int): int
  {
    if current.Some? && current.value != 0 then current.value else now
  }

  class InterviewCoach {
    // The conversation.
    var messages: seq<Message>
    var input: string
    var isLoading: bool
    var role: string
    var questionCount: nat
    var currentSessionId: Option<int>

    // Recording and live transcription.
    /** Whether a speech recognizer was created when the component mounted. */
    const speechAvailable: bool
    /** `mediaRecorder !== null`. */
    var hasRecorder: bool
    var isRecording: bool
    /** `audioBlob !== null`. */
    var hasAudio: bool
    var recordingTime: nat
    var isTranscribing: bool
    /** The two accumulators the current `onresult` handler closes over. */
    var finalTranscript: string
    var interimTranscript: string

    // The session store.
    var sessions: seq<Session>
    var analytics: Aggregate

    /**
     * What every handler keeps: the transcript opens with the greeting and
     * its answers carry scores in [0, 100]; a role is captured exactly when
     * a question has been asked, and with it a session id; the history is as
     * long as the session counter until it reaches ten entries, and the
     * trend has one sample per session; recognition only runs while
     * recording.
     */
    ghost predicate Valid()
      reads this
    {
      |messages| >= 1 && messages[0] == GreetingMessage()
      && ScoresInRange(messages)
      && (role == "" <==> questionCount == 0)
      && (role != "" ==> currentSessionId.Some?)
      && 2 * questionCount < |messages|
      && |sessions| == Min(analytics.totalSessions, Capacity)
      && |analytics.improvementTrend| == analytics.totalSessions
      && (forall i :: 0 <= i < |sessions| ==> 0.0 <= sessions[i].averageConfidence <= 100.0)
      && (isRecording ==> hasRecorder)
      && (isTranscribing ==> isRecording && speechAvailable)
    }

    /** The state right after mounting. */
    constructor (speechAvailable: bool)
      ensures Valid()
      ensures this.speechAvailable == speechAvailable
      ensures messages == [GreetingMessage()] && input == "" && !isLoading
      ensures role == "" && questionCount == 0 && currentSessionId == None
      ensures !hasRecorder && !isRecording && !hasAudio && recordingTime == 0 && !isTranscribing
      ensures sessions == [] && analytics == InitialAggregate()
    {
      this.speechAvailable := speechAvailable;
      messages := [GreetingMessage()];
      input := "";
      isLoading := false;
      role := "";
      questionCount := 0;
      currentSessionId := None;
      hasRecorder := false;
      isRecording := false;
      hasAudio := false;
      recordingTime := 0;
      isTranscribing := false;
      finalTranscript := "";
      interimTranscript := "";
      sessions := [];
      analytics := InitialAggregate();
    }

    /** The answer box's `onChange`. */
    method EditInput(text: string)
      requires Valid()
      modifies this`input
      ensures Valid()
      ensures input == text
    {
      input := text;
    }

    /**
     * `handleSend`, with the awaited request's result given as `outcome`
     * and `Date.now()` as `now`. Returns the turn list it sends, or None
     * when the guard stops it.
     */
    method Send(outcome: Outcome, now: int) returns (request: Option<seq<Turn>>)
      requires Valid()
      modifies this`messages, this`input, this`isLoading, this`role, this`questionCount
      modifies this`currentSessionId, this`recordingTime, this`analytics
      ensures Valid()
      // The guard: a blank answer, or a request already in flight, changes nothing.
      ensures Trim(old(input)) == [] || old(isLoading) ==> request == None && unchanged(this)
      ensures Trim(old(input)) != [] && !old(isLoading) ==>
        var text := Trim(old(input));
        var analysis := Analyze(text, old(recordingTime));
        var first := old(role) == "" && old(questionCount) == 0;
        && request == Some(TurnList(old(role), old(messages), text))
        && messages == old(messages) + [Message(User, text, Some(analysis))] + [ReplyMessage(outcome)]
        && input == "" && !isLoading && recordingTime == 0
        && (outcome.Reply? ==>
              && questionCount == old(questionCount) + 1
              && role == (if first then text else old(role))
              && currentSessionId == (if first then Some(now) else old(currentSessionId))
              && analytics == old(analytics).(totalFillerWords := old(analytics).totalFillerWords + analysis.fillerCount))
        && (outcome.Failure? ==>
              && questionCount == old(questionCount) && role == old(role)
              && currentSessionId == old(currentSessionId) && analytics == old(analytics))
    {
      var userMessage := Trim(input);
      if userMessage == [] || isLoading {
        return None;
      }
      var turns := Submit(userMessage, outcome, now);
      request := Some(turns);
    }

    /** `handleSend` past its guard, for the trimmed answer `text`. */
    method Submit(text: string, outcome: Outcome, now: int) returns (request: seq<Turn>)
      requires Valid() && text != [] && !isLoading
      modifies this`messages, this`input, this`isLoading, this`role, this`questionCount
      modifies this`currentSessionId, this`recordingTime, this`analytics
      ensures Valid()
      ensures var analysis := Analyze(text, old(recordingTime));
        var first := old(role) == "" && old(questionCount) == 0;
        && request == TurnList(old(role), old(messages), text)
        && messages == old(messages) + [Message(User, text, Some(analysis))] + [ReplyMessage(outcome)]
        && input == "" && !isLoading && recordingTime == 0
        && (outcome.Reply? ==>
              && questionCount == old(questionCount) + 1
              && role == (if first then text else old(role))
              && currentSessionId == (if first then Some(now) else old(currentSessionId))
              && analytics == old(analytics).(totalFillerWords := old(analytics).totalFillerWords + analysis.fillerCount))
        && (outcome.Failure? ==>
              && questionCount == old(questionCount) && role == old(role)
              && currentSessionId == old(currentSessionId) && analytics == old(analytics))
    {
      request := TurnList(role, messages, text);
      var analysis := TakeAnswer(text);
      match outcome {
        case Reply(blocks) => ReceiveReply(blocks, text, analysis.fillerCount, now);
        case Failure => ReceiveFailure();
      }
      FinishSend();
    }

    /** The part of `handleSend` before the request: the answer is cleared from the box, analysed and appended. */
    method TakeAnswer(text: string) returns (analysis: Analytics)
      requires Valid()
      modifies this`messages, this`input, this`isLoading
      ensures Valid()
      ensures analysis == Analyze(text, recordingTime)
      ensures messages == old(messages) + [Message(User, text, Some(analysis))]
      ensures input == "" && isLoading
    {
      input := "";
      analysis := Analyze(text, recordingTime);
      AnswerKeepsScoresInRange(messages, Message(User, text, Some(analysis)));
      messages := messages + [Message(User, text, Some(analysis))];
      isLoading := true;
    }

    /**
     * The `try` block after a reply arrived: the reply text is appended,
     * the role and a session id are captured on the first exchange, and
     * the counters grow.
     */
    method ReceiveReply(blocks: seq<Block>, text: string, fillerCount: nat, now: int)
      requires Valid() && text != []
      requires 2 * questionCount + 1 < |messages|
      modifies this`messages, this`role, this`questionCount, this`currentSessionId, this`analytics
      ensures Valid()
      ensures messages == old(messages) + [Message(Assistant, ReplyText(blocks), None)]
      ensures var first := old(role) == "" && old(questionCount) == 0;
        && role == (if first then text else old(role))
        && currentSessionId == (if first then Some(now) else old(currentSessionId))
      ensures questionCount == old(questionCount) + 1
      ensures analytics == old(analytics).(totalFillerWords := old(analytics).totalFillerWords + fillerCount)
    {
      AnswerKeepsScoresInRange(messages, Message(Assistant, ReplyText(blocks), None));
      messages := messages + [Message(Assistant, ReplyText(blocks), None)];
      if role == "" && questionCount == 0 {
        role := text;
        currentSessionId := Some(now);
      }
      questionCount := questionCount + 1;
      analytics := analytics.(totalFillerWords := analytics.totalFillerWords + fillerCount);
    }

    /** The `catch` block: the fixed apology is appended and nothing else changes. */
    method ReceiveFailure()
      requires Valid()
      modifies this`messages
      ensures Valid()
      ensures messages == old(messages) + [Message(Assistant, ErrorReply, None)]
    {
      AnswerKeepsScoresInRange(messages, Message(Assistant, ErrorReply, None));
      messages := messages + [Message(Assistant, ErrorReply, None)];
    }

    /** The `finally` block. */
    method FinishSend()
      requires Valid()
      modifies this`isLoading, this`recordingTime
      ensures Valid()
      ensures !isLoading && recordingTime == 0
    {
      isLoading := false;
      recordingTime := 0;
    }

    /**
     * `startRecording` once the microphone is granted (`granted`), or its
     * `catch` when it is refused or missing. There is no guard against
     * starting twice.
     */
    method StartRecording(granted: bool)
      requires Valid()
      modifies this`hasRecorder, this`isRecording, this`isTranscribing, this`finalTranscript, this`interimTranscript
      ensures Valid()
      ensures !granted ==> unchanged(this)
      ensures granted ==>
        && hasRecorder && isRecording && isTranscribing == speechAvailable
        && (speechAvailable ==> finalTranscript == "" && interimTranscript == "")
        && (!speechAvailable ==> finalTranscript == old(finalTranscript) && interimTranscript == old(interimTranscript))
    {
      if !granted {
        return;
      }
      hasRecorder := true;
      isRecording := true;
      if speechAvailable {
        interimTranscript := "";
        finalTranscript := "";
        isTranscribing := true;
      }
    }

    /** `recognition.onresult` for an event with `results` and `resultIndex`. */
    method OnResult(results: seq<Segment>, resultIndex: nat)
      requires Valid()
      modifies this`finalTranscript, this`interimTranscript, this`input
      ensures Valid()
      ensures finalTranscript == old(finalTranscript) + Finals(Visited(results, resultIndex))
      ensures interimTranscript == Interims(Visited(results, resultIndex))
      ensures input == finalTranscript + interimTranscript
    {
      var final, interim := ScanResults(results, resultIndex, finalTranscript);
      finalTranscript := final;
      interimTranscript := interim;
      input := finalTranscript + interimTranscript;
    }

    /** A tick of the elapsed-time interval, `seconds` being the whole seconds since the start. */
    method ElapsedTick(seconds: nat)
      requires Valid()
      modifies this`recordingTime
      ensures Valid()
      ensures recordingTime == seconds
    {
      recordingTime := seconds;
    }

    /** `recorder.onstop`: the captured audio becomes available. */
    method OnRecorderStop()
      requires Valid()
      modifies this`hasAudio
      ensures Valid()
      ensures hasAudio
    {
      hasAudio := true;
    }

    /**
     * `stopRecording`: acts only when a recorder exists and is recording;
     * then recording stops, and transcription with it if it was on.
     */
    method StopRecording()
      requires Valid()
      modifies this`isRecording, this`isTranscribing
      ensures Valid()
      ensures !(old(hasRecorder) && old(isRecording)) ==> unchanged(this)
      ensures old(hasRecorder) && old(isRecording) ==> !isRecording && !isTranscribing
    {
      if hasRecorder && isRecording {
        isRecording := false;
        if speechAvailable && isTranscribing {
          isTranscribing := false;
        }
      }
    }

    /**
     * `deleteRecording`: drops the audio and the elapsed time always, and the
     * pending answer only when not recording, so that live transcription
     * survives a delete.
     */
    method DeleteRecording()
      requires Valid()
      modifies this`hasAudio, this`recordingTime, this`input
      ensures Valid()
      ensures !hasAudio && recordingTime == 0
      ensures input == if old(isRecording) then old(input) else ""
    {
      hasAudio := false;
      recordingTime := 0;
      if !isRecording {
        input := "";
      }
    }

    /**
     * `handleReset`, with `Date.now()` as `now`: snapshots the interview
     * when one took place, then starts over.
     */
    method Reset(now: int)
      requires Valid()
      modifies this`sessions, this`analytics, this`messages, this`input, this`role, this`questionCount
      modifies this`currentSessionId, this`hasAudio, this`recordingTime
      ensures Valid()
      ensures messages == [GreetingMessage()] && input == "" && role == "" && questionCount == 0
      ensures currentSessionId == None && !hasAudio && recordingTime == 0
      ensures |old(messages)| > 1 && old(role) != "" ==>
        var s := Snapshot(SessionId(old(currentSessionId), now), old(role), old(messages),
                          old(questionCount), old(analytics).totalFillerWords);
        sessions == PushSession(old(sessions), s) && analytics == Record(old(analytics), s.averageConfidence)
      ensures !(|old(messages)| > 1 && old(role) != "") ==> sessions == old(sessions) && analytics == old(analytics)
    {
      if |messages| > 1 && role != "" {
        SaveSession(now);
      }
      StartOver();
    }

    /** The unconditional part of `handleReset`: a fresh transcript and a cleared recording. */
    method StartOver()
      requires Valid()
      modifies this`messages, this`input, this`role, this`questionCount, this`currentSessionId
      modifies this`hasAudio, this`recordingTime
      ensures Valid()
      ensures messages == [GreetingMessage()] && input == "" && role == "" && questionCount == 0
      ensures currentSessionId == None && !hasAudio && recordingTime == 0
    {
      messages := [GreetingMessage()];
      input := "";
      role := "";
      questionCount := 0;
      currentSessionId := None;
      hasAudio := false;
      recordingTime := 0;
    }

    /** The snapshot `handleReset` takes before starting over. */
    method SaveSession(now: int)
      requires Valid()
      modifies this`sessions, this`analytics
      ensures Valid()
      ensures var s := Snapshot(SessionId(currentSessionId, now), role, messages, questionCount, old(analytics).totalFillerWords);
        sessions == PushSession(old(sessions), s) && analytics == Record(old(analytics), s.averageConfidence)
    {
      var session := Snapshot(SessionId(currentSessionId, now), role, messages, questionCount, analytics.totalFillerWords);
      AverageConfidenceInRange(messages);
      sessions := PushSession(sessions, session);
      analytics := Record(analytics, session.averageConfidence);
    }
  }

  /** One interview: a role is named, the coach answers, and the interview is reset. */
  method OneInterview(coach: InterviewCoach, now: int)
    requires coach.Valid() && coach.role == "" && |coach.messages| == 1 && !coach.isLoading
    modifies coach
    ensures coach.Valid() && coach.role == "" && |coach.messages| == 1 && !coach.isLoading
    ensures coach.analytics.totalSessions == old(coach.analytics.totalSessions) + 1
  {
    coach.EditInput("Software Engineer");
    TrimSpec("Software Engineer");
    assert !IsSpace("Software Engineer"[0]);
    var _ := coach.Send(Reply([Block("text", "Tell me about yourself.")]), now);
    coach.Reset(now);
  }

  /**
   * Eleven interviews, each answered once and then reset, leave ten
   * sessions in the history while the lifetime counter reaches eleven.
   */
  method ElevenInterviews() returns (total: nat, kept: nat)
    ensures total == 11 && kept == Capacity
  {
    var coach := new InterviewCoach(false);
    var k := 0;
    while k < 11
      invariant 0 <= k <= 11
      invariant coach.Valid() && coach.role == "" && |coach.messages| == 1 && !coach.isLoading
      invariant coach.analytics.totalSessions == k
    {
      OneInterview(coach, k);
      k := k + 1;
    }
    total, kept := coach.analytics.totalSessions, |coach.sessions|;
  }
}
