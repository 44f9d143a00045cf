/**
 * The quiz screen of src/App.js as a state machine.
 *
 * The component's state (the question list, `currentIndex`, `isFinished`,
 * the chat log and the two text buffers) is a `Session`; every event handler,
 * effect and timer continuation is a function from the old session to the
 * new one, and the class `QuizApp` holds the same state in fields and runs
 * the handlers as methods.
 *
 * Two things the component leaves to the browser are made explicit:
 * - `pending`: `handleSend` schedules its second half with `setTimeout`; each
 *   scheduled continuation remembers the `currentIndex` and
 *   `questions.length` it closed over, and they run oldest first.  Nothing
 *   stops a second send while one is pending, and nothing here does either.
 * - `crashed`: the question-change effect queues a chat updater that reads
 *   `questions[currentIndex]`; past the end of the list that updater throws
 *   while React renders, so React unmounts the component, after which
 *   nothing changes any more.
 */
module QuizSession {
  import opened Wrappers
  import opened Text
  import opened QuizRules

  /** Who wrote a chat message: the teacher (`sensei`) or the student (`seito`). */
  datatype Sender = Sensei | Seito

  /** A chat message; the teacher's face picture is left out. */
  datatype Message = Message(sender: Sender, text: string)

  /** A scheduled `setTimeout` continuation of `handleSend`, with the index and list length it captured. */
  datatype Continuation = Continuation(index: nat, count: nat)

  /** The component state the quiz logic reads and writes. */
  datatype Session = Session(
    questions: seq<Question>,
    currentIndex: nat,
    isFinished: bool,
    chat: seq<Message>,
    inputText: string,
    recognizedText: string,
    pending: seq<Continuation>,
    crashed: bool)

  /** The teacher's closing message. */
  const CompletionMessage := "全ての問題が終了しました！お疲れさまでした。"

  /** What `recognize` puts into `recognizedText` while the OCR request is out. */
  const RecognizingText := "認識中..."

  /** The state at mount: no questions, index 0, an empty chat and empty buffers. */
  function Initial(): Session {
    Session([], 0, false, [], "", "", [], false)
  }

  /** The effect run when `currentIndex` or `questions.length` changes: show the question, clear the buffers. */
  function AfterQuestionChange(s: Session): (t: Session)
    ensures t.questions == s.questions && t.currentIndex == s.currentIndex
    ensures t.isFinished == s.isFinished && t.pending == s.pending
    ensures s.chat <= t.chat
    ensures t.crashed <==> s.crashed || (|s.questions| > 0 && s.currentIndex >= |s.questions|)
  {
    if s.crashed || |s.questions| == 0 then s
    else if s.currentIndex < |s.questions| then
      s.(chat := s.chat + [Message(Sensei, s.questions[s.currentIndex].question)],
         inputText := "", recognizedText := "")
    else
      s.(crashed := true)
  }

  /** The fetch effect for a chosen genre: keep the matching questions; a new length triggers the question effect. */
  function AfterSelectGenre(s: Session, catalog: seq<Question>, genre: string): (t: Session)
    ensures !s.crashed ==> t.questions == GenreFilter(catalog, genre)
    ensures t.currentIndex == s.currentIndex && t.isFinished == s.isFinished && t.pending == s.pending
    ensures s.chat <= t.chat
  {
    if s.crashed then s
    else
      var t := s.(questions := GenreFilter(catalog, genre));
      if |t.questions| != |s.questions| then AfterQuestionChange(t) else t
  }

  /**
   * `handleSend` up to the timer: ignored for an empty input or a finished
   * quiz; otherwise the student's text and the teacher's verdict are added
   * and the continuation is scheduled.  An index past the end makes the
   * handler throw before it changes anything.
   */
  function AfterSend(s: Session): (t: Session)
    ensures t.questions == s.questions && t.currentIndex == s.currentIndex && t.isFinished == s.isFinished
    ensures t.inputText == s.inputText && t.recognizedText == s.recognizedText && t.crashed == s.crashed
    ensures s.chat <= t.chat && s.pending <= t.pending && |t.pending| <= |s.pending| + 1
  {
    if s.crashed || s.inputText == "" || s.isFinished || s.currentIndex >= |s.questions| then s
    else
      var reply := Reply(s.inputText, s.questions[s.currentIndex].answer);
      s.(chat := s.chat + [Message(Seito, s.inputText), Message(Sensei, reply)],
         pending := s.pending + [Continuation(s.currentIndex, |s.questions|)])
  }

  /**
   * The oldest continuation fires: with a next question (judged on the captured
   * index and length) the index goes up by one from its current value and the
   * question effect runs; otherwise the closing message is added and the quiz
   * is finished.
   */
  function AfterTimeout(s: Session): (t: Session)
    requires s.pending != []
    ensures t.questions == s.questions && t.pending == s.pending[1..]
    ensures s.chat <= t.chat && (s.isFinished ==> t.isFinished)
    ensures s.currentIndex <= t.currentIndex <= s.currentIndex + 1
  {
    var c := s.pending[0];
    var t := s.(pending := s.pending[1..]);
    if s.crashed then t
    else if c.index + 1 < c.count then
      AfterQuestionChange(t.(currentIndex := s.currentIndex + 1))
    else
      t.(chat := s.chat + [Message(Sensei, CompletionMessage)], isFinished := true)
  }

  /** `recognize` before its request: `recognizedText` shows that recognition is running. */
  function AfterBeginRecognize(s: Session): Session {
    if s.crashed then s else s.(recognizedText := RecognizingText)
  }

  /** `recognize` after its reply: the cleaned text is appended to both buffers. */
  function AfterOcrText(s: Session, text: Option<string>): (t: Session)
    ensures s.inputText <= t.inputText && s.recognizedText <= t.recognizedText
    ensures t.(inputText := s.inputText, recognizedText := s.recognizedText) == s
  {
    if s.crashed then s
    else
      var cleaned := CleanOcrText(text);
      s.(recognizedText := s.recognizedText + cleaned, inputText := s.inputText + cleaned)
  }

  /** `handleBackspace`: both buffers lose their last character. */
  function AfterBackspace(s: Session): (t: Session)
    ensures t.inputText <= s.inputText && t.recognizedText <= s.recognizedText
    ensures !s.crashed && s.inputText != "" ==> |t.inputText| == |s.inputText| - 1
    ensures !s.crashed && s.recognizedText != "" ==> |t.recognizedText| == |s.recognizedText| - 1
    ensures t.(inputText := s.inputText, recognizedText := s.recognizedText) == s
  {
    if s.crashed then s
    else s.(recognizedText := DropLast(s.recognizedText), inputText := DropLast(s.inputText))
  }

  /** The input box's `onChange`: the buffer becomes what was typed. */
  function AfterEdit(s: Session, text: string): Session {
    if s.crashed then s else s.(inputText := text)
  }

  /** `nextQuestion`: the index wraps to the next one; a changed index runs the question effect. */
  function AfterNextQuestion(s: Session): (t: Session)
    requires |s.questions| > 0
    ensures t.questions == s.questions && t.isFinished == s.isFinished && t.pending == s.pending
    ensures s.chat <= t.chat
    ensures !s.crashed ==> !t.crashed && t.currentIndex < |t.questions|
  {
    if s.crashed then s
    else
      var i := NextIndex(s.currentIndex, |s.questions|);
      if i != s.currentIndex then AfterQuestionChange(s.(currentIndex := i)) else s
  }

  /** What can happen to the screen: a user action, an OCR reply, or the send timer. */
  datatype Event =
    | SelectGenre(catalog: seq<Question>, genre: string)
    | Edit(text: string)
    | BeginRecognize
    | OcrText(reply: Option<string>)
    | Backspace
    | Send
    | Timeout

  /** One event; a timer event with nothing scheduled cannot occur and changes nothing. */
  function Step(s: Session, e: Event): Session {
    match e
    case SelectGenre(catalog, genre) => AfterSelectGenre(s, catalog, genre)
    case Edit(text) => AfterEdit(s, text)
    case BeginRecognize => AfterBeginRecognize(s)
    case OcrText(reply) => AfterOcrText(s, reply)
    case Backspace => AfterBackspace(s)
    case Send => AfterSend(s)
    case Timeout => if s.pending == [] then s else AfterTimeout(s)
  }

  /** A sequence of events, in order. */
  function Run(s: Session, events: seq<Event>): Session
    decreases |events|
  {
    if events == [] then s else Run(Step(s, events[0]), events[1..])
  }

  // ---------------------------------------------------------------------
  // One event at a time
  // ---------------------------------------------------------------------

  /** A send changes nothing exactly when the input is empty, the quiz is finished, or there is no current question. */
  lemma SendIgnoredIff(s: Session)
    ensures AfterSend(s) == s <==>
            s.crashed || s.inputText == "" || s.isFinished || s.currentIndex >= |s.questions|
  {
    if !(s.crashed || s.inputText == "" || s.isFinished || s.currentIndex >= |s.questions|) {
      assert |AfterSend(s).chat| == |s.chat| + 2;
    }
  }

  /**
   * An accepted send adds exactly two messages, the student's raw input and
   * then `正解！` exactly when the trimmed input equals the trimmed answer,
   * and schedules one continuation; nothing else changes.
   */
  lemma SendAddsTwoMessages(s: Session)
    requires !s.crashed && s.inputText != "" && !s.isFinished && s.currentIndex < |s.questions|
    ensures var t := AfterSend(s);
            var answer := s.questions[s.currentIndex].answer;
            && |t.chat| == |s.chat| + 2
            && t.chat[..|s.chat|] == s.chat
            && t.chat[|s.chat|] == Message(Seito, s.inputText)
            && t.chat[|s.chat| + 1].sender == Sensei
            && (t.chat[|s.chat| + 1].text == CorrectReply <==> IsCorrect(s.inputText, answer))
            && t.pending == s.pending + [Continuation(s.currentIndex, |s.questions|)]
            && t.(chat := s.chat, pending := s.pending) == s
  {
    var t := AfterSend(s);
    assert t.chat[..|s.chat|] == s.chat;
  }

  /** A wrong answer's reply is `不正解… 正解は「`, the trimmed model answer, and `」`. */
  lemma WrongReplyQuotesAnswer(s: Session)
    requires !s.crashed && s.inputText != "" && !s.isFinished && s.currentIndex < |s.questions|
    requires !IsCorrect(s.inputText, s.questions[s.currentIndex].answer)
    ensures AfterSend(s).chat[|s.chat| + 1].text
            == WrongReplyPrefix + Trim(ECMAScript, s.questions[s.currentIndex].answer) + "」"
  {
  }

  /**
   * A continuation that sees a next question moves the current index up by
   * exactly one, leaves `isFinished` alone and runs the question effect on the
   * new index: the next question is posted and the buffers are emptied, or,
   * past the end of the list, the app crashes.  One that does not see a next
   * question keeps the index, adds the closing message and finishes the quiz,
   * and changes nothing else.
   */
  lemma TimeoutAdvancesOrFinishes(s: Session)
    requires s.pending != [] && !s.crashed
    ensures var c, t := s.pending[0], AfterTimeout(s);
            && t.pending == s.pending[1..]
            && (c.index + 1 < c.count ==>
                  && t.currentIndex == s.currentIndex + 1 && t.isFinished == s.isFinished
                  && (s.currentIndex + 1 < |s.questions| ==>
                        && !t.crashed && t.inputText == "" && t.recognizedText == ""
                        && t.chat == s.chat + [Message(Sensei, s.questions[s.currentIndex + 1].question)])
                  && (|s.questions| > 0 && s.currentIndex + 1 >= |s.questions| ==> t.crashed)
                  && (|s.questions| == 0 ==>
                        t == s.(pending := s.pending[1..], currentIndex := s.currentIndex + 1)))
            && (c.index + 1 >= c.count ==>
                  t == s.(pending := s.pending[1..], isFinished := true,
                          chat := s.chat + [Message(Sensei, CompletionMessage)]))
  {
  }

  /** With no questions the question effect does nothing at all, whatever the index. */
  lemma QuestionChangeOnEmptyList(s: Session)
    requires |s.questions| == 0
    ensures AfterQuestionChange(s) == s
  {
  }

  /** On a new valid index the question is posted by the teacher and both buffers are emptied. */
  lemma QuestionChangePostsQuestion(s: Session)
    requires !s.crashed && s.currentIndex < |s.questions|
    ensures var t := AfterQuestionChange(s);
            && t.chat == s.chat + [Message(Sensei, s.questions[s.currentIndex].question)]
            && t.inputText == "" && t.recognizedText == ""
            && t.currentIndex == s.currentIndex && !t.crashed
  {
  }

  /**
   * Choosing a genre posts a question only when the filtered list has a new
   * length, because the question effect depends on the index and the length
   * alone: then the question at the current index is posted and both buffers
   * are emptied.  A new list of the same length posts nothing.
   */
  lemma SelectGenrePostsQuestion(s: Session, catalog: seq<Question>, genre: string)
    requires !s.crashed
    ensures var f, t := GenreFilter(catalog, genre), AfterSelectGenre(s, catalog, genre);
            && (|f| != |s.questions| && s.currentIndex < |f| ==>
                  && t.chat == s.chat + [Message(Sensei, f[s.currentIndex].question)]
                  && t.inputText == "" && t.recognizedText == "" && !t.crashed)
            && (|f| == |s.questions| ==> t == s.(questions := f))
  {
  }

  /** From mount, choosing a genre with at least one matching question posts the first one. */
  lemma FirstQuestionPosted(catalog: seq<Question>, genre: string)
    requires GenreFilter(catalog, genre) != []
    ensures AfterSelectGenre(Initial(), catalog, genre).chat
            == [Message(Sensei, GenreFilter(catalog, genre)[0].question)]
  {
    SelectGenrePostsQuestion(Initial(), catalog, genre);
  }

  /**
   * OCR text reaches both buffers with its whitespace removed, after what they
   * held before; a reply without whitespace arrives unchanged, and one of
   * whitespace only adds nothing.
   */
  lemma OcrTextAppended(s: Session, text: Option<string>)
    requires !s.crashed
    ensures var t := AfterOcrText(s, text);
            && t.inputText == s.inputText + CleanOcrText(text)
            && t.recognizedText == s.recognizedText + CleanOcrText(text)
    ensures text.Some? && (forall i :: 0 <= i < |text.value| ==> !IsSpace(ECMAScript, text.value[i])) ==>
              AfterOcrText(s, text).inputText == s.inputText + text.value
    ensures text.Some? && AllSpace(ECMAScript, text.value) ==> AfterOcrText(s, text).inputText == s.inputText
  {
    if text.Some? {
      if forall i :: 0 <= i < |text.value| ==> !IsSpace(ECMAScript, text.value[i]) {
        StripSpacesKeepsText(ECMAScript, text.value);
      }
      if AllSpace(ECMAScript, text.value) {
        StripSpacesOfSpace(ECMAScript, text.value);
        assert s.inputText + [] == s.inputText;
      }
    }
  }

  /** Backspace removes exactly the last character of each buffer, and leaves an empty buffer empty. */
  lemma BackspaceDropsLast(s: Session)
    requires !s.crashed
    ensures var t := AfterBackspace(s);
            && (s.inputText == "" ==> t.inputText == "")
            && (s.inputText != "" ==> t.inputText + [s.inputText[|s.inputText| - 1]] == s.inputText)
            && (s.recognizedText == "" ==> t.recognizedText == "")
            && (s.recognizedText != "" ==>
                  t.recognizedText + [s.recognizedText[|s.recognizedText| - 1]] == s.recognizedText)
  {
  }

  /**
   * `nextQuestion` wraps around: from the last index it goes back to the first.
   * With more than one question the index changes, so the new question is
   * posted and both buffers are emptied; with one question nothing changes.
   */
  lemma NextQuestionWraps(s: Session)
    requires !s.crashed && |s.questions| > 0 && s.currentIndex < |s.questions|
    ensures var t := AfterNextQuestion(s);
            && !t.crashed
            && t.currentIndex == (if s.currentIndex + 1 < |s.questions| then s.currentIndex + 1 else 0)
            && (|s.questions| > 1 ==>
                  && t.chat == s.chat + [Message(Sensei, s.questions[t.currentIndex].question)]
                  && t.inputText == "" && t.recognizedText == "")
            && (|s.questions| == 1 ==> t == s)
  {
  }

  // ---------------------------------------------------------------------
  // Whole runs
  // ---------------------------------------------------------------------

  /** Once finished, a session stays finished whatever happens next. */
  lemma {:induction false} FinishedIsSticky(s: Session, events: seq<Event>)
    requires s.isFinished
    ensures Run(s, events).isFinished
    decreases |events|
  {
    if events != [] {
      FinishedIsSticky(Step(s, events[0]), events[1..]);
    }
  }

  /** The chat is append-only: every run of events keeps the messages already posted, in place. */
  lemma {:induction false} ChatOnlyGrows(s: Session, events: seq<Event>)
    ensures s.chat <= Run(s, events).chat
    decreases |events|
  {
    if events != [] {
      var t := Step(s, events[0]);
      assert s.chat <= t.chat;
      ChatOnlyGrows(t, events[1..]);
      assert Run(s, events) == Run(t, events[1..]);
    }
  }

  /** Once finished, no send adds anything to the chat. */
  lemma FinishedIgnoresSend(s: Session)
    requires s.isFinished
    ensures AfterSend(s) == s
  {
  }

  /**
   * The state of a session used one answer at a time: no crash, a valid
   * current index whenever there are questions, and at most one pending
   * continuation, which captured the current index and length.
   */
  predicate Orderly(s: Session) {
    && !s.crashed
    && (|s.questions| > 0 ==> s.currentIndex < |s.questions|)
    && (s.pending == []
        || (s.pending == [Continuation(s.currentIndex, |s.questions|)] && s.currentIndex < |s.questions|))
  }

  /** Using the screen one answer at a time: send only with nothing pending; choose the genre before the first answer. */
  predicate Disciplined(s: Session, e: Event) {
    match e
    case SelectGenre(_, _) => s.pending == [] && s.currentIndex == 0
    case Send => s.pending == []
    case _ => true
  }

  /** Every event of the run is used one answer at a time. */
  predicate DisciplinedRun(s: Session, events: seq<Event>)
    decreases |events|
  {
    events == [] || (Disciplined(s, events[0]) && DisciplinedRun(Step(s, events[0]), events[1..]))
  }

  /** One disciplined event keeps a session orderly. */
  lemma StepKeepsOrderly(s: Session, e: Event)
    requires Orderly(s) && Disciplined(s, e)
    ensures Orderly(Step(s, e))
  {
    match e
    case SelectGenre(catalog, genre) =>
      var t := s.(questions := GenreFilter(catalog, genre));
      assert |t.questions| > 0 ==> t.currentIndex < |t.questions|;
    case Timeout =>
      if s.pending != [] {
        assert s.pending[0] == Continuation(s.currentIndex, |s.questions|);
      }
    case _ =>
  }

  /** A disciplined run keeps a session orderly throughout. */
  lemma {:induction false} OrderlyRunStaysOrderly(s: Session, events: seq<Event>)
    requires Orderly(s) && DisciplinedRun(s, events)
    ensures Orderly(Run(s, events))
    decreases |events|
  {
    if events != [] {
      StepKeepsOrderly(s, events[0]);
      OrderlyRunStaysOrderly(Step(s, events[0]), events[1..]);
    }
  }

  /** From mount, answering one question at a time never leaves the list: `questions[currentIndex]` is always defined. */
  lemma CurrentQuestionAlwaysDefined(events: seq<Event>)
    requires DisciplinedRun(Initial(), events)
    ensures var t := Run(Initial(), events);
            !t.crashed && (|t.questions| > 0 ==> t.currentIndex < |t.questions|)
  {
    OrderlyRunStaysOrderly(Initial(), events);
  }

  /**
   * One answer, start to end: the student's text and the verdict are added;
   * then either the next question is posted with empty buffers, or, after
   * the last question, the closing message is added and the quiz finishes.
   */
  lemma AnswerRound(s: Session)
    requires Orderly(s) && s.pending == []
    requires s.inputText != "" && !s.isFinished && |s.questions| > 0
    ensures var t := AfterTimeout(AfterSend(s));
            var sent := AfterSend(s).chat;
            && |sent| == |s.chat| + 2
            && Orderly(t) && t.pending == []
            && (s.currentIndex + 1 < |s.questions| ==>
                  && t.currentIndex == s.currentIndex + 1 && !t.isFinished
                  && t.chat == sent + [Message(Sensei, s.questions[s.currentIndex + 1].question)]
                  && t.inputText == "" && t.recognizedText == "")
            && (s.currentIndex + 1 == |s.questions| ==>
                  && t.currentIndex == s.currentIndex && t.isFinished
                  && t.chat == sent + [Message(Sensei, CompletionMessage)]
                  && t.inputText == s.inputText && t.recognizedText == s.recognizedText)
  {
  }

  /** Running a non-empty list of events is one step followed by the rest. */
  lemma RunUnfolds(s: Session, e: Event, rest: seq<Event>)
    ensures Run(s, [e] + rest) == Run(Step(s, e), rest)
  {
    assert ([e] + rest)[0] == e && ([e] + rest)[1..] == rest;
  }

  /** Nothing guards a second send: sending twice adds four messages and schedules two identical continuations. */
  lemma SecondSendAlsoScheduled(s: Session)
    requires !s.crashed && s.inputText != "" && !s.isFinished && s.currentIndex < |s.questions|
    ensures var t := AfterSend(AfterSend(s));
            var c := Continuation(s.currentIndex, |s.questions|);
            && t.pending == s.pending + [c, c]
            && t.questions == s.questions && t.currentIndex == s.currentIndex
            && !t.crashed && !t.isFinished
            && |t.chat| == |s.chat| + 4
  {
    SendAddsTwoMessages(s);
    SendAddsTwoMessages(AfterSend(s));
  }

  /** Two sends in a row are the two `AfterSend` steps followed by the rest of the run. */
  lemma RunSendSend(s: Session, rest: seq<Event>)
    ensures Run(s, [Send, Send] + rest) == Run(AfterSend(AfterSend(s)), rest)
  {
    assert [Send, Send] + rest == [Send] + ([Send] + rest);
    RunUnfolds(s, Send, [Send] + rest);
    RunUnfolds(AfterSend(s), Send, rest);
  }

  /** Two continuations captured on the second-to-last question both advance the index: the second lands past the end and the question effect crashes. */
  lemma StaleTimeoutsRunPastEnd(s: Session)
    requires !s.crashed && s.currentIndex + 2 == |s.questions|
    requires var c := Continuation(s.currentIndex, |s.questions|); s.pending == [c, c]
    ensures var t := Run(s, [Timeout, Timeout]);
            t.crashed && t.currentIndex == |s.questions| && t.pending == []
  {
    var s3 := AfterTimeout(s);
    assert s3.currentIndex + 1 == |s3.questions| && s3.pending == [Continuation(s.currentIndex, |s.questions|)]
           && !s3.crashed by {
      TimeoutAdvancesOrFinishes(s);
    }
    var s4 := AfterTimeout(s3);
    assert s4.crashed && s4.currentIndex == |s.questions| && s4.pending == [] by {
      TimeoutAdvancesOrFinishes(s3);
    }
    assert Run(s, [Timeout, Timeout]) == s4 by {
      RunUnfolds(s, Timeout, [Timeout]);
      RunUnfolds(s3, Timeout, []);
    }
  }

  /** Two continuations captured on the last question both finish the quiz: the closing message is posted twice. */
  lemma StaleTimeoutsFinishTwice(s: Session)
    requires !s.crashed && s.currentIndex + 1 == |s.questions|
    requires var c := Continuation(s.currentIndex, |s.questions|); s.pending == [c, c]
    ensures var t := Run(s, [Timeout, Timeout]);
            && t.isFinished && t.pending == []
            && t.chat == s.chat + [Message(Sensei, CompletionMessage), Message(Sensei, CompletionMessage)]
  {
    var s3 := AfterTimeout(s);
    assert s3.chat == s.chat + [Message(Sensei, CompletionMessage)]
           && s3.pending == [Continuation(s.currentIndex, |s.questions|)] && !s3.crashed by {
      TimeoutAdvancesOrFinishes(s);
    }
    var s4 := AfterTimeout(s3);
    assert s4.chat == s3.chat + [Message(Sensei, CompletionMessage)] && s4.isFinished && s4.pending == [] by {
      TimeoutAdvancesOrFinishes(s3);
    }
    assert Run(s, [Timeout, Timeout]) == s4 by {
      RunUnfolds(s, Timeout, [Timeout]);
      RunUnfolds(s3, Timeout, []);
    }
  }

  /** Two questions, and the student sends twice before the timer fires: the index runs past the end and the screen crashes. */
  lemma DoubleSendRunsPastEnd(q0: Question, q1: Question, input: string)
    requires input != ""
    ensures var s := Session([q0, q1], 0, false, [], input, "", [], false);
            var t := Run(s, [Send, Send, Timeout, Timeout]);
            t.crashed && t.currentIndex == 2
  {
    var s := Session([q0, q1], 0, false, [], input, "", [], false);
    SecondSendAlsoScheduled(s);
    StaleTimeoutsRunPastEnd(AfterSend(AfterSend(s)));
    RunSendSend(s, [Timeout, Timeout]);
    assert [Send, Send] + [Timeout, Timeout] == [Send, Send, Timeout, Timeout];
  }

  /** On the last question, a second send before the timer fires makes the teacher say the closing message twice. */
  lemma DoubleSendFinishesTwice(q0: Question, input: string)
    requires input != ""
    ensures var s := Session([q0], 0, false, [], input, "", [], false);
            var t := Run(s, [Send, Send, Timeout, Timeout]);
            && t.isFinished && |t.chat| == 6
            && t.chat[4] == t.chat[5] == Message(Sensei, CompletionMessage)
  {
    var s := Session([q0], 0, false, [], input, "", [], false);
    SecondSendAlsoScheduled(s);
    StaleTimeoutsFinishTwice(AfterSend(AfterSend(s)));
    RunSendSend(s, [Timeout, Timeout]);
    assert [Send, Send] + [Timeout, Timeout] == [Send, Send, Timeout, Timeout];
  }

  // ---------------------------------------------------------------------
  // The component
  // ---------------------------------------------------------------------

  /** The `App` component's quiz state, updated in place by its handlers. */
  class QuizApp {
    var questions: seq<Question>
    var currentIndex: nat
    var isFinished: bool
    var chat: seq<Message>
    var inputText: string
    var recognizedText: string
    var pending: seq<Continuation>
    var crashed: bool

    /** The fields as a session value. */
    function State(): Session
      reads this
    {
      Session(questions, currentIndex, isFinished, chat, inputText, recognizedText, pending, crashed)
    }

    /** The `useState` initial values. */
    constructor ()
      ensures State() == Initial()
    {
      questions, currentIndex, isFinished, chat := [], 0, false, [];
      inputText, recognizedText, pending, crashed := "", "", [], false;
    }

    /** The effect on `[currentIndex, questions.length]`. */
    method OnQuestionChange()
      modifies this
      ensures State() == AfterQuestionChange(old(State()))
    {
      if crashed || |questions| == 0 {
        return;
      }
      if currentIndex < |questions| {
        chat := chat + [Message(Sensei, questions[currentIndex].question)];
        inputText := "";
        recognizedText := "";
      } else {
        crashed := true;
      }
    }

    /** A genre was chosen and the catalog fetched: filter it, then rerun the question effect if the length changed. */
    method SelectGenre(catalog: seq<Question>, genre: string)
      modifies this
      ensures State() == AfterSelectGenre(old(State()), catalog, genre)
    {
      if crashed {
        return;
      }
      var before := |questions|;
      questions := GenreFilter(catalog, genre);
      if |questions| != before {
        OnQuestionChange();
      }
    }

    /** `handleSend`, up to scheduling its continuation. */
    method HandleSend()
      modifies this
      ensures State() == AfterSend(old(State()))
    {
      if crashed || inputText == "" || isFinished || currentIndex >= |questions| {
        return;
      }
      var reply := Reply(inputText, questions[currentIndex].answer);
      chat := chat + [Message(Seito, inputText), Message(Sensei, reply)];
      pending := pending + [Continuation(currentIndex, |questions|)];
    }

    /** The oldest scheduled continuation of `handleSend` runs. */
    method FireTimeout()
      requires pending != []
      modifies this
      ensures State() == AfterTimeout(old(State()))
    {
      var c := pending[0];
      pending := pending[1..];
      if crashed {
        return;
      }
      if c.index + 1 < c.count {
        currentIndex := currentIndex + 1;
        OnQuestionChange();
      } else {
        chat := chat + [Message(Sensei, CompletionMessage)];
        isFinished := true;
      }
    }

    /** `recognize`, before the OCR request. */
    method BeginRecognize()
      modifies this
      ensures State() == AfterBeginRecognize(old(State()))
    {
      if !crashed {
        recognizedText := RecognizingText;
      }
    }

    /** `recognize`, once the OCR reply is in (`text` is its `text` field, None when absent). */
    method ReceiveOcrText(text: Option<string>)
      modifies this
      ensures State() == AfterOcrText(old(State()), text)
    {
      if crashed {
        return;
      }
      var cleaned := CleanOcrText(text);
      recognizedText := recognizedText + cleaned;
      inputText := inputText + cleaned;
    }

    /** `handleBackspace`. */
    method HandleBackspace()
      modifies this
      ensures State() == AfterBackspace(old(State()))
    {
      if !crashed {
        recognizedText := DropLast(recognizedText);
        inputText := DropLast(inputText);
      }
    }

    /** The input box's `onChange`. */
    method EditInput(text: string)
      modifies this
      ensures State() == AfterEdit(old(State()), text)
    {
      if !crashed {
        inputText := text;
      }
    }

    /** `nextQuestion`. */
    method NextQuestion()
      requires |questions| > 0
      modifies this
      ensures State() == AfterNextQuestion(old(State()))
    {
      if crashed {
        return;
      }
      var i := NextIndex(currentIndex, |questions|);
      if i != currentIndex {
        currentIndex := i;
        OnQuestionChange();
      }
    }
  }
}
