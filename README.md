# Handwriting quiz: question pipeline and quiz screen

A model of the deterministic core of a Japanese social-studies quiz app. The
app has three parts:

- **The quiz screen** (`src/App.js`). It narrows the fetched questions to one
  genre and posts the current question in a chat. It judges the student's
  typed, handwritten or OCR-recognised answer by trimmed string equality,
  and answers with `正解！` or `不正解… 正解は「…」`. After a one-second
  timer it moves to the next question or ends the quiz.
- **The Flask back end** (`app.py`). It turns spreadsheet rows into
  `{question, answer, category}` records, keeping only rows with a non-blank
  question and answer. It checks OCR requests and cuts the base64 payload out
  of a data URL.
- **The Express back end** (`api/getQuestions.js`). It maps each spreadsheet
  row, column by column, to a nine-field record without trimming or
  filtering.

Files:

- `wrappers.dfy`: `Option` and `Result`.
- `sequences.dfy`: order-preserving subsequences.
- `text.dfy`: `trim()`/`strip()`, whitespace removal and `includes`. JavaScript
  and Python disagree on what whitespace is, so each operation takes the
  runtime whose rules it follows.
- `flask_backend.dfy`: the sheet parser. `GetQuestionsFromSheet` is a loop
  that builds the list, as the source does, and it is proved against the
  specification function `SheetQuestions`. It also models the input check and
  payload split of `vision_ocr`.
- `express_backend.dfy`: the row-to-record map. It also relates the Express
  records to the Flask records.
- `quiz_rules.dfy`: the screen's pure rules: the genre filter, the answer
  check, the teacher's reply, the wrapping `nextQuestion` index, backspace and
  OCR text cleaning.
- `quiz_session.dfy`: the screen's state as a `Session` value, with one
  function per handler, effect and timer continuation, and a class `QuizApp`
  holding the same state in fields. Each `QuizApp` method is proved to leave
  exactly the state its function describes. Whole runs of events are studied
  with `Run`.

How the browser's behaviour is made explicit:

- Each `setTimeout` continuation of `handleSend` is a separate `Timeout`
  event.
  - A queue (`pending`) holds one entry per scheduled continuation: the
    `currentIndex` and `questions.length` it closed over.
  - The continuation decides "next question or finish" on those captured
    values, but increments the index from its current value, as
    `setCurrentIndex(prev => prev + 1)` does.
- An exception in an event handler only aborts that handler, so a send
  with no current question changes nothing.
- The question effect queues a chat updater that reads
  `questions[currentIndex]`. Past the end of the list, that updater throws
  while React renders, and React unmounts the component. The model records
  this as `crashed`, after which nothing changes.
- Nothing stops a second send while a continuation is pending, in the source
  and here. `DoubleSendRunsPastEnd` shows that sending twice on the
  next-to-last question drives the index past the end and crashes the
  screen. `DoubleSendFinishesTwice` shows that sending twice on the last
  question posts the closing message twice. `StaleTimeoutsRunPastEnd` and
  `StaleTimeoutsFinishTwice` state both outcomes for any state holding two
  such continuations. The bounds invariant
  (`CurrentQuestionAlwaysDefined`) is therefore proved for runs that send
  only when nothing is pending and choose the genre before the first
  answer.

This code's answer check is trimmed equality only: it has no `/`-separated
alternatives and no token splitting. It has no review rounds, memorize mode,
level or count selection, shuffling, answer recording, or lock against
duplicate submissions (see above), and neither does the model.

`recognizedText` is set to `認識中...` when recognition starts, and the
cleaned OCR text is appended to it afterwards. It is never shown.

## Model

| member | source | states |
|---|---|---|
| Text.Trim | src/App.js:259-260 | `trim()` (and `strip()` at app.py:38-42) never lengthens a string and leaves no whitespace at either end |
| Text.TrimSpec | src/App.js:259-260 | `trim()`/`strip()` cut off exactly the leading and trailing whitespace: the result sits in the input between two all-whitespace stretches and has no outer whitespace of its own |
| Text.TrimUnique | src/App.js:259-260 | any string that is the input with only outer whitespace removed and no outer whitespace left is the trim of the input, so trimming is characterised completely |
| Text.TrimEmptyIff | app.py:38 | a cell strips to the empty string exactly when it is whitespace only |
| Text.TrimIdempotent | app.py:40-42 | stripping an already stripped string changes nothing |
| Text.TrimStartIsSuffix | src/App.js:259-260 | removing leading whitespace keeps the end of the string unchanged |
| Text.TrimEndIsPrefix | src/App.js:259-260 | removing trailing whitespace keeps the start of the string unchanged |
| Text.StripSpaces | src/App.js:237 | `replace(/[\s\u3000]/g, '')` leaves no whitespace character, keeps every other character, and never lengthens the text |
| Text.StripSpacesOfChar | src/App.js:237 | one character disappears when it is whitespace and is kept otherwise; with `StripSpacesAppend` this fixes the result for every string, order and repeats included |
| Text.StripSpacesOfSpace | src/App.js:237 | a string of whitespace only disappears entirely |
| Text.StripSpacesAppend | src/App.js:237 | whitespace removal works character by character: it distributes over concatenation |
| Text.StripSpacesKeepsText | src/App.js:237 | text without whitespace comes through the removal unchanged |
| Text.Includes | src/App.js:54 | `includes` never finds a longer string inside a shorter one, and always finds the empty string |
| Text.IncludesIff | src/App.js:54 | `category.includes(genre)` holds exactly when the genre occurs at some position of the category |
| Sequences.SubsequenceNotLonger | src/App.js:54 | a filtered list is never longer than the list it was taken from |
| QuizRules.MatchesGenre | src/App.js:54 | a question passes the filter exactly when its question and category are non-empty and the genre occurs at some position of the category |
| QuizRules.GenreFilter | src/App.js:54 | a question is kept exactly when it was fetched and has a non-empty question, a non-empty category and a category containing the genre; the kept questions stay in their fetched order |
| QuizRules.GenreFilterAppend | src/App.js:54 | filtering keeps the order: the result for a concatenation is the concatenation of the results |
| QuizRules.GenreFilterOfOne | src/App.js:54 | one question is kept exactly when it matches; with `GenreFilterAppend` this fixes the result, every matching copy of a duplicate included |
| QuizRules.IsCorrect | src/App.js:259-260 | an answer is correct exactly when it is the trimmed model answer with whitespace, and only whitespace, around it |
| QuizRules.TrimTokyo | src/App.js:259 | `東京` is unchanged by `trim()` |
| QuizRules.OuterSpacesForgiven | src/App.js:260 | a half-width space before and a full-width space after the answer are forgiven |
| QuizRules.InnerSpaceCounts | src/App.js:260 | a space inside the answer is not forgiven |
| QuizRules.Verdict | src/App.js:272 | the reply is `正解！` exactly when the answer was correct |
| QuizRules.VerdictQuotesAnswer | src/App.js:272 | a wrong answer's reply is `不正解… 正解は「`, then the trimmed model answer, then `」`; the answer can be read back from it |
| QuizRules.Reply | src/App.js:259-260 | the reply to an input is `正解！` exactly when the trimmed input equals the trimmed model answer |
| QuizRules.NextIndex | src/App.js:290-292 | `(prev + 1) % questions.length` is a valid index: the next one, or 0 after the last |
| QuizRules.AdvanceAdds | src/App.js:291 | calling `nextQuestion` a times and then b times is calling it a + b times |
| QuizRules.AdvanceCounts | src/App.js:291 | before the end of the list, k calls of `nextQuestion` move k questions on |
| QuizRules.NextIndexCycles | src/App.js:291 | `questions.length` calls of `nextQuestion` come back to the question they started from |
| QuizRules.DropLast | src/App.js:331-334 | `slice(0, -1)` removes exactly the last character and leaves an empty string empty |
| QuizRules.CleanOcrText | src/App.js:237 | the cleaned OCR text contains no whitespace, is empty when the reply has no `text`, and is otherwise the reply's text with its whitespace removed |
| QuizRules.CleanOcrTextDropsSpace | src/App.js:236-237 | a half-width space, a full-width space, a line break or a tab anywhere in the OCR text disappears, whatever surrounds it |
| QuizSession.AfterQuestionChange | src/App.js:65-76 | the question-change effect never changes the questions, the index, the finished flag or the pending timers, only appends to the chat, and fails exactly when there are questions and the index is past the end |
| QuizSession.AfterSelectGenre | src/App.js:45-62 | choosing a genre replaces the questions with the filtered catalog and leaves the index, the finished flag and the pending timers alone; the chat only grows |
| QuizSession.AfterSend | src/App.js:257-275 | a send never changes the questions, the index, the finished flag or the buffers; it only appends to the chat and schedules at most one continuation |
| QuizSession.AfterTimeout | src/App.js:276-286 | the continuation leaves the questions alone, consumes exactly the oldest timer, only appends to the chat, never clears `isFinished`, and moves the index by at most one |
| QuizSession.AfterOcrText | src/App.js:237-240 | the OCR reply only appends to the two buffers and changes nothing else |
| QuizSession.AfterBackspace | src/App.js:331-334 | backspace shortens each non-empty buffer by one, keeping its start, and changes nothing else |
| QuizSession.AfterNextQuestion | src/App.js:290-292 | `nextQuestion` never changes the questions, the finished flag or the timers, only appends to the chat, and always lands on a valid index without crashing |
| QuizSession.SelectGenrePostsQuestion | src/App.js:54-76 | a genre fetch that changes the list length posts the question at the current index and empties both buffers; one that keeps the length posts nothing and only replaces the questions |
| QuizSession.FirstQuestionPosted | src/App.js:54-76 | from mount, choosing a genre with matching questions posts the first of them as the only chat message |
| QuizSession.SendIgnoredIff | src/App.js:257-259 | a send changes nothing exactly when the input is empty, the quiz is finished, or there is no current question (the handler throws) |
| QuizSession.SendAddsTwoMessages | src/App.js:269-276 | an accepted send appends the student's raw input and then the teacher's reply, which is `正解！` exactly when the answer is correct; it schedules one continuation, and nothing else changes |
| QuizSession.WrongReplyQuotesAnswer | src/App.js:272 | after a wrong answer the teacher's reply quotes the trimmed model answer in `「」` |
| QuizSession.TimeoutAdvancesOrFinishes | src/App.js:276-286 | the continuation either raises the index by exactly one, leaves `isFinished` alone and runs the question effect (posting the next question and emptying both buffers, crashing past the end of a non-empty list, doing nothing on an empty one), or appends the closing message, sets `isFinished` and changes nothing else |
| QuizSession.QuestionChangePostsQuestion | src/App.js:65-76 | on a valid index the teacher posts that question and both text buffers are emptied |
| QuizSession.OcrTextAppended | src/App.js:237-240 | the OCR text with its whitespace removed is appended to both `inputText` and `recognizedText`, after what they held before; text without whitespace arrives unchanged, and whitespace-only text adds nothing |
| QuizSession.BackspaceDropsLast | src/App.js:331-334 | backspace removes exactly the last character of each buffer and leaves an empty buffer empty |
| QuizSession.NextQuestionWraps | src/App.js:290-292 | `nextQuestion` moves to the next question and wraps from the last back to the first without crashing; with more than one question the new question is posted and both buffers are emptied, with one question nothing changes |
| QuizSession.ChatOnlyGrows | src/App.js:67-70 | every chat update appends: after any run of events the messages already posted are still there, in place |
| QuizSession.FinishedIsSticky | src/App.js:284 | nothing resets `isFinished`: once finished, every later run of events leaves the quiz finished |
| QuizSession.FinishedIgnoresSend | src/App.js:258 | once finished, a send changes nothing |
| QuizSession.StepKeepsOrderly | src/App.js:65-76 | used one answer at a time, every event keeps the screen uncrashed with a valid current index and at most one pending continuation |
| QuizSession.OrderlyRunStaysOrderly | src/App.js:276-286 | the same invariant holds after any run of such events |
| QuizSession.CurrentQuestionAlwaysDefined | src/App.js:69 | from mount, answering one question at a time keeps `questions[currentIndex]` defined whenever there are questions |
| QuizSession.AnswerRound | src/App.js:257-287 | a send and its continuation append the answer and the reply, then either post the next question with empty buffers or, after the last question, append the closing message and finish, leaving both buffers as they were |
| QuizSession.SecondSendAlsoScheduled | src/App.js:257-278 | nothing guards a second send: two sends on a valid question add four messages and queue two identical continuations, leaving questions, index and flags unchanged |
| QuizSession.StaleTimeoutsRunPastEnd | src/App.js:276-278 | two continuations captured on the second-to-last question both raise the index, so the second lands past the end and the question effect fails |
| QuizSession.StaleTimeoutsFinishTwice | src/App.js:280-284 | two continuations captured on the last question both finish the quiz, appending the closing message twice |
| QuizSession.DoubleSendRunsPastEnd | src/App.js:276-278 | with two questions and any non-empty input, two sends before the timer drive the index to 2 and the question effect fails |
| QuizSession.DoubleSendFinishesTwice | src/App.js:280-284 | with one question and any non-empty input, two sends before the timer post the closing message twice |
| QuizSession.QuizApp.constructor | src/App.js:8-23 | the initial state: no questions, index 0, not finished, empty chat and buffers |
| QuizSession.QuestionChangeOnEmptyList | src/App.js:65-66 | with an empty question list the question effect changes nothing, whatever the index |
| QuizSession.QuizApp.OnQuestionChange | src/App.js:65-76 | the question-change effect leaves exactly the state `AfterQuestionChange` describes |
| QuizSession.QuizApp.SelectGenre | src/App.js:45-62 | the genre fetch replaces the questions with the filtered catalog and reruns the question effect when the length changed |
| QuizSession.QuizApp.HandleSend | src/App.js:257-275 | `handleSend` leaves exactly the state `AfterSend` describes |
| QuizSession.QuizApp.FireTimeout | src/App.js:276-286 | the oldest continuation leaves exactly the state `AfterTimeout` describes |
| QuizSession.QuizApp.BeginRecognize | src/App.js:228 | recognition marks `recognizedText` as in progress |
| QuizSession.QuizApp.ReceiveOcrText | src/App.js:235-240 | the OCR reply's cleaned text is appended to both buffers |
| QuizSession.QuizApp.HandleBackspace | src/App.js:331-334 | both buffers lose their last character |
| QuizSession.QuizApp.EditInput | src/App.js:706 | typing replaces the input buffer |
| QuizSession.QuizApp.NextQuestion | src/App.js:290-292 | `nextQuestion` leaves exactly the state `AfterNextQuestion` describes |
| FlaskBackend.KeepRow | app.py:38 | a row is kept exactly when it has at least six cells and neither its question cell nor its answer cell is whitespace only |
| FlaskBackend.RowRecord | app.py:39-43 | the record's question, answer and category are cells E, F and B with exactly their outer whitespace removed |
| FlaskBackend.KeptRecords | app.py:36-43 | the loop never appends more records than it visits rows |
| FlaskBackend.SheetQuestions | app.py:36-37 | an empty or header-only sheet yields no records, and there are never more records than data rows |
| FlaskBackend.GetQuestionsFromSheet | app.py:32-44 | the loop over `rows[1:]` returns exactly `SheetQuestions(rows)` |
| FlaskBackend.KeptRecordsWellFormed | app.py:38-42 | every record has a non-empty question and answer, and no field has outer whitespace; the category may be empty |
| FlaskBackend.HeaderIgnored | app.py:37 | the first row never matters: only the rows after it decide the result |
| FlaskBackend.KeptRecordsAppend | app.py:37-43 | rows are visited in order: the records of two row lists in sequence are the records of the first followed by those of the second |
| FlaskBackend.KeptRecordsOfOneRow | app.py:38-43 | one row yields its stripped question, answer and category when it has six cells and a non-blank question and answer, and nothing otherwise |
| FlaskBackend.KeptRecordsSound | app.py:38-43 | every record comes from a kept row |
| FlaskBackend.KeptRecordsComplete | app.py:38-43 | every kept row contributes its record |
| FlaskBackend.Base64Payload | app.py:62 | `split(',')[-1]` is the end of the image string with no comma in it, and it is either the whole string or preceded by a comma |
| FlaskBackend.VisionOcr | app.py:54-69 | a missing or empty image is rejected with `No image provided` before any decoding; otherwise the reply is the first annotation stripped, or empty when there is none; the recognised text never has outer whitespace |
| FlaskBackend.DataUrlPayload | app.py:62 | for the PNG data URL the front end sends, the payload is exactly the base64 part |
| ExpressBackend.GetQuestions | api/getQuestions.js:19-34 | a missing `values` field is an error (the route answers 500); otherwise the result is the rows mapped one by one to records, one record per row |
| ExpressBackend.RowToRecord | api/getQuestions.js:24-32 | field k of the record, in the order id, category, subCategory, detailCategory, question, answer, type, level, imageUrl, is cell k of the row |
| ExpressBackend.RowsToRecords | api/getQuestions.js:23 | one record per row |
| ExpressBackend.ColumnMapping | api/getQuestions.js:24-32 | field k of the record (id, category, subCategory, detailCategory, question, answer, type, level, imageUrl) is cell k of the row, and absent exactly when the row is shorter than k + 1 |
| ExpressBackend.RecordsFollowRows | api/getQuestions.js:23-33 | the i-th record is built from the i-th row |
| ExpressBackend.RowsToRecordsAppend | api/getQuestions.js:23-33 | record order matches row order across concatenation |
| ExpressBackend.PresentPrefixOfCells | api/getQuestions.js:24-32 | fields that read cell k at position k give the row back |
| ExpressBackend.RecordKeepsRow | api/getQuestions.js:23-33 | no cell of the range A..I is lost, moved or altered: the row is recovered from its record |
| ExpressBackend.FlaskFiltersExpress | app.py:37-43 | the Flask result for a sheet is the Express result for its data rows, filtered on non-blank question and answer and stripped |
| ExpressBackend.BlankQuestionStillMapped | api/getQuestions.js:23-33 | unlike the Flask back end, a row with a blank question still yields a record |

## Left out

- Canvas drawing, touch and mouse handlers, the debounce timer, speech recognition (which also appends to `inputText`), scrolling, styling, the effect animations and the random teacher face: browser APIs and presentation.
- The network: the question fetch, its loading and error state, the OCR request and its `認識エラー` error path. The fetched catalog and the OCR reply's `text` field are inputs to `SelectGenre` and `ReceiveOcrText`.
- The initial fetch with no genre chosen (`includes(null)`): the genre is always a string here.
- Google Sheets and Vision: authentication and calls, base64 decoding, Flask and Express routing and their 500 handlers. The sheet's rows, the Sheets API's `values` field and the Vision annotations are inputs. `detect` in `VisionOcr` stands for decoding the payload and asking the Vision service.
- FlaskBackend.VisionOcr: the `image` field is a string or absent. Other falsy JSON values (`0`, `false`, `null`, an empty list) are not modelled, and neither is a request without a JSON body.
- QuizRules.DropLast: works on code points. JavaScript's `slice` works on UTF-16 code units, so removing the last character of text that ends in a character outside the Basic Multilingual Plane is not modelled.
- QuizSession.AfterNextQuestion: requires a non-empty question list. With an empty list the source computes `NaN`, which is not modelled. `nextQuestion` is defined but never called from the screen, so it is not an `Event`.
- The input box, the send button and the backspace button are disabled once the quiz is finished (src/App.js:706-713). The model does not disable them and still accepts `Edit`, `Backspace` and `Send` events then; a send is ignored after the finish anyway (src/App.js:258).
- `window.location.reload` restarts: a restart is a fresh `QuizApp`.
