# kanji-quiz: a verified model of the quiz logic

`app.js` runs a browser quiz. The player chooses a JLPT level, and the script
downloads that level's kanji list from `kanjiapi.dev`. It then asks 25
questions. Each question shows a kanji with four candidate meanings: the
right one and three taken from other kanji of the level. At the end the
script shows the percentage of right answers and a message for that
percentage. Below the DOM and network code sit five pieces of logic, and
this project models each one in Dafny and proves its properties:

- `random_selector.dfy`: the in-place Fisher–Yates `shuffleArray` (a method
  over an `array`) and `getRandomElements`. `Math.random` is replaced by a
  sequence of draws, where draw `i` is some index in `[0, i]`.
- `distractors.dfy`: the wrong answers for a question. The question's symbol
  is filtered out of the kanji list, and three symbols are picked from the
  rest.
- `answer_text.dfy`: the button text for an option (a comma join, then every
  `,` replaced by `, `) and the normalisation that judges a click (every
  `, ` replaced by `,`). For every string, normalising undoes the display
  replacement.
- `result_reporter.dfy`: the percentage, computed on exact rationals and
  rounded half up, and the four message bands of `handleResultMessage`.
- `session.dfy`: the page state as a class, `QuizSession`, with the level's
  kanji list as an `array`. Its methods are:
  - choosing a level;
  - starting a quiz;
  - displaying a question, including its retry;
  - answering a question, then advancing or finishing;
  - the `online` handler;
  - "play again".

  The network replies are inputs. `Outcome` is a success with the meanings of
  every symbol, a failure while offline, or any other failure. `LevelOutcome`
  is the same for the level list.

`wrappers.dfy` holds the `Option` type.

Behaviour of `app.js` worth knowing, which the model keeps:

- **Distractor selection** (app.js:84-85). The question's symbol is
  filtered out of the level list, and the three distractors are picked from
  what remains. No draw can therefore hit the question's symbol.
- **Division by zero** (app.js:166). With no questions, the percentage is
  `NaN` when the last answer was wrong and `Infinity` when it was right
  (the score is raised first, app.js:140), and `handleResultMessage` then
  returns `undefined`. `Percent` returns `None` for both.
- **Band limits** (app.js:171-181). `handleResultMessage` gives the lowest
  band to a negative score, and no message to a score above 100.
- **The `online` handler** (app.js:112-118). It re-runs the pending retry
  but does not clear it. Only a successful display clears it (app.js:97).
- **"Play again"** (app.js:190-194). It resets only the two scores and the
  index. The question set, the button texts, the click handler and the
  pending retry stay as they were.

## Model

| member | source | states |
|---|---|---|
| RandomSelector.SwapPermutes | app.js:244 | exchanging two positions keeps the multiset of elements |
| RandomSelector.SwapKeepsDistinct | app.js:244 | exchanging two positions keeps the elements pairwise distinct |
| RandomSelector.FisherYatesPermutes | app.js:240-245 | the backward walk yields a permutation of its input, for every choice of draws `0 <= j <= i` |
| RandomSelector.FisherYatesKeepsDistinct | app.js:240-245 | the walk never duplicates an element |
| RandomSelector.FisherYates | app.js:240-245 | the backward walk, after its swaps at positions `i` down to 1, keeps the length |
| RandomSelector.Shuffled | app.js:238-247 | what `shuffleArray` leaves is a permutation of the old contents: same length, same multiset |
| RandomSelector.Pick | app.js:233-236 | `shuffleArray(arr).slice(0, n)` has exactly `min(n, |arr|)` elements, a sub-multiset of `arr` |
| RandomSelector.PickDrawsWithoutReplacement | app.js:233-236 | "pick n" returns exactly `min(n, |s|)` elements, a sub-multiset of `s`, all from `s`, pairwise distinct when `s` is |
| RandomSelector.Shuffle | app.js:238-247 | the in-place loop leaves the array holding the shuffle of its old contents, which is a permutation of them |
| RandomSelector.GetRandomElements | app.js:233-236 | the caller's array is left shuffled in place; the result is the first `min(n, length)` elements, drawn from the old contents |
| Distractors.FilterOut | app.js:84 | the filter removes every occurrence of the question and keeps every other element, as a multiset |
| Distractors.FilterOutMembers | app.js:84 | an element survives the filter exactly when it is in the pool and differs from the question |
| Distractors.FilterOutKeepsDistinct | app.js:84 | filtering keeps a duplicate-free list duplicate-free |
| Distractors.PickDistractors | app.js:84-85 | no distractor is the question's symbol; there are `min(3, |pool without it|)` of them, all from the pool |
| Distractors.DistractorsDistinct | app.js:84-85 | from a pool without duplicates the distractors are pairwise distinct |
| AnswerText.ReplaceAll | app.js:126 | left-to-right `replaceAll`: a string without an occurrence comes back unchanged; the result is no shorter (no longer) when the replacement is no shorter (no longer) than the pattern |
| AnswerText.Spread | app.js:126 | the display replacement never shortens a text and leaves a text without commas as it is |
| AnswerText.Normalise | app.js:137 | the normalisation never lengthens a text and leaves a text without `, ` as it is |
| AnswerText.Join | app.js:126 | `toString` of an array of strings: when no element holds a comma, the result holds exactly one comma per gap |
| AnswerText.NormaliseSpread | app.js:126-139 | for every string, replacing `, ` by `,` undoes replacing `,` by `, ` |
| AnswerText.IsCorrect | app.js:139 | the comparison of `checkUserAnswer`; the text a button shows for the correct meanings always passes it |
| AnswerText.OptionJudgedCorrectIff | app.js:139 | a button is judged correct exactly when its option's comma-joined meanings equal the correct answer's |
| AnswerText.FindCorrectOption | app.js:137 | `find` returns the first button judged correct, or nothing exactly when no button is |
| ResultReporter.MessagesDistinct | app.js:171-181 | the four bands have four different messages |
| ResultReporter.Percent | app.js:166 | nothing exactly when there are no questions; otherwise the nearest integer to `100 * correct / total`, halves rounded up, in `[0, 100]` when `correct <= total` |
| ResultReporter.PercentMonotone | app.js:166 | more correct answers out of the same total never lower the percentage |
| ResultReporter.ResultMessage | app.js:171-181 | each band exactly on its range (`<50`, `50-74`, `75-89`, `90-100`); no message exactly above 100 |
| ResultReporter.HigherScoreNoLowerBand | app.js:171-181 | every score up to 100 gets a message, and the bands are monotone in the score |
| ResultReporter.Report | app.js:166-168 | the results show the percentage, and a message exactly when there is a percentage of at most 100, namely that percentage's band |
| ResultReporter.ReportComplete | app.js:161-169 | with questions and at most that many right answers, the results show a percentage in `[0, 100]` and a message |
| ResultReporter.PercentExamples | app.js:166-168 | 0/25 gives 0, 25/25 gives 100, 13/25 gives 52, with the bands of the scores around the band limits |
| Session.MeaningsOf | app.js:89-94 | one list of meanings per distractor, in order: entry `k` is the meanings of symbol `k` |
| Session.Answers | app.js:81-96 | the answer set, in display order, is a shuffle of the correct meanings and the distractors' meanings: one entry more than there are distractors, the correct meanings among them |
| Session.LoadView | app.js:69-109 | a display keeps the number of buttons; only a success changes the buttons and the handler; a success for an existing question installs the handler for that question's meanings and question set |
| Session.OptionTexts | app.js:126 | button text `k` is the display text of answer `k` |
| Session.Paint | app.js:125-129 | button `k` gets text `k` while texts remain; the buttons after the texts run out keep their old text |
| Session.CorrectAnswerShown | app.js:123-126 | after a successful display, some button shows the correct meanings in a text judged correct |
| Session.LoadKeepsViewValid | app.js:69-109 | every display outcome keeps four buttons, and keeps the correct answer on one of them while a handler is installed |
| Session.RightOptionFound | app.js:137 | while a handler is installed, `rightOption` is always found |
| Session.RetryRules | app.js:97-107 | an offline failure sets the retry to this display; another failure changes nothing; only a success can clear it; nothing else sets it |
| Session.SuccessfulDisplayClearsRetry | app.js:96-97 | a success with three distractors clears the retry and installs the handler for the question displayed |
| Session.AnswerSet | app.js:81-96 | the filter, the picking and the shuffle over fresh arrays compute the answer set in display order |
| Session.ShowQuestion | app.js:69-130 | the steps of a display compute the view that `LoadView` specifies |
| Session.QuizSession.constructor | app.js:6-11 | the initial state: empty lists, zero scores, no retry, no handler, the level choice showing |
| Session.QuizSession.Display | app.js:69-130 | the button texts, the handler and the retry change as `LoadView` says; nothing else changes |
| Session.QuizSession.StartQuiz | app.js:59-67 | the kanji list is shuffled in place; the questions are its first `min(25, length)` entries; the index is 0; the scores are not reset; the first question is displayed |
| Session.QuizSession.SelectLevel | app.js:35-57 | a failed level list shows the error, with a flag for the offline wording, and changes nothing else; a loaded list is recorded and the quiz starts |
| Session.QuizSession.Finish | app.js:161-169 | the results screen shows the report of the right answers over the question count |
| Session.QuizSession.Answer | app.js:132-159 | a click off the buttons does nothing; a click on a button raises exactly one score by one; then the index goes up by one and the next question is displayed, or after the last question the quiz finishes with the index unchanged; the index stays within the question set |
| Session.QuizSession.ConnectivityRestored | app.js:112-118 | the pending retry is re-run if one is set, and is not cleared by the handler; otherwise nothing changes |
| Session.QuizSession.Restart | app.js:183-195 | both scores and the index return to 0 and the level choice shows; nothing else changes |

`QuizSession.Valid()` is preserved by every method. It says:

- there are four buttons;
- whenever an answer handler is installed, one button shows its correct
  answer;
- the two scores add up to the number of questions answered in the current
  quiz.

## Left out

- DOM work is not modelled: section toggles, the loader, animations, the
  question counter, the score labels, the info modal, and the readings shown
  beside the kanji (`kun`/`on` joins). The model keeps only the button texts
  and the installed click handler.
- `fetch`, JSON parsing, the URLs and `navigator.onLine` are not modelled.
  Their results are the inputs `Outcome` and `LevelOutcome`.
- Each display step, with its four lookups (`Promise.all`), is modelled as
  one atomic success or failure. Interleavings of several pending displays
  are therefore not modelled.
- The one-second `setTimeout` before the advance is taken as immediate.
  That rules out a second click on the same question during the delay,
  which in the page would count twice and advance twice.
- `Math.random` is an input sequence of draws, each within its bounds.
  Nothing is said about the distribution.
- `finishQuiz` computes the percentage in floating point with `toFixed(0)`.
  `Percent` rounds the exact rational half up and does not model a float
  rounding error at a half.
- Emoji and content outside `app.js` are not modelled:
  - the message texts are modelled without their trailing emoji;
  - the number of option buttons is taken as four, one per answer of a full
    answer set, because `index.html` is not part of this model.
- Two failures of a display are modelled as the generic failure, as if the
  browser were online:
  - the `TypeError` thrown by `displayOptions` (app.js:126) when a level has
    fewer than three other symbols. Offline, app.js:102-104 would set the
    retry instead;
  - the failed lookup of a missing question symbol.

  Fetch failures while offline are modelled (`OfflineFailure`).
- `ReplaceAll` does not model the empty search string. The script only uses
  `,` and `, `.
- `index` starts as `undefined` in the script and as 0 in the model. The two
  agree once a quiz has started.
- The level error screen is a dead end, as in the script: it offers no way
  back.
