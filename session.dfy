/** The quiz session: the top-level state of the page script (the level's
    kanji list, the question set, the current index, the two scores and the
    pending retry) and the handlers that change it: choosing a level
    (`startQuiz` after the level list arrives), displaying a question
    (`displayQuestion` with `displayOptions`), answering (`checkUserAnswer`
    with its delayed advance or `finishQuiz`), the `online` handler, and
    "play again" (`restartGame`).

    Network replies are inputs (`Outcome`, `LevelOutcome`), randomness is a
    `Draw` per shuffle, and every asynchronous step is taken as atomic. */
module Session {
  import opened Wrappers
  import opened RandomSelector
  import opened AnswerText
  import opened Distractors
  import opened ResultReporter

  type Kanji = string
  type Meanings = seq<string>

  /** Questions drawn per quiz (app.js:64). */
  const QuestionCount: nat := 25
  /** Option buttons on the page: one per answer of a full answer set. */
  const ButtonCount: nat := 1 + DistractorCount

  /** The reply to the detail lookups of one question step. `Success` gives
      the meanings the service returns for each symbol; a failure is
      `OfflineFailure` when the fetch failed while the browser was offline
      (`TypeError` and `!navigator.onLine`) and `OtherFailure` otherwise. */
  datatype Outcome = Success(meaningsOf: Kanji -> Meanings) | OfflineFailure | OtherFailure

  /** The reply to the level list request. */
  datatype LevelOutcome = Loaded(pool: seq<Kanji>) | LevelFailed(offline: bool)

  /** The arguments captured by the retry closure `() => displayQuestion(questions, index)`. */
  datatype Retry = Retry(questions: seq<Kanji>, index: nat)

  /** The arguments captured by the answers container's click handler:
      the correct meanings and the question set. */
  datatype AnswerKey = AnswerKey(correct: Meanings, questions: seq<Kanji>)

  /** Which section of the page is showing. */
  datatype Screen = Intro | Quiz | Results | LevelError(offline: bool)

  /** The part of the state a question display writes: the button texts, the
      installed answer handler and the pending retry. */
  datatype View = View(buttons: seq<string>, answerKey: Option<AnswerKey>, pendingRetry: Option<Retry>)

  /** The meanings of each symbol, in order (`options.map(...)` with its fetches). */
  function MeaningsOf(meaningsOf: Kanji -> Meanings, symbols: seq<Kanji>): (r: seq<Meanings>)
    ensures |r| == |symbols|
    ensures forall k :: 0 <= k < |r| ==> r[k] == meaningsOf(symbols[k])
  {
    if |symbols| == 0 then [] else [meaningsOf(symbols[0])] + MeaningsOf(meaningsOf, symbols[1..])
  }

  /** The answer set of question `q`, in display order: the correct meanings
      and those of the distractors, shuffled. It holds one answer more than
      there are distractors, the correct meanings among them. */
  function Answers(pool: seq<Kanji>, q: Kanji, meaningsOf: Kanji -> Meanings, pickDraws: Draws, orderDraws: Draws): (r: seq<Meanings>)
    requires |pool| <= |pickDraws| && ButtonCount <= |orderDraws|
    ensures |r| == 1 + Min(DistractorCount, |FilterOut(pool, q)|)
    ensures multiset(r) == multiset([meaningsOf(q)] + MeaningsOf(meaningsOf, PickDistractors(pool, q, pickDraws)))
    ensures meaningsOf(q) in r
  {
    assert meaningsOf(q) in multiset([meaningsOf(q)] + MeaningsOf(meaningsOf, PickDistractors(pool, q, pickDraws)));
    Shuffled([meaningsOf(q)] + MeaningsOf(meaningsOf, PickDistractors(pool, q, pickDraws)), orderDraws)
  }

  /** The text each answer gets on its button. */
  function OptionTexts(answers: seq<Meanings>): (r: seq<string>)
    ensures |r| == |answers|
    ensures forall k :: 0 <= k < |r| ==> r[k] == OptionText(answers[k])
  {
    if |answers| == 0 then [] else [OptionText(answers[0])] + OptionTexts(answers[1..])
  }

  /** The `forEach` over the buttons: each button in turn gets the next
      text; once the texts run out it throws, so the remaining buttons keep
      their text. */
  function Paint(buttons: seq<string>, texts: seq<string>): (r: seq<string>)
    ensures |r| == |buttons|
    ensures forall k :: 0 <= k < |r| ==> r[k] == if k < |texts| then texts[k] else buttons[k]
  {
    if |buttons| == 0 then []
    else if |texts| == 0 then buttons
    else [texts[0]] + Paint(buttons[1..], texts[1..])
  }

  /** `displayQuestion(qs, i)` on the view, given the level's kanji list and
      the outcome of the lookups:
      - a success paints the buttons, installs a handler for the question's
        meanings, and clears the pending retry when all buttons received an
        answer (with fewer answers than buttons `displayOptions` throws a
        `TypeError` first, reported as "Something went wrong");
      - an offline failure records a retry of this very display;
      - any other failure, and a missing question symbol, change nothing. */
  function LoadView(v: View, pool: seq<Kanji>, qs: seq<Kanji>, i: nat, outcome: Outcome, pickDraws: Draws, orderDraws: Draws): (r: View)
    requires |pool| <= |pickDraws| && ButtonCount <= |orderDraws|
    ensures |r.buttons| == |v.buttons|
    ensures !outcome.Success? ==> r.buttons == v.buttons && r.answerKey == v.answerKey
    ensures outcome.Success? && i < |qs| ==> r.answerKey == Some(AnswerKey(outcome.meaningsOf(qs[i]), qs))
  {
    match outcome
    case OfflineFailure => v.(pendingRetry := Some(Retry(qs, i)))
    case OtherFailure => v
    case Success(meaningsOf) =>
      if i < |qs| then
        var answers := Answers(pool, qs[i], meaningsOf, pickDraws, orderDraws);
        View(Paint(v.buttons, OptionTexts(answers)),
             Some(AnswerKey(meaningsOf(qs[i]), qs)),
             if |answers| >= ButtonCount then None else v.pendingRetry)
      else v
  }

  /** Some button shows a text that is judged to be the correct answer. */
  ghost predicate CorrectShown(buttons: seq<string>, correct: Meanings)
  {
    exists k :: 0 <= k < |buttons| && IsCorrect(buttons[k], correct)
  }

  /** The buttons all exist, and whenever an answer handler is installed,
      one of them shows its correct answer. */
  ghost predicate ViewValid(v: View)
  {
    |v.buttons| == ButtonCount &&
    (v.answerKey.Some? ==> CorrectShown(v.buttons, v.answerKey.value.correct))
  }

  /** A successful display always puts the correct meanings on one of the
      buttons, where they are recognised as correct. */
  lemma CorrectAnswerShown(buttons: seq<string>, correct: Meanings, wrong: seq<Meanings>, draws: Draws)
    requires |buttons| == ButtonCount && |wrong| <= DistractorCount && ButtonCount <= |draws|
    ensures CorrectShown(Paint(buttons, OptionTexts(Shuffled([correct] + wrong, draws))), correct)
  {
    var answers := Shuffled([correct] + wrong, draws);
    assert correct in multiset([correct] + wrong);
    assert correct in multiset(answers);
    var k :| 0 <= k < |answers| && answers[k] == correct;
    var painted := Paint(buttons, OptionTexts(answers));
    assert painted[k] == OptionText(correct);
  }

  /** Displaying a question keeps the view valid, whatever the outcome. */
  lemma LoadKeepsViewValid(v: View, pool: seq<Kanji>, qs: seq<Kanji>, i: nat, outcome: Outcome, pickDraws: Draws, orderDraws: Draws)
    requires ViewValid(v)
    requires |pool| <= |pickDraws| && ButtonCount <= |orderDraws|
    ensures ViewValid(LoadView(v, pool, qs, i, outcome, pickDraws, orderDraws))
  {
    if outcome.Success? && i < |qs| {
      var d := PickDistractors(pool, qs[i], pickDraws);
      CorrectAnswerShown(v.buttons, outcome.meaningsOf(qs[i]), MeaningsOf(outcome.meaningsOf, d), orderDraws);
    }
  }

  /** While a handler is installed, `checkUserAnswer` always finds the
      button with the correct answer (`rightOption` is never `undefined`). */
  lemma RightOptionFound(v: View)
    requires ViewValid(v) && v.answerKey.Some?
    ensures FindCorrectOption(v.buttons, v.answerKey.value.correct, 0).Some?
  {
  }

  /** How a display changes the pending retry: an offline failure sets it to
      a retry of this display, another failure leaves the whole view alone,
      and only a success can clear it. */
  lemma RetryRules(v: View, pool: seq<Kanji>, qs: seq<Kanji>, i: nat, outcome: Outcome, pickDraws: Draws, orderDraws: Draws)
    requires |pool| <= |pickDraws| && ButtonCount <= |orderDraws|
    ensures outcome.OfflineFailure? ==> LoadView(v, pool, qs, i, outcome, pickDraws, orderDraws) == v.(pendingRetry := Some(Retry(qs, i)))
    ensures outcome.OtherFailure? ==> LoadView(v, pool, qs, i, outcome, pickDraws, orderDraws) == v
    ensures v.pendingRetry.Some? && LoadView(v, pool, qs, i, outcome, pickDraws, orderDraws).pendingRetry.None? ==> outcome.Success?
    ensures LoadView(v, pool, qs, i, outcome, pickDraws, orderDraws).pendingRetry !in {v.pendingRetry, None} ==> outcome.OfflineFailure?
  {
  }

  /** A success whose answer set fills every button clears the pending retry,
      and the handler it installs is for the question displayed. */
  lemma SuccessfulDisplayClearsRetry(v: View, pool: seq<Kanji>, qs: seq<Kanji>, i: nat, meaningsOf: Kanji -> Meanings, pickDraws: Draws, orderDraws: Draws)
    requires |pool| <= |pickDraws| && ButtonCount <= |orderDraws|
    requires i < |qs| && |FilterOut(pool, qs[i])| >= DistractorCount
    ensures LoadView(v, pool, qs, i, Success(meaningsOf), pickDraws, orderDraws).pendingRetry.None?
    ensures LoadView(v, pool, qs, i, Success(meaningsOf), pickDraws, orderDraws).answerKey == Some(AnswerKey(meaningsOf(qs[i]), qs))
  {
    var d := PickDistractors(pool, qs[i], pickDraws);
  }

  /** A copy of a sequence in a fresh array (the array literals and the
      `filter` result the script builds). */
  method ToArray<T>(s: seq<T>) returns (a: array<T>)
    ensures fresh(a) && a[..] == s
  {
    a := new T[|s|](k requires 0 <= k < |s| => s[k]);
  }

  /** The computing part of `displayQuestion`: filters the question out of
      a copy of the list, picks the distractors from it (shuffling the copy),
      looks up every meaning and shuffles the answer array. */
  method AnswerSet(pool: seq<Kanji>, q: Kanji, meaningsOf: Kanji -> Meanings, pickDraws: Draws, orderDraws: Draws)
      returns (answers: seq<Meanings>)
    requires |pool| <= |pickDraws| && ButtonCount <= |orderDraws|
    ensures answers == Answers(pool, q, meaningsOf, pickDraws, orderDraws)
  {
    var correct := meaningsOf(q);
    var filtered := ToArray(FilterOut(pool, q));
    var options := GetRandomElements(filtered, DistractorCount, pickDraws);
    var wrong := MeaningsOf(meaningsOf, options);
    var all := ToArray([correct] + wrong);
    Shuffle(all, orderDraws);
    answers := all[..];
  }

  /** The steps of `displayQuestion` and `displayOptions` on the view: the
      lookups, the answer set, the painting of the buttons, the handler and
      the retry. */
  method ShowQuestion(v: View, pool: seq<Kanji>, qs: seq<Kanji>, i: nat, outcome: Outcome, pickDraws: Draws, orderDraws: Draws)
      returns (next: View)
    requires |pool| <= |pickDraws| && ButtonCount <= |orderDraws|
    ensures next == LoadView(v, pool, qs, i, outcome, pickDraws, orderDraws)
  {
    next := v;
    match outcome
    case OfflineFailure =>
      next := next.(pendingRetry := Some(Retry(qs, i)));
    case OtherFailure =>
    case Success(meaningsOf) =>
      if i < |qs| {
        var answers := AnswerSet(pool, qs[i], meaningsOf, pickDraws, orderDraws);
        var texts := OptionTexts(answers);
        next := next.(buttons := Paint(next.buttons, texts));
        next := next.(answerKey := Some(AnswerKey(meaningsOf(qs[i]), qs)));
        if |texts| >= ButtonCount {
          next := next.(pendingRetry := None);
        }
      }
  }

  class QuizSession {
    var kanjiList: array<Kanji>
    var questions: seq<Kanji>
    var index: nat
    var correctScore: nat
    var incorrectScore: nat
    var pendingRetry: Option<Retry>
    var answerKey: Option<AnswerKey>
    var buttons: seq<string>
    var screen: Screen
    var summary: Option<Summary>

    function CurrentView(): View
      reads this
    {
      View(buttons, answerKey, pendingRetry)
    }

    /** One answer is recorded per answered question: before any answer of
        a quiz both scores are zero, during the quiz their sum is the index
        of the question on display, and after the last answer it is one
        more. */
    ghost predicate ScoresConsistent()
      reads this
    {
      match screen
      case Intro => correctScore == 0 && incorrectScore == 0 && index == 0
      case LevelError(_) => correctScore == 0 && incorrectScore == 0 && index == 0
      case Quiz => correctScore + incorrectScore == index
      case Results => correctScore + incorrectScore == index + 1
    }

    ghost predicate Valid()
      reads this
    {
      ViewValid(CurrentView()) && ScoresConsistent()
    }

    /** The state when the page script starts. */
    constructor ()
      ensures Valid()
      ensures kanjiList.Length == 0 && questions == [] && index == 0
      ensures correctScore == 0 && incorrectScore == 0
      ensures pendingRetry.None? && answerKey.None? && screen == Intro && summary.None?
    {
      kanjiList := new Kanji[0];
      questions := [];
      index := 0;
      correctScore := 0;
      incorrectScore := 0;
      pendingRetry := None;
      answerKey := None;
      buttons := ["", "", "", ""];
      screen := Intro;
      summary := None;
    }

    /** `displayQuestion(qs, i)`, with `displayOptions`. */
    method Display(qs: seq<Kanji>, i: nat, outcome: Outcome, pickDraws: Draws, orderDraws: Draws)
      requires Valid()
      requires kanjiList.Length <= |pickDraws| && ButtonCount <= |orderDraws|
      modifies this
      ensures Valid()
      ensures CurrentView() == LoadView(old(CurrentView()), old(kanjiList[..]), qs, i, outcome, pickDraws, orderDraws)
      ensures kanjiList == old(kanjiList) && questions == old(questions) && index == old(index)
      ensures correctScore == old(correctScore) && incorrectScore == old(incorrectScore)
      ensures screen == old(screen) && summary == old(summary)
    {
      LoadKeepsViewValid(CurrentView(), kanjiList[..], qs, i, outcome, pickDraws, orderDraws);
      var next := ShowQuestion(CurrentView(), kanjiList[..], qs, i, outcome, pickDraws, orderDraws);
      buttons, answerKey, pendingRetry := next.buttons, next.answerKey, next.pendingRetry;
    }

    /** `startQuiz`: draws the question set from the level's list, which is
        shuffled in place, and displays the first question. The scores are
        not reset here. */
    method StartQuiz(questionDraws: Draws, first: Outcome, pickDraws: Draws, orderDraws: Draws)
      requires Valid() && screen == Intro
      requires kanjiList.Length <= |questionDraws|
      requires kanjiList.Length <= |pickDraws| && ButtonCount <= |orderDraws|
      modifies this, kanjiList
      ensures Valid()
      ensures kanjiList == old(kanjiList) && kanjiList[..] == Shuffled(old(kanjiList[..]), questionDraws)
      ensures questions == Pick(old(kanjiList[..]), QuestionCount, questionDraws)
      ensures |questions| == Min(QuestionCount, kanjiList.Length)
      ensures index == 0 && screen == Quiz
      ensures correctScore == old(correctScore) && incorrectScore == old(incorrectScore)
      ensures summary == old(summary)
      ensures CurrentView() == LoadView(old(CurrentView()), kanjiList[..], questions, 0, first, pickDraws, orderDraws)
    {
      ghost var before := CurrentView();
      questions := GetRandomElements(kanjiList, QuestionCount, questionDraws);
      ghost var shuffled := kanjiList[..];
      screen := Quiz;
      index := 0;
      assert CurrentView() == before;
      Display(questions, index, first, pickDraws, orderDraws);
      assert kanjiList[..] == shuffled;
    }

    /** A click on a level button: the level list is requested; on success
        it becomes `kanjiList` and the quiz starts, on failure the error
        message is shown (the offline wording when the browser is offline). */
    method SelectLevel(level: LevelOutcome, questionDraws: Draws, first: Outcome, pickDraws: Draws, orderDraws: Draws)
      requires Valid() && screen == Intro
      requires level.Loaded? ==> |level.pool| <= |questionDraws| && |level.pool| <= |pickDraws|
      requires ButtonCount <= |orderDraws|
      modifies this
      ensures Valid()
      ensures level.LevelFailed? ==>
        screen == LevelError(level.offline) && kanjiList == old(kanjiList) &&
        questions == old(questions) && index == old(index) && CurrentView() == old(CurrentView()) &&
        correctScore == old(correctScore) && incorrectScore == old(incorrectScore) && summary == old(summary)
      ensures level.Loaded? ==>
        fresh(kanjiList) && kanjiList[..] == Shuffled(level.pool, questionDraws) &&
        questions == Pick(level.pool, QuestionCount, questionDraws) &&
        |questions| == Min(QuestionCount, |level.pool|) &&
        index == 0 && screen == Quiz && summary == old(summary) &&
        correctScore == old(correctScore) && incorrectScore == old(incorrectScore) &&
        CurrentView() == LoadView(old(CurrentView()), kanjiList[..], questions, 0, first, pickDraws, orderDraws)
    {
      match level
      case LevelFailed(offline) =>
        screen := LevelError(offline);
      case Loaded(pool) =>
        kanjiList := ToArray(pool);
        StartQuiz(questionDraws, first, pickDraws, orderDraws);
    }

    /** `finishQuiz(qs)`: shows the results section with the score and its message. */
    method Finish(qs: seq<Kanji>)
      requires ViewValid(CurrentView()) && screen == Quiz
      requires correctScore + incorrectScore == index + 1
      modifies this
      ensures Valid()
      ensures screen == Results && summary == Some(Report(correctScore, |qs|))
      ensures kanjiList == old(kanjiList) && questions == old(questions) && index == old(index)
      ensures correctScore == old(correctScore) && incorrectScore == old(incorrectScore)
      ensures CurrentView() == old(CurrentView())
    {
      screen := Results;
      summary := Some(Report(correctScore, |qs|));
    }

    /** A click on the answers container (`target` is the button clicked, if
        any) followed by the delayed advance. A click outside the buttons, or
        before any options were displayed, does nothing. Otherwise exactly one
        score goes up by one; then the next question of the handler's question
        set is displayed, or, after the last one, the quiz finishes with the
        index unchanged. */
    method Answer(target: Option<nat>, next: Outcome, pickDraws: Draws, orderDraws: Draws)
      requires Valid() && screen == Quiz
      requires target.Some? ==> target.value < ButtonCount
      requires kanjiList.Length <= |pickDraws| && ButtonCount <= |orderDraws|
      modifies this
      ensures Valid()
      ensures kanjiList == old(kanjiList) && questions == old(questions)
      ensures target.None? || old(answerKey).None? ==>
        index == old(index) && correctScore == old(correctScore) && incorrectScore == old(incorrectScore) &&
        screen == old(screen) && summary == old(summary) && CurrentView() == old(CurrentView())
      ensures target.Some? && old(answerKey).Some? ==>
        var key := old(answerKey).value;
        var right := IsCorrect(old(buttons)[target.value], key.correct);
        correctScore == old(correctScore) + (if right then 1 else 0) &&
        incorrectScore == old(incorrectScore) + (if right then 0 else 1) &&
        correctScore + incorrectScore == old(correctScore) + old(incorrectScore) + 1 &&
        (old(index) <= |key.questions| - 1 ==> index <= |key.questions| - 1) &&
        if old(index) < |key.questions| - 1 then
          index == old(index) + 1 && screen == Quiz && summary == old(summary) &&
          CurrentView() == LoadView(old(CurrentView()), kanjiList[..], key.questions, index, next, pickDraws, orderDraws)
        else
          index == old(index) && screen == Results && summary == Some(Report(correctScore, |key.questions|)) &&
          CurrentView() == old(CurrentView())
    {
      if target.None? || answerKey.None? {
        return;
      }
      var key := answerKey.value;
      if IsCorrect(buttons[target.value], key.correct) {
        correctScore := correctScore + 1;
      } else {
        incorrectScore := incorrectScore + 1;
      }
      if index < |key.questions| - 1 {
        index := index + 1;
        Display(key.questions, index, next, pickDraws, orderDraws);
      } else {
        Finish(key.questions);
      }
    }

    /** The `online` handler: re-runs the pending retry when there is one.
        It does not clear the retry itself; the display it re-runs does so
        when it succeeds. */
    method ConnectivityRestored(outcome: Outcome, pickDraws: Draws, orderDraws: Draws)
      requires Valid()
      requires kanjiList.Length <= |pickDraws| && ButtonCount <= |orderDraws|
      modifies this
      ensures Valid()
      ensures kanjiList == old(kanjiList) && questions == old(questions) && index == old(index)
      ensures correctScore == old(correctScore) && incorrectScore == old(incorrectScore)
      ensures screen == old(screen) && summary == old(summary)
      ensures old(pendingRetry).None? ==> CurrentView() == old(CurrentView())
      ensures old(pendingRetry).Some? ==>
        CurrentView() == LoadView(old(CurrentView()), kanjiList[..], old(pendingRetry).value.questions,
                                  old(pendingRetry).value.index, outcome, pickDraws, orderDraws)
    {
      if pendingRetry.Some? {
        var r := pendingRetry.value;
        Display(r.questions, r.index, outcome, pickDraws, orderDraws);
      }
    }

    /** `restartGame`: back to the level choice with both scores and the
        index reset. The question set, the options and any pending retry
        stay as they were. */
    method Restart()
      requires Valid() && screen == Results
      modifies this
      ensures Valid()
      ensures correctScore == 0 && incorrectScore == 0 && index == 0 && screen == Intro
      ensures kanjiList == old(kanjiList) && questions == old(questions)
      ensures summary == old(summary) && CurrentView() == old(CurrentView())
    {
      incorrectScore := 0;
      correctScore := 0;
      index := 0;
      screen := Intro;
    }
  }
}
