/** The quiz session of the `Quiz` component: six state cells that the per-second tick,
    answer selection, the delayed advance and restart update, the answer check, and the
    attempt saved when the last question is passed. The component's timers become explicit
    events, and `pendingAdvance` records that the one-second advance callback is scheduled. */
module QuizSession {
  import opened Wrappers
  import opened IntParsing
  import opened QuestionBank
  import opened AttemptStore

  /** Seconds on the clock for each question. */
  const QuestionTime: nat := 30

  /** The number of incorrect answers that fails the attempt. */
  const FailThreshold: nat := 3

  /** The answer check: a multiple-choice answer is right when the chosen option's key is
      the answer key; an integer answer when parseInt of the typed text is the answer. */
  function IsCorrect(q: Question, raw: string, optionKey: Option<string>): (b: bool)
    ensures q.Mcq? ==> (b <==> optionKey == Some(q.answerKey))
    ensures q.Integer? ==> (b <==> ParseInt(raw) == Some(q.answerValue))
  {
    match q
    case Mcq(_, _, key) => optionKey == Some(key)
    case Integer(_, value) => ParseInt(raw) == Some(value)
  }

  /** `optionKey || answer`: an absent or empty option key falls back to the typed text. */
  function SelectedValue(raw: string, optionKey: Option<string>): (v: string)
    ensures v == raw || (optionKey.Some? && v == optionKey.value)
    ensures optionKey.Some? && optionKey.value != "" ==> v == optionKey.value
    ensures optionKey.None? ==> v == raw
  {
    if optionKey.Some? && optionKey.value != "" then optionKey.value else raw
  }

  /** `Math.round(correct / total * 100)` in integer arithmetic: the percentage rounded to
      the nearest integer, halves rounding up. */
  function Score(correct: int, total: int): (r: int)
    requires total > 0
    ensures 2 * total * r <= 200 * correct + total < 2 * total * (r + 1)
    ensures 0 <= correct <= total ==> 0 <= r <= 100
  {
    var r := (200 * correct + total) / (2 * total);
    assert 0 <= correct <= total ==> r <= 100 by {
      if r > 100 {
        assert 2 * total * r >= 2 * total * 101;
      }
    }
    r
  }

  /** The record `saveResult` builds for a session that ends with `incorrect` mistakes. */
  function SavedAttempt(incorrect: int, date: Date): (a: QuizAttempt)
    ensures a.id.None? && a.date == date && a.totalQuestions == |Bank|
    ensures a.correctAnswers + incorrect == a.totalQuestions
    ensures 0 <= incorrect <= |Bank| ==> a.score * a.totalQuestions == 100 * a.correctAnswers
  {
    var correct := |Bank| - incorrect;
    QuizAttempt(None, date, Score(correct, |Bank|), correct, |Bank|)
  }

  /** The final score the result screen shows for `incorrect` mistakes: with ten
      questions, every mistake costs ten points. */
  function DisplayedScore(incorrect: int): (r: int)
    ensures 0 <= incorrect <= |Bank| ==> r == 10 * (|Bank| - incorrect)
  {
    var r := Score(|Bank| - incorrect, |Bank|);
    assert 0 <= incorrect <= |Bank| ==> r == 10 * (|Bank| - incorrect) by {
      if 0 <= incorrect <= |Bank| {
        BankShape();
        var c := |Bank| - incorrect;
        assert 200 * c + 10 == 20 * (10 * c) + 10;
      }
    }
    r
  }

  datatype Phase = InProgress | Completed | Failed

  /** The six state cells, and whether the delayed advance is scheduled. */
  datatype SessionState = SessionState(
    currentQuestion: nat,
    incorrectAnswers: nat,
    timeLeft: nat,
    showResult: bool,
    selectedAnswer: string,
    showFailPopup: bool,
    pendingAdvance: bool)

  /** The fail screen wins over the result screen; either ends the question view. */
  function PhaseOf(s: SessionState): Phase {
    if s.showFailPopup then Failed else if s.showResult then Completed else InProgress
  }

  const Initial: SessionState := SessionState(0, 0, QuestionTime, false, "", false, false)

  /** What every reachable state satisfies. */
  predicate Inv(s: SessionState) {
    && s.currentQuestion < |Bank|
    && s.incorrectAnswers <= FailThreshold
    && s.timeLeft <= QuestionTime
    && (s.showFailPopup <==> s.incorrectAnswers == FailThreshold)
    && !(s.showResult && s.showFailPopup)
    && (s.showResult ==> s.currentQuestion == |Bank| - 1)
    && (s.pendingAdvance ==> PhaseOf(s) == InProgress)
  }

  /** A transition's new state, and whether it calls `saveResult`. */
  datatype Step = Step(state: SessionState, saves: bool)

  /** `restartQuiz`: every cell back to its initial value; a scheduled advance is not
      cancelled. */
  function Restarted(s: SessionState): (r: SessionState)
    ensures r == Initial.(pendingAdvance := s.pendingAdvance)
    ensures PhaseOf(r) == InProgress
  {
    s.(currentQuestion := 0, incorrectAnswers := 0, timeLeft := QuestionTime,
       showResult := false, selectedAnswer := "", showFailPopup := false)
  }

  /** `handleAnswerSelect(raw, optionKey)`: records the selection; a wrong answer counts one
      mistake, and the third fails the attempt at once; otherwise the advance is scheduled. */
  function AnswerSelected(s: SessionState, raw: string, optionKey: Option<string>): (r: SessionState)
    requires s.currentQuestion < |Bank|
    ensures r.selectedAnswer == SelectedValue(raw, optionKey)
    ensures r.incorrectAnswers == s.incorrectAnswers + (if IsCorrect(Bank[s.currentQuestion], raw, optionKey) then 0 else 1)
    ensures var failsNow := r.incorrectAnswers > s.incorrectAnswers && r.incorrectAnswers >= FailThreshold;
      && (r.showFailPopup <==> s.showFailPopup || failsNow)
      && (r.pendingAdvance <==> s.pendingAdvance || !failsNow)
    ensures r.(selectedAnswer := s.selectedAnswer, incorrectAnswers := s.incorrectAnswers,
               showFailPopup := s.showFailPopup, pendingAdvance := s.pendingAdvance) == s
  {
    var selected := s.(selectedAnswer := SelectedValue(raw, optionKey));
    if IsCorrect(Bank[s.currentQuestion], raw, optionKey) then
      selected.(pendingAdvance := true)
    else if s.incorrectAnswers + 1 >= FailThreshold then
      selected.(incorrectAnswers := s.incorrectAnswers + 1, showFailPopup := true)
    else
      selected.(incorrectAnswers := s.incorrectAnswers + 1, pendingAdvance := true)
  }

  /** `goToNextQuestion`: the next question with a fresh clock and no selection, or, after
      the last question, the result screen and a saved attempt. */
  function NextQuestion(s: SessionState): (r: Step)
    ensures r.saves <==> s.currentQuestion + 1 >= |Bank|
    ensures r.saves ==> r.state == s.(showResult := true)
    ensures !r.saves ==>
      && r.state.currentQuestion == s.currentQuestion + 1
      && r.state.timeLeft == QuestionTime && r.state.selectedAnswer == ""
      && r.state.(currentQuestion := s.currentQuestion, timeLeft := s.timeLeft, selectedAnswer := s.selectedAnswer) == s
  {
    if s.currentQuestion < |Bank| - 1 then
      Step(s.(currentQuestion := s.currentQuestion + 1, timeLeft := QuestionTime, selectedAnswer := ""), false)
    else
      Step(s.(showResult := true), true)
  }

  /** `handleTimeout`: one mistake, then the fail screen or an immediate advance. */
  function TimedOut(s: SessionState): (r: Step)
    ensures r.state.incorrectAnswers == s.incorrectAnswers + 1
    ensures s.incorrectAnswers + 1 >= FailThreshold ==>
      !r.saves && r.state == s.(incorrectAnswers := s.incorrectAnswers + 1, showFailPopup := true)
    ensures s.incorrectAnswers + 1 < FailThreshold ==> r == NextQuestion(s.(incorrectAnswers := s.incorrectAnswers + 1))
  {
    var counted := s.(incorrectAnswers := s.incorrectAnswers + 1);
    if counted.incorrectAnswers >= FailThreshold then Step(counted.(showFailPopup := true), false)
    else NextQuestion(counted)
  }

  /** One firing of the interval: nothing once the session has ended (the interval is
      cleared), a second off the clock while time is left, the timeout at zero. */
  function Ticked(s: SessionState): (r: Step)
    ensures PhaseOf(s) != InProgress ==> r == Step(s, false)
    ensures PhaseOf(s) == InProgress && s.timeLeft > 0 ==> r == Step(s.(timeLeft := s.timeLeft - 1), false)
    ensures PhaseOf(s) == InProgress && s.timeLeft == 0 ==> r == TimedOut(s)
  {
    if s.showResult || s.showFailPopup then Step(s, false)
    else if s.timeLeft > 0 then Step(s.(timeLeft := s.timeLeft - 1), false)
    else TimedOut(s)
  }

  /** The one-second callback scheduled by an answer. */
  function Advanced(s: SessionState): (r: Step)
    ensures !r.state.pendingAdvance
    ensures r.state.incorrectAnswers == s.incorrectAnswers && r.state.showFailPopup == s.showFailPopup
    ensures r.saves <==> s.currentQuestion + 1 >= |Bank|
    ensures r.state.currentQuestion == (if r.saves then s.currentQuestion else s.currentQuestion + 1)
  {
    NextQuestion(s.(pendingAdvance := false))
  }

  /** The source does not stop the clock while an advance is pending; a timeout firing in
      that window would count a second mistake for the same question, so the model admits
      no timeout then: the clock still counts down, but waits at 0 until the advance runs. */
  predicate TickAllowed(s: SessionState) {
    !(PhaseOf(s) == InProgress && s.timeLeft == 0 && s.pendingAdvance)
  }

  /** The attempt store after a transition: one save of the session's record if the
      transition calls `saveResult`, nothing otherwise. */
  function Persisted(t: Table, step: Step, date: Date, writeOk: bool): (u: Table)
    ensures |t.records| <= |u.records| <= |t.records| + 1 && u.records[..|t.records|] == t.records
    ensures |u.records| == |t.records| + 1 <==> step.saves && writeOk && t.nextId <= MaxGeneratedKey
    ensures |u.records| == |t.records| + 1 ==>
      var a := u.records[|t.records|];
      && a.id == Some(t.nextId) && a.date == date && a.totalQuestions == |Bank|
      && a.correctAnswers == |Bank| - step.state.incorrectAnswers
      && a.score == DisplayedScore(step.state.incorrectAnswers)
    ensures |u.records| == |t.records| ==> u == t
  {
    if step.saves then AfterAdd(t, SavedAttempt(step.state.incorrectAnswers, date), writeOk).table else t
  }

  /** The component's state, updated in place by its handlers. `date` is the clock reading
      `new Date()` makes and `writeOk` the browser's verdict on the save; the save's
      rejection is not handled, so it never affects the session. */
  class Session {
    var currentQuestion: nat
    var incorrectAnswers: nat
    var timeLeft: nat
    var showResult: bool
    var selectedAnswer: string
    var showFailPopup: bool
    var pendingAdvance: bool
    const store: Store

    function State(): SessionState
      reads this
    {
      SessionState(currentQuestion, incorrectAnswers, timeLeft, showResult,
                   selectedAnswer, showFailPopup, pendingAdvance)
    }

    ghost predicate Valid()
      reads this, store
    {
      store.Valid() && Inv(State())
    }

    constructor (store: Store)
      requires store.Valid()
      ensures Valid() && this.store == store && State() == Initial
    {
      currentQuestion := 0;
      incorrectAnswers := 0;
      timeLeft := QuestionTime;
      showResult := false;
      selectedAnswer := "";
      showFailPopup := false;
      pendingAdvance := false;
      this.store := store;
    }

    method RestartQuiz()
      requires Valid() && !pendingAdvance
      modifies this
      ensures Valid() && State() == Restarted(old(State()))
    {
      currentQuestion := 0;
      incorrectAnswers := 0;
      timeLeft := QuestionTime;
      showResult := false;
      selectedAnswer := "";
      showFailPopup := false;
    }

    method HandleAnswerSelect(answer: string, optionKey: Option<string>)
      requires Valid() && PhaseOf(State()) == InProgress && !pendingAdvance
      modifies this
      ensures Valid() && State() == AnswerSelected(old(State()), answer, optionKey)
    {
      selectedAnswer := SelectedValue(answer, optionKey);
      var isCorrect := IsCorrect(Bank[currentQuestion], answer, optionKey);
      if !isCorrect {
        incorrectAnswers := incorrectAnswers + 1;
        if incorrectAnswers >= FailThreshold {
          showFailPopup := true;
          return;
        }
      }
      pendingAdvance := true;
    }

    method GoToNextQuestion(date: Date, writeOk: bool)
      requires Valid() && PhaseOf(State()) == InProgress && !pendingAdvance
      modifies this, store
      ensures Valid() && State() == NextQuestion(old(State())).state
      ensures store.Contents() == Persisted(old(store.Contents()), NextQuestion(old(State())), date, writeOk)
    {
      if currentQuestion < |Bank| - 1 {
        currentQuestion := currentQuestion + 1;
        timeLeft := QuestionTime;
        selectedAnswer := "";
      } else {
        showResult := true;
        var saved := store.SaveQuizAttempt(SavedAttempt(incorrectAnswers, date), writeOk);
      }
    }

    method HandleTimeout(date: Date, writeOk: bool)
      requires Valid() && PhaseOf(State()) == InProgress && !pendingAdvance
      modifies this, store
      ensures Valid() && State() == TimedOut(old(State())).state
      ensures store.Contents() == Persisted(old(store.Contents()), TimedOut(old(State())), date, writeOk)
    {
      incorrectAnswers := incorrectAnswers + 1;
      if incorrectAnswers >= FailThreshold {
        showFailPopup := true;
      } else {
        GoToNextQuestion(date, writeOk);
      }
    }

    method Tick(date: Date, writeOk: bool)
      requires Valid() && TickAllowed(State())
      modifies this, store
      ensures Valid() && State() == Ticked(old(State())).state
      ensures store.Contents() == Persisted(old(store.Contents()), Ticked(old(State())), date, writeOk)
    {
      if !showResult && !showFailPopup {
        if timeLeft > 0 {
          timeLeft := timeLeft - 1;
        } else {
          HandleTimeout(date, writeOk);
        }
      }
    }

    method Advance(date: Date, writeOk: bool)
      requires Valid() && pendingAdvance
      modifies this, store
      ensures Valid() && State() == Advanced(old(State())).state
      ensures store.Contents() == Persisted(old(store.Contents()), Advanced(old(State())), date, writeOk)
    {
      pendingAdvance := false;
      GoToNextQuestion(date, writeOk);
    }
  }

  /** A client of the class: three wrong answers on the first three questions end on the fail
      screen, with the attempt store still empty. Each answer is a click on option A. */
  method ThreeMistakesSaveNothing(date: Date) returns (phase: Phase, saved: nat)
    ensures phase == Failed && saved == 0
  {
    BankShape();
    assert !IsCorrect(Bank[0], "Venus", Some("A")) && !IsCorrect(Bank[1], "Stack", Some("A"))
      && !IsCorrect(Bank[2], "Python", Some("A"));
    var store := new Store();
    var session := new Session(store);
    session.HandleAnswerSelect("Venus", Some("A"));
    assert session.incorrectAnswers == 1 && session.currentQuestion == 0 && session.pendingAdvance;
    session.Advance(date, true);
    assert session.currentQuestion == 1 && store.records == [];
    session.HandleAnswerSelect("Stack", Some("A"));
    assert session.incorrectAnswers == 2 && session.pendingAdvance;
    session.Advance(date, true);
    assert session.currentQuestion == 2 && store.records == [];
    session.HandleAnswerSelect("Python", Some("A"));
    phase := PhaseOf(session.State());
    saved := |store.records|;
  }
}
