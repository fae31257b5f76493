/** Properties of the quiz session over single transitions and over whole sequences of
    events: the invariant every reachable state keeps, how mistakes are counted, when an
    attempt is saved and what it records. */
module QuizProperties {
  import opened Wrappers
  import opened IntParsing
  import opened QuestionBank
  import opened AttemptStore
  import opened QuizSession

  /** What can happen to a session: the interval fires, the user answers, the scheduled
      advance runs, or the user restarts. */
  datatype Event = Tick | Submit(raw: string, optionKey: Option<string>) | Advance | Restart

  /** When each event may arrive. Answers and restarts come from screens the user sees only
      in the matching phase, with no advance pending; the advance arrives only when it is
      scheduled; the tick when no timeout can clash with a pending advance. */
  predicate Enabled(s: SessionState, e: Event) {
    match e
    case Tick => TickAllowed(s)
    case Submit(_, _) => PhaseOf(s) == InProgress && !s.pendingAdvance
    case Advance => s.pendingAdvance
    case Restart => !s.pendingAdvance
  }

  function Apply(s: SessionState, e: Event): (r: Step)
    requires s.currentQuestion < |Bank|
  {
    match e
    case Tick => Ticked(s)
    case Submit(raw, key) => Step(AnswerSelected(s, raw, key), false)
    case Advance => Advanced(s)
    case Restart => Step(Restarted(s), false)
  }

  /** The event counts as a mistake: a wrong answer, or the clock running out. */
  predicate IsMistake(s: SessionState, e: Event)
    requires s.currentQuestion < |Bank|
  {
    match e
    case Tick => PhaseOf(s) == InProgress && s.timeLeft == 0
    case Submit(raw, key) => !IsCorrect(Bank[s.currentQuestion], raw, key)
    case _ => false
  }

  /** Every event of `evs` is enabled when it arrives. */
  predicate Admissible(s: SessionState, evs: seq<Event>)
    decreases |evs|
  {
    evs == [] ||
    (s.currentQuestion < |Bank| && Enabled(s, evs[0]) && Admissible(Apply(s, evs[0]).state, evs[1..]))
  }

  function Run(s: SessionState, evs: seq<Event>): SessionState
    requires Admissible(s, evs)
    decreases |evs|
  {
    if evs == [] then s else Run(Apply(s, evs[0]).state, evs[1..])
  }

  /** How many times `saveResult` runs along `evs`. */
  function SaveCount(s: SessionState, evs: seq<Event>): nat
    requires Admissible(s, evs)
    decreases |evs|
  {
    if evs == [] then 0
    else (if Apply(s, evs[0]).saves then 1 else 0) + SaveCount(Apply(s, evs[0]).state, evs[1..])
  }

  /** How many mistakes are made along `evs`. */
  function Mistakes(s: SessionState, evs: seq<Event>): nat
    requires Admissible(s, evs)
    decreases |evs|
  {
    if evs == [] then 0
    else (if IsMistake(s, evs[0]) then 1 else 0) + Mistakes(Apply(s, evs[0]).state, evs[1..])
  }

  predicate NoRestart(evs: seq<Event>) {
    forall i :: 0 <= i < |evs| ==> !evs[i].Restart?
  }

  // Single transitions.

  lemma StepKeepsInv(s: SessionState, e: Event)
    requires Inv(s) && Enabled(s, e)
    ensures Inv(Apply(s, e).state)
  {
  }

  /** `restartQuiz` from any state: question 0, no mistakes, a full clock, no selection,
      neither screen; with nothing pending that is exactly the initial state. */
  lemma RestartResets(s: SessionState)
    ensures var r := Restarted(s);
      && r.currentQuestion == 0 && r.incorrectAnswers == 0 && r.timeLeft == QuestionTime
      && r.selectedAnswer == "" && PhaseOf(r) == InProgress
    ensures !s.pendingAdvance ==> Restarted(s) == Initial
  {
  }

  /** A right answer leaves the mistake count alone and schedules the advance; a wrong one
      adds exactly one, and the third fails the attempt with nothing scheduled. */
  lemma AnswerCounting(s: SessionState, raw: string, key: Option<string>)
    requires Inv(s) && PhaseOf(s) == InProgress && !s.pendingAdvance
    ensures var a := AnswerSelected(s, raw, key);
      && a.currentQuestion == s.currentQuestion && a.timeLeft == s.timeLeft
      && (IsCorrect(Bank[s.currentQuestion], raw, key) ==>
            a.incorrectAnswers == s.incorrectAnswers && a.pendingAdvance && PhaseOf(a) == InProgress)
      && (!IsCorrect(Bank[s.currentQuestion], raw, key) ==>
            && a.incorrectAnswers == s.incorrectAnswers + 1
            && (a.incorrectAnswers == FailThreshold <==> PhaseOf(a) == Failed)
            && (a.pendingAdvance <==> PhaseOf(a) == InProgress))
  {
  }

  /** Whichever transition makes the third mistake, the session is failed at once, nothing
      is scheduled and nothing is saved. */
  lemma ThirdMistakeFails(s: SessionState, e: Event)
    requires Inv(s) && Enabled(s, e)
    requires s.incorrectAnswers < FailThreshold && Apply(s, e).state.incorrectAnswers == FailThreshold
    ensures PhaseOf(Apply(s, e).state) == Failed
    ensures !Apply(s, e).state.pendingAdvance && !Apply(s, e).saves
  {
  }

  /** Every transition but restart adds one to the mistake count for a mistake and nothing
      otherwise. */
  lemma StepCountsMistakes(s: SessionState, e: Event)
    requires Inv(s) && Enabled(s, e) && !e.Restart?
    ensures Apply(s, e).state.incorrectAnswers == s.incorrectAnswers + (if IsMistake(s, e) then 1 else 0)
  {
  }

  /** Only restart moves back; every other transition stays on the question or moves on
      by one. */
  lemma StepIndexMonotone(s: SessionState, e: Event)
    requires Inv(s) && Enabled(s, e) && !e.Restart?
    ensures s.currentQuestion <= Apply(s, e).state.currentQuestion <= s.currentQuestion + 1
  {
  }

  /** At zero the tick does what one wrong answer followed by its advance does, without the
      delay: the same mistake count, question, clock, phase and save, and nothing left
      pending. */
  lemma TimeoutIsOneWrongAnswer(s: SessionState, raw: string, key: Option<string>)
    requires Inv(s) && PhaseOf(s) == InProgress && s.timeLeft == 0 && !s.pendingAdvance
    requires !IsCorrect(Bank[s.currentQuestion], raw, key)
    ensures var t := Ticked(s);
      var a := AnswerSelected(s, raw, key);
      var u := if a.pendingAdvance then Advanced(a) else Step(a, false);
      && t.state.incorrectAnswers == u.state.incorrectAnswers == s.incorrectAnswers + 1
      && t.state.currentQuestion == u.state.currentQuestion
      && t.state.timeLeft == u.state.timeLeft
      && PhaseOf(t.state) == PhaseOf(u.state)
      && t.saves == u.saves
      && !t.state.pendingAdvance && !u.state.pendingAdvance
  {
  }

  /** `saveResult` runs exactly on the transition that enters the result screen. */
  lemma StepSavesIffCompletes(s: SessionState, e: Event)
    requires Inv(s) && Enabled(s, e)
    ensures Apply(s, e).saves <==> PhaseOf(s) != Completed && PhaseOf(Apply(s, e).state) == Completed
  {
  }

  /** A completed session has made at most two mistakes, so with ten questions its score
      is 100, 90 or 80, ten points per mistake. */
  lemma CompletedScore(s: SessionState, date: Date)
    requires Inv(s) && PhaseOf(s) == Completed
    ensures s.incorrectAnswers <= 2
    ensures SavedAttempt(s.incorrectAnswers, date).score == 100 - 10 * s.incorrectAnswers
    ensures SavedAttempt(s.incorrectAnswers, date).score in {80, 90, 100}
  {
    assert |Bank| == 10;
    if s.incorrectAnswers == 0 {
      assert Score(10, 10) == 100;
    } else if s.incorrectAnswers == 1 {
      assert Score(9, 10) == 90;
    } else {
      assert Score(8, 10) == 80;
    }
  }

  // Runs.

  lemma {:induction false} RunKeepsInv(s: SessionState, evs: seq<Event>)
    requires Inv(s) && Admissible(s, evs)
    ensures Inv(Run(s, evs))
    decreases |evs|
  {
    if evs != [] {
      StepKeepsInv(s, evs[0]);
      RunKeepsInv(Apply(s, evs[0]).state, evs[1..]);
    }
  }

  /** Without a restart the mistake count grows by exactly the number of mistakes made. */
  lemma {:induction false} RunCountsMistakes(s: SessionState, evs: seq<Event>)
    requires Inv(s) && Admissible(s, evs) && NoRestart(evs)
    ensures Run(s, evs).incorrectAnswers == s.incorrectAnswers + Mistakes(s, evs)
    decreases |evs|
  {
    if evs != [] {
      assert !evs[0].Restart?;
      StepCountsMistakes(s, evs[0]);
      StepKeepsInv(s, evs[0]);
      assert NoRestart(evs[1..]) by {
        forall i | 0 <= i < |evs[1..]| ensures !evs[1..][i].Restart? {
          assert evs[1..][i] == evs[i + 1];
        }
      }
      RunCountsMistakes(Apply(s, evs[0]).state, evs[1..]);
    }
  }

  /** Without a restart the question index never decreases. */
  lemma {:induction false} RunIndexMonotone(s: SessionState, evs: seq<Event>)
    requires Inv(s) && Admissible(s, evs) && NoRestart(evs)
    ensures s.currentQuestion <= Run(s, evs).currentQuestion
    decreases |evs|
  {
    if evs != [] {
      assert !evs[0].Restart?;
      StepIndexMonotone(s, evs[0]);
      StepKeepsInv(s, evs[0]);
      assert NoRestart(evs[1..]) by {
        forall i | 0 <= i < |evs[1..]| ensures !evs[1..][i].Restart? {
          assert evs[1..][i] == evs[i + 1];
        }
      }
      RunIndexMonotone(Apply(s, evs[0]).state, evs[1..]);
    }
  }

  /** Once the session has ended only a restart changes it: nothing moves and nothing is
      saved. */
  lemma {:induction false} EndedRunIsIdle(s: SessionState, evs: seq<Event>)
    requires Inv(s) && PhaseOf(s) != InProgress && Admissible(s, evs) && NoRestart(evs)
    ensures Run(s, evs) == s && SaveCount(s, evs) == 0
    decreases |evs|
  {
    if evs != [] {
      assert !evs[0].Restart?;
      assert Apply(s, evs[0]) == Step(s, false);
      assert NoRestart(evs[1..]) by {
        forall i | 0 <= i < |evs[1..]| ensures !evs[1..][i].Restart? {
          assert evs[1..][i] == evs[i + 1];
        }
      }
      EndedRunIsIdle(s, evs[1..]);
    }
  }

  /** Between restarts at most one attempt is saved, and exactly one when the run enters the
      result screen. */
  lemma {:induction false} RunSavesOnce(s: SessionState, evs: seq<Event>)
    requires Inv(s) && Admissible(s, evs) && NoRestart(evs)
    ensures SaveCount(s, evs) == if PhaseOf(s) != Completed && PhaseOf(Run(s, evs)) == Completed then 1 else 0
    decreases |evs|
  {
    if evs != [] {
      if PhaseOf(s) != InProgress {
        EndedRunIsIdle(s, evs);
      } else {
        var st := Apply(s, evs[0]);
        assert !evs[0].Restart?;
        StepKeepsInv(s, evs[0]);
        StepSavesIffCompletes(s, evs[0]);
        assert NoRestart(evs[1..]) by {
          forall i | 0 <= i < |evs[1..]| ensures !evs[1..][i].Restart? {
            assert evs[1..][i] == evs[i + 1];
          }
        }
        if PhaseOf(st.state) != InProgress {
          EndedRunIsIdle(st.state, evs[1..]);
        } else {
          RunSavesOnce(st.state, evs[1..]);
        }
      }
    }
  }

  /** A session played from the start to the result screen saves exactly one attempt, and
      that attempt counts every mistake of the run: correct answers are ten minus the
      mistakes, at most two, the total is ten, and the score is the one the result screen
      shows. */
  lemma CompletedRunRecord(evs: seq<Event>, date: Date)
    requires Admissible(Initial, evs) && NoRestart(evs) && PhaseOf(Run(Initial, evs)) == Completed
    ensures SaveCount(Initial, evs) == 1
    ensures var a := SavedAttempt(Run(Initial, evs).incorrectAnswers, date);
      && a.correctAnswers == |Bank| - Mistakes(Initial, evs)
      && a.totalQuestions == |Bank|
      && Mistakes(Initial, evs) <= 2
      && a.score == DisplayedScore(Run(Initial, evs).incorrectAnswers)
      && a.score in {80, 90, 100}
  {
    RunSavesOnce(Initial, evs);
    RunCountsMistakes(Initial, evs);
    RunKeepsInv(Initial, evs);
    CompletedScore(Run(Initial, evs), date);
  }

  /** The attempt store after `evs`, each step saving as `Persisted` says; every save
      completes at `date` and the browser's verdict on it is `writeOk`. */
  function StoreAfter(t: Table, s: SessionState, evs: seq<Event>, date: Date, writeOk: bool): Table
    requires Admissible(s, evs)
    decreases |evs|
  {
    if evs == [] then t
    else StoreAfter(Persisted(t, Apply(s, evs[0]), date, writeOk), Apply(s, evs[0]).state, evs[1..], date, writeOk)
  }

  /** Along a run without restarts, the store gains nothing if nothing is saved, and else
      exactly the add of the record of the run's final mistake count. */
  lemma {:induction false} StoreAfterRun(t: Table, s: SessionState, evs: seq<Event>, date: Date, writeOk: bool)
    requires Inv(s) && Admissible(s, evs) && NoRestart(evs)
    ensures SaveCount(s, evs) == 0 ==> StoreAfter(t, s, evs, date, writeOk) == t
    ensures SaveCount(s, evs) == 1 ==>
      StoreAfter(t, s, evs, date, writeOk) == AfterAdd(t, SavedAttempt(Run(s, evs).incorrectAnswers, date), writeOk).table
    decreases |evs|
  {
    if evs != [] {
      var st := Apply(s, evs[0]);
      StepKeepsInv(s, evs[0]);
      assert NoRestart(evs[1..]) by {
        forall i | 0 <= i < |evs[1..]| ensures !evs[1..][i].Restart? {
          assert evs[1..][i] == evs[i + 1];
        }
      }
      RunSavesOnce(s, evs);
      if st.saves {
        StepSavesIffCompletes(s, evs[0]);
        EndedRunIsIdle(st.state, evs[1..]);
        StoreAfterRun(Persisted(t, st, date, writeOk), st.state, evs[1..], date, writeOk);
      } else {
        StoreAfterRun(t, st.state, evs[1..], date, writeOk);
      }
    }
  }

  /** What the store holds after a session played from the start to the result screen:
      the old records followed by one attempt, under the next key, that counts every
      mistake of the run; a failed write, or an exhausted key generator, leaves it as it
      was. */
  lemma CompletedRunStore(t: Table, evs: seq<Event>, date: Date, writeOk: bool)
    requires Admissible(Initial, evs) && NoRestart(evs) && PhaseOf(Run(Initial, evs)) == Completed
    ensures var u := StoreAfter(t, Initial, evs, date, writeOk);
      var k := Run(Initial, evs).incorrectAnswers;
      && (writeOk && t.nextId <= MaxGeneratedKey ==>
           && u.records == t.records + [SavedAttempt(k, date).(id := Some(t.nextId))]
           && u.nextId == t.nextId + 1)
      && (!writeOk || t.nextId > MaxGeneratedKey ==> u == t)
      && k == Mistakes(Initial, evs) && k <= 2
  {
    CompletedRunRecord(evs, date);
    RunCountsMistakes(Initial, evs);
    StoreAfterRun(t, Initial, evs, date, writeOk);
    AddSucceedsIff(t, SavedAttempt(Run(Initial, evs).incorrectAnswers, date), writeOk);
  }

  // Two sessions played end to end.

  /** Three wrong answers on the first three questions fail the attempt on the third, and
      nothing is saved. Each answer is a click on option A, which passes its label and its
      key. */
  lemma ThreeWrongAnswersFail(s: SessionState, evs: seq<Event>)
    requires s == Initial
    requires evs == [Submit("Venus", Some("A")), Advance, Submit("Stack", Some("A")), Advance,
                     Submit("Python", Some("A"))]
    ensures Admissible(s, evs)
    ensures PhaseOf(Run(s, evs)) == Failed
    ensures Run(s, evs).currentQuestion == 2
    ensures SaveCount(s, evs) == 0
  {
    var w0, w1, w2 := Submit("Venus", Some("A")), Submit("Stack", Some("A")), Submit("Python", Some("A"));
    var s1 := Apply(s, w0).state;
    assert s1 == Initial.(selectedAnswer := "A", incorrectAnswers := 1, pendingAdvance := true);
    var s2 := Apply(s1, Advance).state;
    assert s2 == Initial.(currentQuestion := 1, incorrectAnswers := 1);
    var s3 := Apply(s2, w1).state;
    assert s3 == s2.(selectedAnswer := "A", incorrectAnswers := 2, pendingAdvance := true);
    var s4 := Apply(s3, Advance).state;
    assert s4 == Initial.(currentQuestion := 2, incorrectAnswers := 2);
    var s5 := Apply(s4, w2).state;
    assert s5 == s4.(selectedAnswer := "A", incorrectAnswers := 3, showFailPopup := true);
    assert [w2][1..] == [];
    assert Admissible(s4, [w2]) && Run(s4, [w2]) == s5 && SaveCount(s4, [w2]) == 0;
    RunTwoThen(s2, w1, Advance, [w2]);
    RunTwoThen(s, w0, Advance, [w1, Advance] + [w2]);
    assert evs == [w0, Advance] + ([w1, Advance] + [w2]);
  }

  /** The right answer to `q`, as the user gives it. */
  function RightAnswer(q: Question): Event {
    if q.Mcq? then Submit("", Some(q.answerKey)) else Submit(FormatInt(q.answerValue), None)
  }

  /** Every question from `from` on answered correctly, each followed by its advance. */
  function PerfectPlay(from: nat): seq<Event>
    requires from <= |Bank|
    decreases |Bank| - from
  {
    if from == |Bank| then [] else [RightAnswer(Bank[from]), Advance] + PerfectPlay(from + 1)
  }

  /** A fresh question `i` with no mistakes so far. */
  function FreshAt(i: nat): SessionState {
    Initial.(currentQuestion := i)
  }

  /** Two enabled events in front of a run: the run goes on from the state they reach. */
  lemma RunTwoThen(s: SessionState, e1: Event, e2: Event, rest: seq<Event>)
    requires s.currentQuestion < |Bank| && Enabled(s, e1)
    requires Apply(s, e1).state.currentQuestion < |Bank| && Enabled(Apply(s, e1).state, e2)
    requires Admissible(Apply(Apply(s, e1).state, e2).state, rest)
    ensures var s1 := Apply(s, e1); var s2 := Apply(s1.state, e2);
      && Admissible(s, [e1, e2] + rest)
      && Run(s, [e1, e2] + rest) == Run(s2.state, rest)
      && SaveCount(s, [e1, e2] + rest)
           == (if s1.saves then 1 else 0) + (if s2.saves then 1 else 0) + SaveCount(s2.state, rest)
      && Mistakes(s, [e1, e2] + rest)
           == (if IsMistake(s, e1) then 1 else 0) + (if IsMistake(s1.state, e2) then 1 else 0)
              + Mistakes(s2.state, rest)
  {
    var evs := [e1, e2] + rest;
    assert evs[0] == e1 && evs[1..] == [e2] + rest;
    assert evs[1..][0] == e2 && evs[1..][1..] == rest;
  }

  /** Answering question `i` correctly and advancing leaves question `i + 1` fresh, or, at
      the last question, completes the session with one save. */
  lemma PerfectPair(i: nat)
    requires i < |Bank|
    ensures var s1 := Apply(FreshAt(i), RightAnswer(Bank[i]));
      && Enabled(FreshAt(i), RightAnswer(Bank[i])) && !s1.saves && !IsMistake(FreshAt(i), RightAnswer(Bank[i]))
      && s1.state.currentQuestion == i && Enabled(s1.state, Advance) && !IsMistake(s1.state, Advance)
      && var s2 := Apply(s1.state, Advance);
         if i + 1 < |Bank| then s2 == Step(FreshAt(i + 1), false)
         else s2.saves && PhaseOf(s2.state) == Completed && s2.state.incorrectAnswers == 0
  {
    PerfectAnswer(i);
    FreshAdvance(i, Apply(FreshAt(i), RightAnswer(Bank[i])).state.selectedAnswer);
  }

  /** The right answer to a fresh question counts no mistake and schedules the advance. */
  lemma PerfectAnswer(i: nat)
    requires i < |Bank|
    ensures var e := RightAnswer(Bank[i]); var s1 := Apply(FreshAt(i), e);
      && Enabled(FreshAt(i), e) && !IsMistake(FreshAt(i), e) && !s1.saves
      && s1.state == FreshAt(i).(selectedAnswer := s1.state.selectedAnswer, pendingAdvance := true)
  {
    RightAnswerExists(Bank[i]);
  }

  /** The advance after a right answer moves to a fresh next question, or completes. */
  lemma FreshAdvance(i: nat, selected: string)
    requires i < |Bank|
    ensures var s1 := FreshAt(i).(selectedAnswer := selected, pendingAdvance := true);
      && Enabled(s1, Advance) && !IsMistake(s1, Advance)
      && var s2 := Apply(s1, Advance);
         if i + 1 < |Bank| then s2 == Step(FreshAt(i + 1), false)
         else s2.saves && PhaseOf(s2.state) == Completed && s2.state.incorrectAnswers == 0
  {
  }

  lemma {:induction false} PerfectPlayNoRestart(i: nat)
    requires i <= |Bank|
    ensures NoRestart(PerfectPlay(i))
    decreases |Bank| - i
  {
    if i < |Bank| {
      var rest := PerfectPlay(i + 1);
      PerfectPlayNoRestart(i + 1);
      var evs := [RightAnswer(Bank[i]), Advance] + rest;
      assert PerfectPlay(i) == evs;
      forall k | 0 <= k < |evs| ensures !evs[k].Restart? {
        if k >= 2 {
          assert evs[k] == rest[k - 2];
        }
      }
    }
  }

  lemma {:induction false} PerfectPlayCompletes(i: nat)
    requires i < |Bank|
    ensures Admissible(FreshAt(i), PerfectPlay(i))
    ensures PhaseOf(Run(FreshAt(i), PerfectPlay(i))) == Completed
    ensures Run(FreshAt(i), PerfectPlay(i)).incorrectAnswers == 0
    ensures Mistakes(FreshAt(i), PerfectPlay(i)) == 0 && SaveCount(FreshAt(i), PerfectPlay(i)) == 1
    decreases |Bank| - i
  {
    var e := RightAnswer(Bank[i]);
    var rest := PerfectPlay(i + 1);
    assert PerfectPlay(i) == [e, Advance] + rest;
    PerfectPair(i);
    var s2 := Apply(Apply(FreshAt(i), e).state, Advance);
    if i + 1 < |Bank| {
      PerfectPlayCompletes(i + 1);
      assert s2.state == FreshAt(i + 1) && !s2.saves;
    } else {
      assert rest == [];
    }
    RunTwoThen(FreshAt(i), e, Advance, rest);
  }

  /** Every question from `i` on answered correctly, starting from a fresh question `i`
      with no mistakes (from `i == 0` this is the whole session from the initial state):
      the result screen, one saved attempt, ten correct answers out of ten and a score of
      100. */
  lemma PerfectSessionScores100(i: nat, date: Date)
    requires i < |Bank|
    ensures FreshAt(0) == Initial
    ensures Admissible(FreshAt(i), PerfectPlay(i)) && NoRestart(PerfectPlay(i))
    ensures PhaseOf(Run(FreshAt(i), PerfectPlay(i))) == Completed
    ensures SaveCount(FreshAt(i), PerfectPlay(i)) == 1
    ensures var a := SavedAttempt(Run(FreshAt(i), PerfectPlay(i)).incorrectAnswers, date);
      a.correctAnswers == 10 && a.totalQuestions == 10 && a.score == 100
  {
    PerfectPlayCompletes(i);
    PerfectPlayNoRestart(i);
    NoMistakeRecord(date);
  }

  lemma NoMistakeRecord(date: Date)
    ensures SavedAttempt(0, date) == QuizAttempt(None, date, 100, 10, 10)
  {
  }

  // The answer check against the bank.

  /** Some input is judged right. */
  ghost predicate Answerable(q: Question) {
    exists raw, key :: IsCorrect(q, raw, key)
  }

  /** The input that answers `q` correctly: its answer key, or the numeral of its answer. */
  lemma RightAnswerExists(q: Question)
    ensures q.Mcq? ==> IsCorrect(q, "", Some(q.answerKey))
    ensures q.Integer? ==> IsCorrect(q, FormatInt(q.answerValue), None)
    ensures Answerable(q)
  {
    if q.Mcq? {
      assert IsCorrect(q, "", Some(q.answerKey));
    } else {
      ParseIntFormatRoundTrip(q.answerValue);
      assert IsCorrect(q, FormatInt(q.answerValue), None);
    }
  }

  /** Every question of the bank can be answered correctly. */
  lemma EveryQuestionAnswerable()
    ensures forall i :: 0 <= i < |Bank| ==> Answerable(Bank[i])
  {
    forall i | 0 <= i < |Bank|
      ensures Answerable(Bank[i])
    {
      RightAnswerExists(Bank[i]);
    }
  }

  /** Of a multiple-choice question's options exactly one is judged right, whatever text
      accompanies the click. */
  lemma ExactlyOneOptionRight(q: Question, raw: string, key: string)
    requires q.Mcq? && WellFormed(q) && key in q.options
    ensures IsCorrect(q, raw, Some(key)) <==> key == q.answerKey
    ensures IsCorrect(q, raw, Some(q.answerKey))
  {
  }

  /** An integer answer typed with leading whitespace, a '+' for a non-negative answer, or
      trailing non-digits after the numeral is still right. */
  lemma IntegerAnswerTolerance(q: Question, ws: string, tail: string, key: Option<string>)
    requires q.Integer?
    requires forall i :: 0 <= i < |ws| ==> IsWhiteSpace(ws[i])
    requires tail == [] || !IsDigit(tail[0], 10)
    requires q.answerValue == 0 && tail != [] ==> tail[0] != 'x' && tail[0] != 'X'
    ensures IsCorrect(q, ws + (FormatInt(q.answerValue) + tail), key)
    ensures q.answerValue >= 0 ==> IsCorrect(q, "+" + (FormatInt(q.answerValue) + tail), key)
  {
    NumeralTolerance(q.answerValue, ws, tail);
  }

  /** Typed text with no digit after the whitespace and sign is simply wrong. */
  lemma NonNumericIsWrong(q: Question, raw: string, key: Option<string>)
    requires q.Integer?
    requires Unsigned(raw) == [] || !IsDigit(Unsigned(raw)[0], 10)
    ensures !IsCorrect(q, raw, key)
  {
    NoLeadingDigitIsNaN(raw);
  }

  // The attempt `saveResult` records, as written.

  /** The attempt store after a transition as the code writes it: `saveResult` runs inside
      the closure of the render `before` in which the last answer was given or the interval
      fired, so the record counts `before`'s mistakes, not those of the new state. */
  function PersistedAsWritten(t: Table, before: SessionState, step: Step, date: Date, writeOk: bool): (u: Table)
    ensures step.saves && writeOk && t.nextId <= MaxGeneratedKey ==>
      && |u.records| == |t.records| + 1
      && u.records[|t.records|].correctAnswers == |Bank| - before.incorrectAnswers
    ensures !(step.saves && writeOk && t.nextId <= MaxGeneratedKey) ==> u == t
  {
    if step.saves then AfterAdd(t, SavedAttempt(before.incorrectAnswers, date), writeOk).table else t
  }

  /** The last question answered, then its advance: the code saves one correct answer (and
      ten points) more than the corrected store for a wrong answer, and the same record for
      a right one. */
  lemma StaleAnswerSave(s: SessionState, raw: string, key: Option<string>, t: Table, date: Date)
    requires Inv(s) && PhaseOf(s) == InProgress && !s.pendingAdvance && s.currentQuestion == |Bank| - 1
    requires AnswerSelected(s, raw, key).pendingAdvance
    requires t.nextId <= MaxGeneratedKey
    ensures var step := Advanced(AnswerSelected(s, raw, key));
      var w := PersistedAsWritten(t, s, step, date, true);
      var c := Persisted(t, step, date, true);
      var d := if IsCorrect(Bank[s.currentQuestion], raw, key) then 0 else 1;
      && step.saves && PhaseOf(step.state) == Completed
      && |w.records| == |c.records| == |t.records| + 1
      && w.records[|t.records|].correctAnswers == c.records[|t.records|].correctAnswers + d
      && w.records[|t.records|].score == c.records[|t.records|].score + 10 * d
  {
    var step := Advanced(AnswerSelected(s, raw, key));
    var w := PersistedAsWritten(t, s, step, date, true);
    StaleRecordScore(s.incorrectAnswers, date);
    assert w.records[|t.records|] == SavedAttempt(s.incorrectAnswers, date).(id := Some(t.nextId));
  }

  /** A timeout on the last question that does not fail the session: the code saves one
      correct answer and ten points more than the corrected store. */
  lemma StaleTimeoutSave(s: SessionState, t: Table, date: Date)
    requires Inv(s) && PhaseOf(s) == InProgress && !s.pendingAdvance && s.timeLeft == 0
    requires s.currentQuestion == |Bank| - 1 && s.incorrectAnswers + 1 < FailThreshold
    requires t.nextId <= MaxGeneratedKey
    ensures var step := Ticked(s);
      var w := PersistedAsWritten(t, s, step, date, true);
      var c := Persisted(t, step, date, true);
      && step.saves && PhaseOf(step.state) == Completed
      && |w.records| == |c.records| == |t.records| + 1
      && w.records[|t.records|].correctAnswers == c.records[|t.records|].correctAnswers + 1
      && w.records[|t.records|].score == c.records[|t.records|].score + 10
  {
    var step := Ticked(s);
    var w := PersistedAsWritten(t, s, step, date, true);
    StaleRecordScore(s.incorrectAnswers, date);
    assert w.records[|t.records|] == SavedAttempt(s.incorrectAnswers, date).(id := Some(t.nextId));
  }

  /** For ten questions the saved score is ten points per correct answer. */
  lemma StaleRecordScore(incorrect: nat, date: Date)
    requires incorrect <= |Bank|
    ensures SavedAttempt(incorrect, date).score == 10 * (|Bank| - incorrect)
  {
  }

  /** One mistake so far, the last question answered wrongly: the result screen shows 8
      correct and 80%, but the code saves 9 correct and 90%. */
  lemma StaleSaveMissesLastMistake(s: SessionState, date: Date)
    requires s == SessionState(9, 1, 12, false, "", false, false)
    ensures var done := Advanced(AnswerSelected(s, "", None));
      && Inv(s) && Admissible(s, [Submit("", None), Advance])
      && done.saves && PhaseOf(done.state) == Completed && done.state.incorrectAnswers == 2
      && DisplayedScore(done.state.incorrectAnswers) == 80
      && SavedAttempt(s.incorrectAnswers, date).correctAnswers == 9
      && SavedAttempt(s.incorrectAnswers, date).score == 90
  {
    LastAnswerBlank(s);
    AnswerThenAdvance(s, Submit("", None));
    StaleRecordScore(1, date);
    StaleRecordScore(2, date);
  }

  lemma LastAnswerBlank(s: SessionState)
    requires s == SessionState(9, 1, 12, false, "", false, false)
    ensures !IsCorrect(Bank[9], "", None)
    ensures AnswerSelected(s, "", None) == s.(incorrectAnswers := 2, pendingAdvance := true)
  {
    NoLeadingDigitIsNaN("");
  }

  /** An enabled event that schedules the advance, followed by that advance. */
  lemma AnswerThenAdvance(s: SessionState, e: Event)
    requires s.currentQuestion < |Bank| && Enabled(s, e) && Apply(s, e).state.pendingAdvance
    requires Apply(s, e).state.currentQuestion < |Bank|
    ensures Admissible(s, [e, Advance])
  {
    assert [Advance][1..] == [];
    assert [e, Advance][1..] == [Advance];
  }

  // An answer while the clock shows 0, as written.

  /** The advance callback as the code runs it: `goToNextQuestion` of the render `captured`
      in which the answer was given decides the branch, and its functional update of the
      index applies to the state `now` at the moment the callback fires. */
  function StaleAdvance(captured: SessionState, now: SessionState): (r: Step)
    ensures !r.state.pendingAdvance
    ensures captured.currentQuestion + 1 < |Bank| ==> !r.saves && r.state.currentQuestion == now.currentQuestion + 1
    ensures captured.currentQuestion + 1 >= |Bank| ==> r.saves && r.state.currentQuestion == now.currentQuestion
  {
    var cleared := now.(pendingAdvance := false);
    if captured.currentQuestion < |Bank| - 1 then
      Step(cleared.(currentQuestion := now.currentQuestion + 1, timeLeft := QuestionTime, selectedAnswer := ""), false)
    else
      Step(cleared.(showResult := true), true)
  }

  /** When no transition moved the session between the answer and its callback, the
      callback as written is the model's `Advanced`. */
  lemma StaleAdvanceAgrees(captured: SessionState, now: SessionState)
    requires now.currentQuestion == captured.currentQuestion
    ensures StaleAdvance(captured, now) == Advanced(now)
  {
  }

  /** Question 9 answered rightly while its clock shows 0: the interval's timeout still
      fires before the advance, counts a mistake for the right answer and moves to question
      10, and then the scheduled advance moves the index past the bank. */
  lemma AnswerAtZeroOverrunsBank()
    ensures var s := SessionState(8, 0, 0, false, "", false, false);
      var raw := FormatInt(Bank[8].answerValue);
      var answered := AnswerSelected(s, raw, None);
      var timedOut := Ticked(answered);
      var advanced := StaleAdvance(s, timedOut.state);
      && Inv(s) && Bank[8].Integer? && IsCorrect(Bank[8], raw, None)
      && answered.pendingAdvance && answered.incorrectAnswers == 0 && !TickAllowed(answered)
      && !timedOut.saves && timedOut.state.incorrectAnswers == 1 && timedOut.state.currentQuestion == 9
      && advanced.state.currentQuestion == |Bank|
  {
    BankShape();
    RightAnswerExists(Bank[8]);
  }
}
