/** The attempt service: logging a suspicious-activity event against an attempt,
    and finishing an attempt by scoring the submitted answers. */
module AttemptService {
  import opened Common
  import opened Models
  import opened Storage

  /** One submitted answer: the question id as sent, and the chosen option. */
  datatype Answer = Answer(questionId: string, selectedIndex: Option<int>)

  predicate IsHexDigit(c: char) {
    '0' <= c <= '9' || 'a' <= c <= 'f' || 'A' <= c <= 'F'
  }

  /** `Types.ObjectId.isValid` on a string: twelve characters, or twenty-four
      hexadecimal digits. */
  predicate IsObjectIdText(s: string) {
    |s| == 12 || (|s| == 24 && forall i :: 0 <= i < 24 ==> IsHexDigit(s[i]))
  }

  // ---------------------------------------------------------------------------
  // Scoring

  /** Which correctness rule a score applies: the one the code implements, or
      the one it evidently intends. */
  datatype Rule = AsWritten | Intended

  /** `question ? question.correctIndex : -1`. */
  function ExpectedIndex(questions: seq<Question>, qid: string): int {
    match IndexOfKey(questions, QuestionKey, qid)
    case Some(i) => questions[i].correctIndex
    case None => -1
  }

  /** Whether an answer scores. As written, an answer to a question the quiz
      does not have is compared with -1; as intended, it never scores. */
  predicate Judge(rule: Rule, questions: seq<Question>, a: Answer) {
    match rule
    case AsWritten =>
      a.selectedIndex.Some? && a.selectedIndex.value == ExpectedIndex(questions, a.questionId)
    case Intended =>
      IndexOfKey(questions, QuestionKey, a.questionId).Some?
      && a.selectedIndex == Some(ExpectedIndex(questions, a.questionId))
  }

  /** The stored detail of an answer. An id that is not a valid object id is
      replaced by a freshly generated one (`None` here). */
  function DetailFor(a: Answer, correct: bool): AnswerDetail {
    AnswerDetail(if IsObjectIdText(a.questionId) then Some(a.questionId) else None,
                 a.selectedIndex, correct)
  }

  /** One detail per answer, in submission order. */
  function Details(rule: Rule, questions: seq<Question>, answers: seq<Answer>): (r: seq<AnswerDetail>)
    ensures |r| == |answers|
    ensures forall i :: 0 <= i < |answers| ==>
              r[i] == DetailFor(answers[i], Judge(rule, questions, answers[i]))
  {
    if |answers| == 0 then []
    else
      var n := |answers| - 1;
      Details(rule, questions, answers[..n]) + [DetailFor(answers[n], Judge(rule, questions, answers[n]))]
  }

  /** `details.filter(d => d.isCorrect).length`. */
  function CorrectCount(details: seq<AnswerDetail>): nat {
    if |details| == 0 then 0
    else CorrectCount(details[..|details| - 1]) + (if details[|details| - 1].isCorrect then 1 else 0)
  }

  /** The score of a submission against the quiz's questions at finish time. */
  function ScoreBy(rule: Rule, questions: seq<Question>, answers: seq<Answer>): Score {
    var details := Details(rule, questions, answers);
    Score(CorrectCount(details), |questions|, details)
  }

  /** The scoring the code performs. */
  function ScoreAsWritten(questions: seq<Question>, answers: seq<Answer>): Score {
    ScoreBy(AsWritten, questions, answers)
  }

  /** The scoring the code evidently intends; `FinishAttempt` uses it. */
  function ScoreOf(questions: seq<Question>, answers: seq<Answer>): Score {
    ScoreBy(Intended, questions, answers)
  }

  lemma {:induction false} CorrectCountBound(details: seq<AnswerDetail>)
    ensures CorrectCount(details) <= |details|
    ensures CorrectCount(details) == 0 <== forall i :: 0 <= i < |details| ==> !details[i].isCorrect
    decreases |details|
  {
    if |details| > 0 {
      CorrectCountBound(details[..|details| - 1]);
    }
  }

  /** What a score says, under either rule: one detail per answer in order,
      each copying the selected index; a missing selection never scores; the
      total is the number of the quiz's questions whatever was sent; and the
      count of correct answers is at most the number of answers. */
  lemma ScoreShape(rule: Rule, questions: seq<Question>, answers: seq<Answer>)
    ensures var s := ScoreBy(rule, questions, answers);
      && |s.details| == |answers|
      && (forall i :: 0 <= i < |answers| ==> s.details[i].selectedIndex == answers[i].selectedIndex)
      && (forall i :: 0 <= i < |answers| && answers[i].selectedIndex.None? ==> !s.details[i].isCorrect)
      && s.totalQuestions == |questions|
      && s.correctCount <= |answers|
  {
    CorrectCountBound(Details(rule, questions, answers));
  }

  /** Under the intended rule an answer scores exactly when it names one of the
      quiz's questions and selects that question's correct index. */
  lemma IntendedCorrectness(questions: seq<Question>, answers: seq<Answer>, i: nat)
    requires i < |answers|
    ensures ScoreOf(questions, answers).details[i].isCorrect <==>
      exists k :: 0 <= k < |questions| && questions[k].id == answers[i].questionId
               && answers[i].selectedIndex == Some(questions[k].correctIndex)
               && forall j :: 0 <= j < k ==> questions[j].id != answers[i].questionId
  {
  }

  /** As written, an unknown question id with selected index -1 scores: a quiz
      without questions yields one correct answer out of zero questions. */
  lemma UnknownQuestionScoresAsWritten()
    ensures var s := ScoreAsWritten([], [Answer("not-a-question", Some(-1))]);
      s.correctCount == 1 && s.totalQuestions == 0 && s.correctCount > s.totalQuestions
  {
    var answers := [Answer("not-a-question", Some(-1))];
    var d := Details(AsWritten, [], answers);
    assert d[0].isCorrect;
    assert d[..0] == [];
  }

  /** The two rules differ only on answers that select -1 for a question the
      quiz does not have. */
  lemma RulesAgreeElsewhere(questions: seq<Question>, answers: seq<Answer>)
    requires forall i :: 0 <= i < |answers| && answers[i].selectedIndex == Some(-1) ==>
               IndexOfKey(questions, QuestionKey, answers[i].questionId).Some?
    ensures ScoreAsWritten(questions, answers) == ScoreOf(questions, answers)
  {
    var d1 := Details(AsWritten, questions, answers);
    var d2 := Details(Intended, questions, answers);
    assert d1 == d2 by {
      forall i | 0 <= i < |answers| ensures d1[i] == d2[i] {
        assert Judge(AsWritten, questions, answers[i]) == Judge(Intended, questions, answers[i]);
      }
    }
  }

  /** The ids of the answers that score under the intended rule. */
  ghost function ScoringIds(questions: seq<Question>, answers: seq<Answer>): set<string> {
    set i | 0 <= i < |answers| && Judge(Intended, questions, answers[i]) :: answers[i].questionId
  }

  ghost function IdSet(questions: seq<Question>): set<Id> {
    set i | 0 <= i < |questions| :: questions[i].id
  }

  lemma {:induction false} IdSetSize(questions: seq<Question>)
    ensures |IdSet(questions)| <= |questions|
    decreases |questions|
  {
    if |questions| > 0 {
      var n := |questions| - 1;
      IdSetSize(questions[..n]);
      assert IdSet(questions) == IdSet(questions[..n]) + {questions[n].id} by {
        forall x | x in IdSet(questions) ensures x in IdSet(questions[..n]) + {questions[n].id} {
          var i :| 0 <= i < |questions| && questions[i].id == x;
          if i < n {
            assert questions[..n][i] == questions[i];
          }
        }
        forall x | x in IdSet(questions[..n]) ensures x in IdSet(questions) {
          var i :| 0 <= i < n && questions[..n][i].id == x;
          assert questions[i].id == x;
        }
      }
    }
  }

  /** Scoring ids grow by the last answer's id exactly when it scores. */
  lemma ScoringIdsStep(questions: seq<Question>, answers: seq<Answer>)
    requires |answers| > 0
    ensures var n := |answers| - 1;
      ScoringIds(questions, answers) == ScoringIds(questions, answers[..n]) +
        (if Judge(Intended, questions, answers[n]) then {answers[n].questionId} else {})
  {
    var n := |answers| - 1;
    var prefix := answers[..n];
    var before := ScoringIds(questions, prefix);
    var added := if Judge(Intended, questions, answers[n]) then {answers[n].questionId} else {};
    forall x | x in ScoringIds(questions, answers) ensures x in before + added {
      var i :| 0 <= i < |answers| && Judge(Intended, questions, answers[i]) && answers[i].questionId == x;
      if i < n {
        assert prefix[i] == answers[i];
      }
    }
    forall x | x in before ensures x in ScoringIds(questions, answers) {
      var i :| 0 <= i < n && Judge(Intended, questions, prefix[i]) && prefix[i].questionId == x;
      assert answers[i] == prefix[i];
    }
  }

  /** With pairwise different ids, the last answer's id is not among the ids
      that score earlier. */
  lemma LastIdIsNew(questions: seq<Question>, answers: seq<Answer>)
    requires |answers| > 0
    requires forall i, j :: 0 <= i < j < |answers| ==> answers[i].questionId != answers[j].questionId
    ensures answers[|answers| - 1].questionId !in ScoringIds(questions, answers[..|answers| - 1])
  {
    var n := |answers| - 1;
    var prefix := answers[..n];
    forall x | x in ScoringIds(questions, prefix) ensures x != answers[n].questionId {
      var i :| 0 <= i < n && Judge(Intended, questions, prefix[i]) && prefix[i].questionId == x;
      assert prefix[i] == answers[i];
    }
  }

  /** With pairwise different answer ids, the intended count equals the number
      of different ids that score. */
  lemma {:induction false} CountsDistinctIds(questions: seq<Question>, answers: seq<Answer>)
    requires forall i, j :: 0 <= i < j < |answers| ==> answers[i].questionId != answers[j].questionId
    ensures CorrectCount(Details(Intended, questions, answers)) == |ScoringIds(questions, answers)|
    decreases |answers|
  {
    if |answers| > 0 {
      var n := |answers| - 1;
      var prefix := answers[..n];
      CountsDistinctIds(questions, prefix);
      var d := Details(Intended, questions, answers);
      assert d[..n] == Details(Intended, questions, prefix);
      assert CorrectCount(d) == CorrectCount(d[..n]) + (if d[n].isCorrect then 1 else 0);
      assert d[n].isCorrect == Judge(Intended, questions, answers[n]);
      LastIdIsNew(questions, answers);
      ScoringIdsStep(questions, answers);
    }
  }

  /** The evidently intended bound: when no question is answered twice, the
      number of correct answers never exceeds the number of questions. */
  lemma ScoreWithinQuestions(questions: seq<Question>, answers: seq<Answer>)
    requires forall i, j :: 0 <= i < j < |answers| ==> answers[i].questionId != answers[j].questionId
    ensures ScoreOf(questions, answers).correctCount <= ScoreOf(questions, answers).totalQuestions
  {
    CountsDistinctIds(questions, answers);
    ScoringIdsAreQuestions(questions, answers);
    SubsetSize(ScoringIds(questions, answers), IdSet(questions));
    IdSetSize(questions);
  }

  /** Under the intended rule only the quiz's own questions score. */
  lemma ScoringIdsAreQuestions(questions: seq<Question>, answers: seq<Answer>)
    ensures ScoringIds(questions, answers) <= IdSet(questions)
  {
    forall x | x in ScoringIds(questions, answers) ensures x in IdSet(questions) {
      var i :| 0 <= i < |answers| && Judge(Intended, questions, answers[i]) && answers[i].questionId == x;
      var k := IndexOfKey(questions, QuestionKey, x).value;
      assert questions[k].id == x;
    }
  }

  lemma SubsetSize<T>(part: set<T>, all: set<T>)
    requires part <= all
    ensures |part| <= |all|
  {
    assert all == part + (all - part);
    assert |all| == |part| + |all - part|;
  }

  // ---------------------------------------------------------------------------
  // Store operations

  const AttemptNotFound := Error(404, "Attempt not found")

  /** `recordEvent(attemptId, type, message)` at instant `now`. The type comes
      from the request body unchecked (`None` when absent); the event schema
      requires it, so a missing or empty type makes `Event.create` fail before
      the counter is raised. */
  method RecordEvent(st: Store, attemptId: Id, kind: Option<string>, message: Option<string>, now: int)
    returns (r: Outcome)
    requires st.Valid()
    modifies st
    ensures st.Valid()
    ensures old(st.AttemptIndex(attemptId)).None? ==>
              r == Fail(AttemptNotFound) && st.Db() == old(st.Db())
    ensures old(st.AttemptIndex(attemptId)).Some? ==>
      var i := old(st.AttemptIndex(attemptId)).value;
      var a := old(st.attempts[i]);
      if a.status != InProgress then r == Pass && st.Db() == old(st.Db())
      else if kind.None? || kind.value == "" then
        r == Fail(Error(500, "Internal server error")) && st.Db() == old(st.Db())
      else
        && r == Pass
        && st.Db() == old(st.Db()).(
             events := old(st.events) + [Event(a.quizId, a.id, kind.value, message, now)],
             attempts := old(st.attempts)[i := a.(flags := a.flags.(suspiciousEventsCount := a.flags.suspiciousEventsCount + 1))])
  {
    var found := st.AttemptIndex(attemptId);
    if found.None? {
      return Fail(AttemptNotFound);
    }
    var i := found.value;
    var a := st.attempts[i];
    if a.status != InProgress {
      return Pass;
    }
    if kind.None? || kind.value == "" {
      return Fail(Error(500, "Internal server error"));
    }
    ghost var d := st.Db();
    var e := Event(a.quizId, a.id, kind.value, message, now);
    var a' := a.(flags := a.flags.(suspiciousEventsCount := a.flags.suspiciousEventsCount + 1));
    st.events := st.events + [e];
    st.attempts := st.attempts[i := a'];
    RecordEventKeepsValid(d, i, e, a');
    return Pass;
  }

  lemma RecordEventKeepsValid(d: DbState, i: nat, e: Event, a': Attempt)
    requires DbValid(d) && i < |d.attempts|
    requires e.attemptId == d.attempts[i].id && e.quizId == d.attempts[i].quizId
    requires a' == d.attempts[i].(flags := d.attempts[i].flags.(
                     suspiciousEventsCount := d.attempts[i].flags.suspiciousEventsCount + 1))
    ensures DbValid(d.(events := d.events + [e], attempts := d.attempts[i := a']))
  {
    var atts := d.attempts[i := a'];
    var evs := d.events + [e];
    forall k | 0 <= k < |atts| ensures atts[k].flags.suspiciousEventsCount == EventCount(evs, atts[k].id) {
      EventCountAppend(d.events, e, atts[k].id);
      if k != i {
        assert d.attempts[k].id != d.attempts[i].id;
      }
    }
    forall x | 0 <= x < |evs| ensures Owned(atts, evs[x]) {
      if x == |d.events| {
        assert atts[i].id == evs[x].attemptId && atts[i].quizId == evs[x].quizId;
      } else {
        assert evs[x] == d.events[x];
        OwnedSameKeys(d.attempts, atts, d.events[x]);
      }
    }
  }

  /** What `finishAttempt` returns. */
  datatype Tally = Tally(correctCount: int, totalQuestions: int)

  /** `finishAttempt(attemptId, answers)` at instant `now`: scores an attempt
      in progress, completes it and returns its tally. */
  method FinishAttempt(st: Store, attemptId: Id, answers: seq<Answer>, now: int)
    returns (r: Result<Tally>)
    requires st.Valid()
    modifies st
    ensures st.Valid()
    ensures old(st.AttemptIndex(attemptId)).None? ==>
              r == Err(AttemptNotFound) && st.Db() == old(st.Db())
    ensures old(st.AttemptIndex(attemptId)).Some? &&
            old(st.attempts[st.AttemptIndex(attemptId).value]).status != InProgress ==>
              r == Err(Error(403, "Attempt already ended")) && st.Db() == old(st.Db())
    ensures old(st.AttemptIndex(attemptId)).Some? &&
            old(st.attempts[st.AttemptIndex(attemptId).value]).status == InProgress ==>
      var i := old(st.AttemptIndex(attemptId)).value;
      var a := old(st.attempts[i]);
      var score := ScoreOf(QuestionsOf(old(st.questions), a.quizId), answers);
      && r == Ok(Tally(score.correctCount, score.totalQuestions))
      && st.Db() == old(st.Db()).(attempts := old(st.attempts)[i :=
           a.(score := score, status := Completed, submittedAt := Some(now))])
  {
    var found := st.AttemptIndex(attemptId);
    if found.None? {
      return Err(AttemptNotFound);
    }
    var i := found.value;
    var a := st.attempts[i];
    if a.status != InProgress {
      return Err(Error(403, "Attempt already ended"));
    }
    var questions := QuestionsOf(st.questions, a.quizId);
    var score := ScoreOf(questions, answers);
    ghost var d := st.Db();
    var a' := a.(score := score, status := Completed, submittedAt := Some(now));
    st.attempts := st.attempts[i := a'];
    ReplaceAttemptKeepsValid(d, i, a');
    return Ok(Tally(score.correctCount, score.totalQuestions));
  }
}
