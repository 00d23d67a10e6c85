/** The student-facing quiz routes: the public settings view and the
    verify-otp route that starts an attempt and hands out the questions.
    Randomness is an oracle: `draw(i)` stands for the `Math.random()` value
    drawn when the shuffle reaches position `i`. Token signing is abstract:
    `sign(claims, secret)` stands for the JWT library's `sign`. */
module QuizRoutes {
  import opened Common
  import opened Models
  import opened Storage
  import opened Otp
  import opened OtpService
  import opened AttemptRoutes
  import QuizService

  // ---------------------------------------------------------------------------
  // Shuffling

  /** `shuffleArray(items)`: a Fisher–Yates pass over a copy of `items`. At
      position `i` the swap partner is `floor(Math.random() * (i + 1))`, here
      the oracle value `draw(i)` brought into `0..i`. */
  method ShuffleArray<T>(items: seq<T>, draw: nat -> nat) returns (r: seq<T>)
    ensures |r| == |items|
    ensures multiset(r) == multiset(items)
    ensures (forall i: nat :: 0 < i < |items| ==> draw(i) % (i + 1) == i) ==> r == items
  {
    var arr := new T[|items|](k requires 0 <= k < |items| => items[k]);
    assert arr[..] == items;
    ghost var keeps := forall n: nat :: 0 < n < |items| ==> draw(n) % (n + 1) == n;
    var i := |items| - 1;
    while i > 0
      invariant -1 <= i < |items| && arr.Length == |items|
      invariant multiset(arr[..]) == multiset(items)
      invariant keeps ==> arr[..] == items
    {
      ghost var before := arr[..];
      var j := draw(i) % (i + 1);
      arr[i], arr[j] := arr[j], arr[i];
      assert arr[..] == Swapped(before, i, j);
      SwapPermutes(before, i, j);
      i := i - 1;
    }
    r := arr[..];
  }

  /** `s` with the elements at `i` and `j` exchanged. */
  ghost function Swapped<T>(s: seq<T>, i: nat, j: nat): seq<T>
    requires i < |s| && j < |s|
  {
    s[i := s[j]][j := s[i]]
  }

  /** A swap only reorders; swapping a position with itself changes nothing. */
  lemma SwapPermutes<T>(s: seq<T>, i: nat, j: nat)
    requires i < |s| && j < |s|
    ensures |Swapped(s, i, j)| == |s|
    ensures multiset(Swapped(s, i, j)) == multiset(s)
    ensures i == j ==> Swapped(s, i, j) == s
  {
  }

  // ---------------------------------------------------------------------------
  // GET /:quizId/public

  /** What the public settings route reports about a quiz. */
  datatype PublicQuiz = PublicQuiz(
    title: string,
    questionTimeSeconds: int,
    enableWebcamSnapshots: bool,
    enableFaceCentering: bool,
    enableSecondCam: bool,
    mobileAllowed: bool)

  /** The question time a student is shown: a zero (unset) time reads as 35 s. */
  function ShownQuestionTime(stored: int): (r: int)
    ensures r != 0
    ensures stored != 0 ==> r == stored
  {
    if stored != 0 then stored else 35
  }

  /** `GET /:quizId/public`. */
  function PublicView(quizzes: seq<Quiz>, quizId: Id): (r: Result<PublicQuiz>)
    ensures r.Err? <==> QuizOf(quizzes, quizId).None?
    ensures r.Err? ==> r.error == QuizService.QuizNotFound
    ensures r.Ok? ==>
      var q := QuizOf(quizzes, quizId).value;
      && r.value.title == q.title
      && r.value.questionTimeSeconds == ShownQuestionTime(q.settings.questionTimeSeconds)
      && r.value.enableSecondCam == q.settings.enableSecondCam
      && r.value.mobileAllowed == q.settings.mobileAllowed
  {
    match QuizOf(quizzes, quizId)
    case None => Err(QuizService.QuizNotFound)
    case Some(q) =>
      var s := q.settings;
      Ok(PublicQuiz(q.title, ShownQuestionTime(s.questionTimeSeconds), s.enableWebcamSnapshots,
                    s.enableFaceCentering, s.enableSecondCam, s.mobileAllowed))
  }

  /** A quiz created without settings shows the schema defaults publicly:
      35 seconds per question, mobile devices allowed, no cameras. */
  lemma NewQuizPublicDefaults(quizzes: seq<Quiz>, id: Id, instructorId: Id,
                              payload: QuizService.QuizPayload, parse: string -> Option<int>)
    requires payload.title.Some? && payload.settings.None?
    requires QuizOf(quizzes, id) == Some(QuizService.NewQuiz(id, instructorId, payload, parse))
    ensures var v := PublicView(quizzes, id).value;
      && v.questionTimeSeconds == 35 && v.mobileAllowed
      && !v.enableWebcamSnapshots && !v.enableSecondCam && !v.enableFaceCentering
  {
    QuizService.NewQuizSettings(id, instructorId, payload, parse);
  }

  // ---------------------------------------------------------------------------
  // POST /:quizId/verify-otp

  /** The settings the quiz player receives. */
  datatype PlayerSettings = PlayerSettings(
    questionTimeSeconds: int,
    showScoreToStudent: bool,
    requireFullscreen: bool,
    logSuspiciousActivity: bool,
    enableWebcamSnapshots: bool,
    enableFaceCentering: bool,
    enableSecondCam: bool,
    mobileAllowed: bool,
    totalTimeSeconds: Option<int>)

  /** A question as the player sees it: no correct answer. */
  datatype QuestionView = QuestionView(id: Id, text: string, options: seq<string>)

  datatype StartResponse = StartResponse(
    attemptId: Id,
    title: string,
    settings: PlayerSettings,
    secondCamToken: Option<string>,
    questions: seq<QuestionView>)

  const NoQuestions := Error(400, "No questions uploaded for this quiz")

  /** The player settings: copied through, except that a zero total time
      (`totalTimeSeconds || null`) means no overall limit. */
  function PlayerSettingsOf(s: QuizSettings): (r: PlayerSettings)
    ensures r.totalTimeSeconds.None? <==> s.totalTimeSeconds.None? || s.totalTimeSeconds.value == 0
    ensures r.totalTimeSeconds.Some? ==> r.totalTimeSeconds == s.totalTimeSeconds
    ensures r.questionTimeSeconds == s.questionTimeSeconds && r.enableSecondCam == s.enableSecondCam
  {
    PlayerSettings(s.questionTimeSeconds, s.showScoreToStudent, s.requireFullscreen,
                   s.logSuspiciousActivity, s.enableWebcamSnapshots, s.enableFaceCentering,
                   s.enableSecondCam, s.mobileAllowed,
                   if s.totalTimeSeconds.Some? && s.totalTimeSeconds.value != 0 then s.totalTimeSeconds else None)
  }

  /** The claims a second-camera token carries for `attemptId`. */
  function SecondCamClaims(attemptId: Id): TokenClaims {
    TokenClaims(Some(attemptId), Some("second_cam"))
  }

  /** The second-camera token handed out with a new attempt. */
  function SecondCamToken(s: QuizSettings, attemptId: Id, secret: string,
                          sign: (TokenClaims, string) -> string): (r: Option<string>)
    ensures r.Some? <==> s.enableSecondCam && secret != ""
  {
    if s.enableSecondCam && secret != "" then Some(sign(SecondCamClaims(attemptId), secret)) else None
  }

  /** A token handed out at the start of an attempt opens the second camera
      of that attempt, provided signing and verification agree on it and the
      signed token is not empty. */
  lemma IssuedTokenOpensCamera(s: QuizSettings, attemptId: Id, secret: string,
                               sign: (TokenClaims, string) -> string,
                               decode: (string, string) -> Option<TokenClaims>)
    requires SecondCamToken(s, attemptId, secret, sign).Some?
    requires sign(SecondCamClaims(attemptId), secret) != ""
    requires decode(sign(SecondCamClaims(attemptId), secret), secret) == Some(SecondCamClaims(attemptId))
    ensures VerifySecondCamToken(SecondCamToken(s, attemptId, secret, sign).value, attemptId, secret, decode)
  {
  }

  /** `views` presents `qs` one by one: same ids and texts, and options that
      are a permutation of the stored ones, unchanged unless `shuffled`. */
  ghost predicate Presents(views: seq<QuestionView>, qs: seq<Question>, shuffled: bool) {
    && |views| == |qs|
    && forall k :: 0 <= k < |qs| ==>
         && views[k].id == qs[k].id && views[k].text == qs[k].text
         && multiset(views[k].options) == multiset(qs[k].options)
         && (!shuffled ==> views[k].options == qs[k].options)
  }

  /** `views` hand out every stored question exactly once: in some order,
      which is the stored one unless the questions are shuffled. */
  ghost predicate ServedFrom(views: seq<QuestionView>, stored: seq<Question>, s: QuizSettings) {
    exists order: seq<Question> ::
      && multiset(order) == multiset(stored)
      && (!s.shuffleQuestions ==> order == stored)
      && Presents(views, order, s.shuffleOptions)
  }

  /** The `questions.map(...)` of the response; the `k`-th question's options
      are shuffled with the draws `draw(k)`. */
  method PresentQuestions(qs: seq<Question>, shuffleOptions: bool, draw: nat -> nat -> nat)
    returns (views: seq<QuestionView>)
    ensures Presents(views, qs, shuffleOptions)
  {
    views := [];
    for k := 0 to |qs|
      invariant Presents(views, qs[..k], shuffleOptions)
    {
      var options := qs[k].options;
      if shuffleOptions {
        options := ShuffleArray(options, draw(k));
      }
      views := views + [QuestionView(qs[k].id, qs[k].text, options)];
    }
    assert qs[..|qs|] == qs;
  }

  /** The request starts an attempt: the quiz and invitation admit it, the
      code matches and the student is eligible. */
  ghost predicate Admits(d: DbState, hash: string -> string, quizIdOrCode: string, email: string,
                         otp: string, now: int)
  {
    && GateFor(d, quizIdOrCode, email, now).Pass?
    && VerifyOtp(hash, InvitationOf(d, quizIdOrCode, email).value.otpCodeHash, otp) == Some(true)
    && Eligibility(d, QuizMatch(d, quizIdOrCode).value, email).Pass?
  }

  /** `POST /:quizId/verify-otp`. The attempt is created before the questions
      are looked up, so a quiz without questions answers 400 and keeps the new
      in-progress attempt. */
  method VerifyOtpRoute(st: Store, quizIdOrCode: string, email: string, otp: string, now: int,
                        secret: string, sign: (TokenClaims, string) -> string,
                        questionDraw: nat -> nat, optionDraw: nat -> nat -> nat)
    returns (r: Result<StartResponse>)
    requires st.Valid()
    modifies st
    ensures st.Valid()
    ensures st.quizzes == old(st.quizzes) && st.questions == old(st.questions)
    ensures !Admits(old(st.Db()), st.hash, quizIdOrCode, email, otp, now) ==>
      r.Err? && st.attempts == old(st.attempts)
    ensures Admits(old(st.Db()), st.hash, quizIdOrCode, email, otp, now) ==>
      var quiz := QuizMatch(old(st.Db()), quizIdOrCode).value;
      var stored := QuestionsOf(st.questions, quiz.id);
      && |st.attempts| == |old(st.attempts)| + 1
      && st.attempts[..|old(st.attempts)|] == old(st.attempts)
      && var a := st.attempts[|old(st.attempts)|];
      && a.id !in old(st.usedIds) && a.quizId == quiz.id && a.status == InProgress
      && (stored == [] ==> r == Err(NoQuestions))
      && (stored != [] ==>
            && r.Ok? && r.value.attemptId == a.id && r.value.title == quiz.title
            && r.value.settings == PlayerSettingsOf(quiz.settings)
            && (r.value.secondCamToken.Some? <==> quiz.settings.enableSecondCam && secret != "")
            && r.value.secondCamToken == SecondCamToken(quiz.settings, a.id, secret, sign)
            && ServedFrom(r.value.questions, stored, quiz.settings))
  {
    var started := VerifyOtpAndStart(st, quizIdOrCode, email, otp, now);
    if started.Err? {
      return Err(started.error);
    }
    var quiz := started.value.quiz;
    var attempt := started.value.attempt;
    assert st.attempts[..|old(st.attempts)|] == old(st.attempts);
    r := StartResponseFor(st, quiz, attempt.id, secret, sign, questionDraw, optionDraw);
  }

  /** The answer once the attempt is started: 400 when the quiz has no
      questions, otherwise the quiz's title, player settings, camera token and
      its questions, shuffled as its settings say. */
  method StartResponseFor(st: Store, quiz: Quiz, attemptId: Id, secret: string,
                          sign: (TokenClaims, string) -> string,
                          questionDraw: nat -> nat, optionDraw: nat -> nat -> nat)
    returns (r: Result<StartResponse>)
    ensures var stored := QuestionsOf(st.questions, quiz.id);
      && (stored == [] ==> r == Err(NoQuestions))
      && (stored != [] ==>
            && r.Ok? && r.value.attemptId == attemptId && r.value.title == quiz.title
            && r.value.settings == PlayerSettingsOf(quiz.settings)
            && (r.value.secondCamToken.Some? <==> quiz.settings.enableSecondCam && secret != "")
            && r.value.secondCamToken == SecondCamToken(quiz.settings, attemptId, secret, sign)
            && ServedFrom(r.value.questions, stored, quiz.settings))
  {
    var stored := QuestionsOf(st.questions, quiz.id);
    if |stored| == 0 {
      return Err(NoQuestions);
    }
    var order := stored;
    if quiz.settings.shuffleQuestions {
      order := ShuffleArray(stored, questionDraw);
    }
    var token := SecondCamToken(quiz.settings, attemptId, secret, sign);
    var views := PresentQuestions(order, quiz.settings.shuffleOptions, optionDraw);
    assert ServedFrom(views, stored, quiz.settings);
    r := Ok(StartResponse(attemptId, quiz.title, PlayerSettingsOf(quiz.settings), token, views));
  }

  /** Every question of the quiz is handed out: as many questions as are
      stored, with exactly the stored ids (so, the stored ids being unique,
      each one exactly once). */
  lemma ServedOnce(views: seq<QuestionView>, stored: seq<Question>, s: QuizSettings, id: Id)
    requires ServedFrom(views, stored, s)
    ensures |views| == |stored|
    ensures (exists k :: 0 <= k < |views| && views[k].id == id) <==>
            (exists k :: 0 <= k < |stored| && stored[k].id == id)
  {
    var order :| multiset(order) == multiset(stored) && (!s.shuffleQuestions ==> order == stored)
                 && Presents(views, order, s.shuffleOptions);
    assert |order| == |multiset(order)| == |multiset(stored)| == |stored|;
    if k :| 0 <= k < |views| && views[k].id == id {
      assert order[k] in multiset(stored);
      var j :| 0 <= j < |stored| && stored[j] == order[k];
    }
    if j :| 0 <= j < |stored| && stored[j].id == id {
      assert stored[j] in multiset(order);
      var k :| 0 <= k < |order| && order[k] == stored[j];
      assert views[k].id == id;
    }
  }
}
