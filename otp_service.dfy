/** Starting an attempt with a one-time code: the quiz is found by id or code,
    the invitation by e-mail, the code is checked against its digest, and on
    success the invitation is marked verified and a new attempt begins. */
module OtpService {
  import opened Common
  import opened Models
  import opened Storage
  import opened Otp

  // ---------------------------------------------------------------------------
  // The checks made before the code is compared

  /** The quiz's availability window, both ends included; an unset end is open. */
  predicate InWindow(s: QuizSettings, now: int) {
    (s.startAt.None? || s.startAt.value <= now) && (s.endAt.None? || now <= s.endAt.value)
  }

  /** Every check before the code comparison passes: the quiz exists and is
      neither closed nor a draft, the invitation exists, the window is open,
      the code has not expired and the attempt ceiling has not been reached. */
  predicate Admissible(quiz: Option<Quiz>, inv: Option<Invitation>, now: int) {
    && quiz.Some? && quiz.value.status != Closed && quiz.value.status != Draft
    && inv.Some?
    && InWindow(quiz.value.settings, now)
    && now <= inv.value.otpExpiresAt
    && inv.value.otpAttempts < inv.value.maxOtpAttempts
  }

  /** The guards in the order the service applies them; the first that fails
      decides the error. */
  function Gate(quiz: Option<Quiz>, inv: Option<Invitation>, now: int): (r: Outcome)
    ensures r == Pass <==> Admissible(quiz, inv, now)
    ensures quiz.Some? && (quiz.value.status == Closed || quiz.value.status == Draft) ==>
      r.Fail? && r.error.status == 403
    ensures inv.Some? && inv.value.otpAttempts >= inv.value.maxOtpAttempts ==> r.Fail?
  {
    if quiz.None? then Fail(Error(404, "Quiz not found"))
    else if quiz.value.status == Closed then Fail(Error(403, "Quiz is closed"))
    else if quiz.value.status == Draft then Fail(Error(403, "Quiz is not published yet"))
    else if inv.None? then Fail(Error(404, "Invitation not found"))
    else if quiz.value.settings.startAt.Some? && now < quiz.value.settings.startAt.value then
      Fail(Error(403, "Quiz has not started yet"))
    else if quiz.value.settings.endAt.Some? && now > quiz.value.settings.endAt.value then
      Fail(Error(403, "Quiz has ended"))
    else if inv.value.otpExpiresAt < now then Fail(Error(400, "OTP expired"))
    else if inv.value.otpAttempts >= inv.value.maxOtpAttempts then Fail(Error(429, "OTP attempts exceeded"))
    else Pass
  }

  /** The window opens at `startAt` and still admits at `endAt`; a code is still
      good at the instant it expires. */
  lemma WindowIsInclusive(quiz: Quiz, inv: Invitation)
    requires quiz.status == Published && inv.otpAttempts < inv.maxOtpAttempts
    requires quiz.settings.startAt.Some? && quiz.settings.endAt.Some?
    requires quiz.settings.startAt.value <= quiz.settings.endAt.value <= inv.otpExpiresAt
    ensures Gate(Some(quiz), Some(inv), quiz.settings.startAt.value) == Pass
    ensures Gate(Some(quiz), Some(inv), quiz.settings.endAt.value) == Pass
    ensures Gate(Some(quiz), Some(inv.(otpExpiresAt := quiz.settings.endAt.value)), quiz.settings.endAt.value) == Pass
  {
  }

  /** Only the closed and draft statuses turn a start away: a quiz holding a
      status text outside the enum admits like a published one. */
  lemma UnlistedStatusAdmits(quiz: Quiz, inv: Invitation, now: int)
    requires quiz.status.Unlisted?
    ensures Gate(Some(quiz), Some(inv), now) == Gate(Some(quiz.(status := Published)), Some(inv), now)
  {
  }

  /** An expired code is reported as expired even once the attempt ceiling is
      reached: expiry is checked first. */
  lemma ExpiryReportedBeforeCeiling(quiz: Quiz, inv: Invitation, now: int)
    requires quiz.status == Published && InWindow(quiz.settings, now)
    requires inv.otpExpiresAt < now
    ensures Gate(Some(quiz), Some(inv), now) == Fail(Error(400, "OTP expired"))
  {
  }

  // ---------------------------------------------------------------------------
  // Guessing

  /** The invitation after a call at `now` with a wrong code: the counter rises
      only when the call gets as far as the comparison. */
  function AfterWrongCode(quiz: Option<Quiz>, inv: Invitation, now: int): (r: Invitation)
    ensures r.Key() == inv.Key() && r.otpCodeHash == inv.otpCodeHash
    ensures r.otpAttempts == inv.otpAttempts + (if Gate(quiz, Some(inv), now) == Pass then 1 else 0)
  {
    if Gate(quiz, Some(inv), now) == Pass then inv.(otpAttempts := inv.otpAttempts + 1) else inv
  }

  /** How many of a run of wrong-code calls, made at the instants `times`, get
      their code compared. */
  function Comparisons(quiz: Option<Quiz>, inv: Invitation, times: seq<int>): nat
    decreases |times|
  {
    if times == [] then 0
    else (if Gate(quiz, Some(inv), times[0]) == Pass then 1 else 0)
         + Comparisons(quiz, AfterWrongCode(quiz, inv, times[0]), times[1..])
  }

  /** However the calls are spread in time, at most `maxOtpAttempts -
      otpAttempts` wrong codes are ever compared against one issued code. */
  lemma {:induction false} GuessBound(quiz: Option<Quiz>, inv: Invitation, times: seq<int>)
    ensures Comparisons(quiz, inv, times) <= Max(0, inv.maxOtpAttempts - inv.otpAttempts)
    decreases |times|
  {
    if times != [] {
      GuessBound(quiz, AfterWrongCode(quiz, inv, times[0]), times[1..]);
    }
  }

  /** A successful start resets the counter and leaves the same code usable:
      a code is not consumed by being used. */
  lemma CodeStaysUsable(quiz: Quiz, inv: Invitation, now: int)
    requires Gate(Some(quiz), Some(inv), now) == Pass && 0 <= inv.otpAttempts
    ensures Gate(Some(quiz), Some(inv.(verifiedAt := Some(now), otpAttempts := 0)), now) == Pass
  {
  }

  // ---------------------------------------------------------------------------
  // The checks made after the code is accepted

  /** A completed attempt by `email` at the quiz exists. */
  predicate HasCompleted(attempts: seq<Attempt>, quizId: Id, email: string) {
    exists k :: 0 <= k < |attempts| && attempts[k].quizId == quizId
                && attempts[k].studentEmail == email && attempts[k].status == Completed
  }

  /** The roster and single-attempt checks. */
  function Eligibility(d: DbState, quiz: Quiz, email: string): (r: Outcome)
    ensures r == Pass <==>
      && (quiz.settings.requireStudentListMatch ==> FindStudent(d.students, quiz.id, email).Some?)
      && (quiz.settings.allowMultipleAttempts || !HasCompleted(d.attempts, quiz.id, email))
  {
    if FindStudent(d.students, quiz.id, email).None? && quiz.settings.requireStudentListMatch then
      Fail(Error(403, "Student not found"))
    else if !quiz.settings.allowMultipleAttempts && HasCompleted(d.attempts, quiz.id, email) then
      Fail(Error(403, "Attempt already completed"))
    else Pass
  }

  // ---------------------------------------------------------------------------
  // Lookups in a store state

  function QuizMatch(d: DbState, x: string): Option<Quiz> {
    match FindQuizByIdOrCode(d.quizzes, x)
    case None => None
    case Some(i) => Some(d.quizzes[i])
  }

  /** The position of the invitation the service uses, when the quiz is found. */
  function SlotOf(d: DbState, x: string, email: string): (r: Option<nat>)
    ensures r.Some? ==> r.value < |d.invitations|
  {
    match QuizMatch(d, x)
    case None => None
    case Some(q) => FindInvitationByEmail(d.invitations, q.id, email)
  }

  function InvitationOf(d: DbState, x: string, email: string): Option<Invitation> {
    match SlotOf(d, x, email)
    case None => None
    case Some(i) => Some(d.invitations[i])
  }

  function GateFor(d: DbState, x: string, email: string, now: int): Outcome {
    Gate(QuizMatch(d, x), InvitationOf(d, x, email), now)
  }

  /** The attempt a successful start creates: it names the student on the
      roster when there is one (falling back to the e-mail for an empty name)
      and refers to the invitation slot it was admitted through. */
  function StartedAttempt(students: seq<Student>, quiz: Quiz, inv: Invitation, email: string, id: Id, now: int): (a: Attempt)
    ensures a.id == id && a.quizId == quiz.id && a.studentEmail == email && a.startedAt == now
    ensures a.status == InProgress && a.score == EmptyScore && a.flags.suspiciousEventsCount == 0
    ensures a.inviteKey == Some(inv.Key())
    ensures a.studentId.Some? <==> FindStudent(students, quiz.id, email).Some?
    ensures a.studentName != ""  || email == ""
  {
    match FindStudent(students, quiz.id, email)
    case None => NewAttempt(id, quiz.id, None, Some(inv.Key()), email, email, now)
    case Some(i) =>
      var s := students[i];
      NewAttempt(id, quiz.id, Some(s.id), Some(inv.Key()), if s.name != "" then s.name else email, email, now)
  }

  datatype Started = Started(quiz: Quiz, attempt: Attempt)

  /** The quiz and the invitation slot a call is admitted with. */
  datatype Admitted = Admitted(quiz: Quiz, slot: nat)

  /** The lookups and guards before the code comparison, in the service's
      order; on a pass, the quiz and the invitation slot they found. */
  method Admit(st: Store, quizIdOrCode: string, email: string, now: int) returns (r: Result<Admitted>)
    ensures r.Err? <==> GateFor(st.Db(), quizIdOrCode, email, now).Fail?
    ensures r.Err? ==> r.error == GateFor(st.Db(), quizIdOrCode, email, now).error
    ensures r.Ok? ==>
      && QuizMatch(st.Db(), quizIdOrCode) == Some(r.value.quiz)
      && SlotOf(st.Db(), quizIdOrCode, email) == Some(r.value.slot)
  {
    ghost var d := st.Db();
    var qi := FindQuizByIdOrCode(st.quizzes, quizIdOrCode);
    if qi.None? {
      return Err(Error(404, "Quiz not found"));
    }
    var quiz := st.quizzes[qi.value];
    assert QuizMatch(d, quizIdOrCode) == Some(quiz);
    if quiz.status == Closed {
      return Err(Error(403, "Quiz is closed"));
    }
    if quiz.status == Draft {
      return Err(Error(403, "Quiz is not published yet"));
    }
    var ii := FindInvitationByEmail(st.invitations, quiz.id, email);
    if ii.None? {
      return Err(Error(404, "Invitation not found"));
    }
    var slot := ii.value;
    var inv := st.invitations[slot];
    assert InvitationOf(d, quizIdOrCode, email) == Some(inv);
    if quiz.settings.startAt.Some? && now < quiz.settings.startAt.value {
      return Err(Error(403, "Quiz has not started yet"));
    }
    if quiz.settings.endAt.Some? && now > quiz.settings.endAt.value {
      return Err(Error(403, "Quiz has ended"));
    }
    if inv.otpExpiresAt < now {
      return Err(Error(400, "OTP expired"));
    }
    if inv.otpAttempts >= inv.maxOtpAttempts {
      return Err(Error(429, "OTP attempts exceeded"));
    }
    return Ok(Admitted(quiz, slot));
  }

  /** The roster and single-attempt checks made once the code is accepted. */
  method CheckEligibility(st: Store, quiz: Quiz, email: string) returns (r: Outcome)
    ensures r == Eligibility(st.Db(), quiz, email)
  {
    var si := FindStudent(st.students, quiz.id, email);
    if si.None? && quiz.settings.requireStudentListMatch {
      return Fail(Error(403, "Student not found"));
    }
    if !quiz.settings.allowMultipleAttempts && HasCompleted(st.attempts, quiz.id, email) {
      return Fail(Error(403, "Attempt already completed"));
    }
    return Pass;
  }

  /** A wrong code: the invitation's attempt counter rises by one. */
  method RecordWrongCode(st: Store, slot: nat)
    requires st.Valid() && slot < |st.invitations|
    modifies st
    ensures st.Valid()
    ensures var inv := old(st.invitations[slot]);
      st.Db() == old(st.Db()).(invitations := old(st.invitations)[slot := inv.(otpAttempts := inv.otpAttempts + 1)])
  {
    var inv := st.invitations[slot];
    ghost var d := st.Db();
    st.invitations := st.invitations[slot := inv.(otpAttempts := inv.otpAttempts + 1)];
    ReplaceInvitationKeepsValid(d, slot, inv.(otpAttempts := inv.otpAttempts + 1));
  }

  /** An accepted code: the invitation is marked verified with its counter
      reset, and a new attempt with a fresh id is stored. */
  method BeginAttempt(st: Store, quiz: Quiz, slot: nat, email: string, now: int) returns (attempt: Attempt)
    requires st.Valid() && slot < |st.invitations|
    modifies st
    ensures st.Valid()
    ensures attempt.id !in old(st.usedIds)
    ensures attempt == StartedAttempt(old(st.students), quiz, old(st.invitations[slot]), email, attempt.id, now)
    ensures var inv := old(st.invitations[slot]);
      st.Db() == old(st.Db()).(invitations := old(st.invitations)[slot := inv.(verifiedAt := Some(now), otpAttempts := 0)],
                               attempts := old(st.attempts) + [attempt],
                               usedIds := old(st.usedIds) + {attempt.id})
  {
    ghost var d := st.Db();
    var inv := st.invitations[slot];
    var inv' := inv.(verifiedAt := Some(now), otpAttempts := 0);
    st.invitations := st.invitations[slot := inv'];
    ReplaceInvitationKeepsValid(d, slot, inv');
    var id := st.FreshId();
    attempt := StartedAttempt(st.students, quiz, inv, email, id, now);
    st.attempts := st.attempts + [attempt];
    AppendAttemptKeepsValid(d.(invitations := d.invitations[slot := inv']), attempt);
  }

  /** `verifyOtpAndStart(quizIdOrCode, email, otp)` at instant `now`. */
  method VerifyOtpAndStart(st: Store, quizIdOrCode: string, email: string, otp: string, now: int)
    returns (r: Result<Started>)
    requires st.Valid()
    modifies st
    ensures st.Valid()
    ensures var d := old(st.Db());
      GateFor(d, quizIdOrCode, email, now).Fail? ==>
        r == Err(GateFor(d, quizIdOrCode, email, now).error) && st.Db() == d
    ensures var d := old(st.Db()); var inv := InvitationOf(d, quizIdOrCode, email);
      GateFor(d, quizIdOrCode, email, now).Pass? && VerifyOtp(st.hash, inv.value.otpCodeHash, otp).None? ==>
        r == Err(Error(500, "Internal server error")) && st.Db() == d
    ensures var d := old(st.Db()); var inv := InvitationOf(d, quizIdOrCode, email);
      GateFor(d, quizIdOrCode, email, now).Pass? && VerifyOtp(st.hash, inv.value.otpCodeHash, otp) == Some(false) ==>
        && r == Err(Error(400, "Invalid OTP"))
        && st.Db() == d.(invitations := d.invitations[SlotOf(d, quizIdOrCode, email).value :=
                           AfterWrongCode(QuizMatch(d, quizIdOrCode), inv.value, now)])
    ensures var d := old(st.Db()); var quiz := QuizMatch(d, quizIdOrCode); var inv := InvitationOf(d, quizIdOrCode, email);
      GateFor(d, quizIdOrCode, email, now).Pass? && VerifyOtp(st.hash, inv.value.otpCodeHash, otp) == Some(true) &&
      Eligibility(d, quiz.value, email).Fail? ==>
        r == Err(Eligibility(d, quiz.value, email).error) && st.Db() == d
    ensures var d := old(st.Db()); var quiz := QuizMatch(d, quizIdOrCode); var inv := InvitationOf(d, quizIdOrCode, email);
      GateFor(d, quizIdOrCode, email, now).Pass? && VerifyOtp(st.hash, inv.value.otpCodeHash, otp) == Some(true) &&
      Eligibility(d, quiz.value, email).Pass? ==>
        && r.Ok? && r.value.quiz == quiz.value
        && r.value.attempt.id !in d.usedIds
        && r.value.attempt == StartedAttempt(d.students, quiz.value, inv.value, email, r.value.attempt.id, now)
        && st.Db() == d.(invitations := d.invitations[SlotOf(d, quizIdOrCode, email).value :=
                                          inv.value.(verifiedAt := Some(now), otpAttempts := 0)],
                         attempts := d.attempts + [r.value.attempt],
                         usedIds := d.usedIds + {r.value.attempt.id})
  {
    ghost var d := st.Db();
    var admitted := Admit(st, quizIdOrCode, email, now);
    if admitted.Err? {
      return Err(admitted.error);
    }
    var quiz, slot := admitted.value.quiz, admitted.value.slot;
    var inv := st.invitations[slot];
    var verdict := VerifyOtp(st.hash, inv.otpCodeHash, otp);
    if verdict.None? {
      return Err(Error(500, "Internal server error"));
    }
    if !verdict.value {
      RecordWrongCode(st, slot);
      return Err(Error(400, "Invalid OTP"));
    }
    var eligible := CheckEligibility(st, quiz, email);
    if eligible.Fail? {
      return Err(eligible.error);
    }
    var attempt := BeginAttempt(st, quiz, slot, email, now);
    return Ok(Started(quiz, attempt));
  }
}
