/** The stored documents: quizzes and their settings, questions, students,
    invitations, attempts with their score and flags, suspicious-activity events,
    phase snapshots, second-camera sessions and snapshots, and audit entries,
    together with the status enumerations and the defaults the schemas fill in. */
module Models {
  import opened Common

  // ---------------------------------------------------------------------------
  // Enumerations

  /** The schema's enum lists draft, published and closed, but the update
      paths run no validators, so a quiz can hold any status text;
      `Unlisted` carries text outside the enum. */
  datatype QuizStatus = Draft | Published | Closed | Unlisted(name: string)

  /** `Expired` is declared by the schema but no operation ever assigns it. */
  datatype AttemptStatus = InProgress | Completed | ForciblyEnded | Expired

  datatype Phase = Start | Middle | End

  function PhaseName(p: Phase): string {
    match p
    case Start => "start"
    case Middle => "middle"
    case End => "end"
  }

  /** The membership test `["start", "middle", "end"].includes(phase)`. */
  function ParsePhase(s: string): (r: Option<Phase>)
    ensures r.Some? <==> (s == "start" || s == "middle" || s == "end")
    ensures r.Some? ==> PhaseName(r.value) == s
  {
    if s == "start" then Some(Start)
    else if s == "middle" then Some(Middle)
    else if s == "end" then Some(End)
    else None
  }

  function AttemptStatusName(s: AttemptStatus): string {
    match s
    case InProgress => "in_progress"
    case Completed => "completed"
    case ForciblyEnded => "forcibly_ended"
    case Expired => "expired"
  }

  function QuizStatusName(s: QuizStatus): string {
    match s
    case Draft => "draft"
    case Published => "published"
    case Closed => "closed"
    case Unlisted(name) => name
  }

  /** A status as stored from request text: the enum's three names, or the
      text itself. */
  function ParseStatus(text: string): (r: QuizStatus)
    ensures QuizStatusName(r) == text
    ensures r.Unlisted? <==> (text != "draft" && text != "published" && text != "closed")
  {
    if text == "draft" then Draft
    else if text == "published" then Published
    else if text == "closed" then Closed
    else Unlisted(text)
  }

  /** A status whose name is its own (an `Unlisted` text is none of the
      enum's names) is what `ParseStatus` makes of that name. */
  lemma ParseStatusName(s: QuizStatus)
    requires s.Unlisted? ==> s.name != "draft" && s.name != "published" && s.name != "closed"
    ensures ParseStatus(QuizStatusName(s)) == s
  {
  }

  // ---------------------------------------------------------------------------
  // Quiz and its settings (instants are milliseconds since the epoch)

  datatype QuizSettings = QuizSettings(
    questionTimeSeconds: int,
    totalTimeSeconds: Option<int>,
    startAt: Option<int>,
    endAt: Option<int>,
    shuffleQuestions: bool,
    shuffleOptions: bool,
    requireFullscreen: bool,
    logSuspiciousActivity: bool,
    enableWebcamSnapshots: bool,
    enableFaceCentering: bool,
    allowMultipleAttempts: bool,
    showScoreToStudent: bool,
    mobileAllowed: bool,
    requireStudentListMatch: bool,
    /** Read by the routes but declared by neither the settings interface nor the
        schema; an absent value reads as false. */
    enableSecondCam: bool)

  /** The settings a new quiz gets for every key its payload leaves out. */
  const DefaultSettings := QuizSettings(
    questionTimeSeconds := 35,
    totalTimeSeconds := None,
    startAt := None,
    endAt := None,
    shuffleQuestions := true,
    shuffleOptions := true,
    requireFullscreen := false,
    logSuspiciousActivity := true,
    enableWebcamSnapshots := false,
    enableFaceCentering := false,
    allowMultipleAttempts := false,
    showScoreToStudent := false,
    mobileAllowed := true,
    requireStudentListMatch := false,
    enableSecondCam := false)

  /** A date as a request body carries it: null, a number of milliseconds, or text
      still to be parsed. */
  datatype RawDate = NullDate | NumberDate(ms: int) | TextDate(text: string)

  /** JavaScript truthiness of a raw date value. */
  predicate RawDateTruthy(d: RawDate) {
    match d
    case NullDate => false
    case NumberDate(ms) => ms != 0
    case TextDate(t) => t != ""
  }

  /** The instant a raw date is stored as; text cannot reach the store because
      settings are normalized first. */
  function StoredDate(d: RawDate): Option<int> {
    match d
    case NumberDate(ms) => Some(ms)
    case _ => None
  }

  /** A partial settings object from a request payload: `None` marks a key the
      payload does not supply. */
  datatype SettingsPatch = SettingsPatch(
    questionTimeSeconds: Option<int>,
    totalTimeSeconds: Option<Option<int>>,
    startAt: Option<RawDate>,
    endAt: Option<RawDate>,
    shuffleQuestions: Option<bool>,
    shuffleOptions: Option<bool>,
    requireFullscreen: Option<bool>,
    logSuspiciousActivity: Option<bool>,
    enableWebcamSnapshots: Option<bool>,
    enableFaceCentering: Option<bool>,
    allowMultipleAttempts: Option<bool>,
    showScoreToStudent: Option<bool>,
    mobileAllowed: Option<bool>,
    requireStudentListMatch: Option<bool>,
    enableSecondCam: Option<bool>)

  const EmptyPatch := SettingsPatch(None, None, None, None, None, None, None, None,
                                    None, None, None, None, None, None, None)

  function DateOr(d: Option<RawDate>, base: Option<int>): Option<int> {
    if d.Some? then StoredDate(d.value) else base
  }

  /** `{ ...base, ...patch }`: every key the patch supplies overrides, every other
      key keeps its value from `base`. Creating a quiz applies a patch to
      `DefaultSettings` (the schema defaults); updating applies it to the stored
      settings. */
  function Merge(base: QuizSettings, p: SettingsPatch): QuizSettings {
    QuizSettings(
      questionTimeSeconds := p.questionTimeSeconds.GetOr(base.questionTimeSeconds),
      totalTimeSeconds := p.totalTimeSeconds.GetOr(base.totalTimeSeconds),
      startAt := DateOr(p.startAt, base.startAt),
      endAt := DateOr(p.endAt, base.endAt),
      shuffleQuestions := p.shuffleQuestions.GetOr(base.shuffleQuestions),
      shuffleOptions := p.shuffleOptions.GetOr(base.shuffleOptions),
      requireFullscreen := p.requireFullscreen.GetOr(base.requireFullscreen),
      logSuspiciousActivity := p.logSuspiciousActivity.GetOr(base.logSuspiciousActivity),
      enableWebcamSnapshots := p.enableWebcamSnapshots.GetOr(base.enableWebcamSnapshots),
      enableFaceCentering := p.enableFaceCentering.GetOr(base.enableFaceCentering),
      allowMultipleAttempts := p.allowMultipleAttempts.GetOr(base.allowMultipleAttempts),
      showScoreToStudent := p.showScoreToStudent.GetOr(base.showScoreToStudent),
      mobileAllowed := p.mobileAllowed.GetOr(base.mobileAllowed),
      requireStudentListMatch := p.requireStudentListMatch.GetOr(base.requireStudentListMatch),
      enableSecondCam := p.enableSecondCam.GetOr(base.enableSecondCam))
  }

  /** The patch that supplies every key of `s`. */
  function FullPatch(s: QuizSettings): SettingsPatch {
    SettingsPatch(
      Some(s.questionTimeSeconds), Some(s.totalTimeSeconds),
      Some(if s.startAt.Some? then NumberDate(s.startAt.value) else NullDate),
      Some(if s.endAt.Some? then NumberDate(s.endAt.value) else NullDate),
      Some(s.shuffleQuestions), Some(s.shuffleOptions), Some(s.requireFullscreen),
      Some(s.logSuspiciousActivity), Some(s.enableWebcamSnapshots), Some(s.enableFaceCentering),
      Some(s.allowMultipleAttempts), Some(s.showScoreToStudent), Some(s.mobileAllowed),
      Some(s.requireStudentListMatch), Some(s.enableSecondCam))
  }

  /** An empty patch changes nothing. */
  lemma MergeEmpty(base: QuizSettings)
    ensures Merge(base, EmptyPatch) == base
  {
  }

  /** A patch supplying every key replaces the settings whatever they were. */
  lemma MergeFull(base: QuizSettings, s: QuizSettings)
    ensures Merge(base, FullPatch(s)) == s
  {
  }

  /** Applying the same patch twice is the same as applying it once. */
  lemma MergeIdempotent(base: QuizSettings, p: SettingsPatch)
    ensures Merge(Merge(base, p), p) == Merge(base, p)
  {
  }

  datatype Quiz = Quiz(
    id: Id,
    instructorId: Id,
    title: string,
    description: Option<string>,
    quizCode: Option<string>,
    settings: QuizSettings,
    status: QuizStatus)

  // ---------------------------------------------------------------------------
  // Questions and students

  datatype Question = Question(
    id: Id,
    quizId: Id,
    text: string,
    options: seq<string>,
    correctIndex: int,
    order: int)

  datatype Student = Student(
    id: Id,
    quizId: Id,
    name: string,
    email: string,
    externalId: Option<string>)

  // ---------------------------------------------------------------------------
  // Invitations

  /** The (quiz, student) pair that identifies an invitation slot. */
  datatype SlotKey = SlotKey(quizId: Id, studentId: Id)

  datatype Invitation = Invitation(
    quizId: Id,
    studentId: Id,
    email: string,
    otpCodeHash: string,
    otpExpiresAt: int,
    lastOtpSentAt: Option<int>,
    maxOtpAttempts: int,
    otpAttempts: int,
    verifiedAt: Option<int>)
  {
    function Key(): SlotKey {
      SlotKey(quizId, studentId)
    }
  }

  /** An invitation as the schema completes it from its required fields: at most
      five code attempts, none used, never sent and not verified. */
  function NewInvitation(quizId: Id, studentId: Id, email: string, hash: string, expiresAt: int): Invitation {
    Invitation(quizId, studentId, email, hash, expiresAt,
               lastOtpSentAt := None, maxOtpAttempts := 5, otpAttempts := 0, verifiedAt := None)
  }

  // ---------------------------------------------------------------------------
  // Attempts

  /** One scored answer. `questionId` is `None` where the source substitutes a
      freshly generated object id because the submitted id is not a valid one. */
  datatype AnswerDetail = AnswerDetail(questionId: Option<Id>, selectedIndex: Option<int>, isCorrect: bool)

  datatype Score = Score(correctCount: int, totalQuestions: int, details: seq<AnswerDetail>)

  datatype Flags = Flags(suspiciousEventsCount: int, forciblyEndedReason: Option<string>)

  datatype Attempt = Attempt(
    id: Id,
    quizId: Id,
    studentId: Option<Id>,
    inviteKey: Option<SlotKey>,
    studentName: string,
    studentEmail: string,
    startedAt: int,
    submittedAt: Option<int>,
    status: AttemptStatus,
    score: Score,
    flags: Flags)

  const EmptyScore := Score(0, 0, [])

  /** An attempt as the schema completes it from its required fields: in
      progress, not submitted, empty score, no suspicious events, no forced-end
      reason. */
  function NewAttempt(id: Id, quizId: Id, studentId: Option<Id>, inviteKey: Option<SlotKey>,
                      studentName: string, studentEmail: string, startedAt: int): Attempt {
    Attempt(id, quizId, studentId, inviteKey, studentName, studentEmail, startedAt,
            submittedAt := None, status := InProgress, score := EmptyScore,
            flags := Flags(0, None))
  }

  /** The defaults of the quiz settings schema. */
  lemma SettingsDefaults()
    ensures var s := Merge(DefaultSettings, EmptyPatch);
      && s.questionTimeSeconds == 35 && s.totalTimeSeconds.None?
      && s.startAt.None? && s.endAt.None?
      && s.shuffleQuestions && s.shuffleOptions && s.logSuspiciousActivity && !s.requireFullscreen
      && !s.enableWebcamSnapshots && !s.enableFaceCentering && !s.allowMultipleAttempts
      && !s.showScoreToStudent && !s.requireStudentListMatch && s.mobileAllowed
  {
  }

  /** The defaults of the attempt schema. */
  lemma AttemptDefaults(id: Id, quizId: Id, email: string, t: int)
    ensures var a := NewAttempt(id, quizId, None, None, email, email, t);
      && a.status == InProgress && a.submittedAt.None?
      && a.score == Score(0, 0, []) && a.flags == Flags(0, None)
  {
  }

  /** The defaults of the invitation schema. */
  lemma InvitationDefaults(quizId: Id, studentId: Id, email: string, hash: string, t: int)
    ensures var inv := NewInvitation(quizId, studentId, email, hash, t);
      && inv.maxOtpAttempts == 5 && inv.otpAttempts == 0
      && inv.verifiedAt.None? && inv.lastOtpSentAt.None?
      && inv.otpCodeHash == hash && inv.otpExpiresAt == t
  {
  }

  // ---------------------------------------------------------------------------
  // Monitoring records

  datatype Event = Event(quizId: Id, attemptId: Id, kind: string, message: Option<string>, timestamp: int)

  datatype AttemptSnapshot = AttemptSnapshot(
    attemptId: Id,
    quizId: Id,
    studentId: Option<Id>,
    phase: Phase,
    mime: string,
    data: string,
    width: int,
    height: int,
    createdAt: int)

  datatype SecondCamSession = SecondCamSession(
    attemptId: Id,
    quizId: Id,
    studentId: Option<Id>,
    connectedAt: int,
    lastSeenAt: int)

  datatype SecondCamSnapshot = SecondCamSnapshot(
    attemptId: Id,
    quizId: Id,
    studentId: Option<Id>,
    mime: string,
    data: string,
    width: int,
    height: int,
    createdAt: int)

  datatype AuditMeta = AuditMeta(attemptId: Option<Id>, email: Option<string>)

  datatype AuditLog = AuditLog(quizId: Id, kind: string, message: string, meta: AuditMeta)
}
