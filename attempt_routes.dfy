/** The attempt routes: status lookup, phase snapshots, the second-camera
    connection, status and uploads, and the instructor's terminate and delete.
    Token verification is abstract: `decode(token, secret)` stands for the
    JWT library's `verify`, giving the claims or `None` when it throws. */
module AttemptRoutes {
  import opened Common
  import opened Models
  import opened Storage
  import opened AttemptService
  import QuizService

  // ---------------------------------------------------------------------------
  // Second-camera tokens

  /** The claims of a second-camera token that the route reads. */
  datatype TokenClaims = TokenClaims(sub: Option<string>, kind: Option<string>)

  /** `verifySecondCamToken`: accepts exactly a non-empty token that verifies
      under a non-empty secret and names this attempt with type `second_cam`. */
  function VerifySecondCamToken(token: string, attemptId: Id, secret: string,
                                decode: (string, string) -> Option<TokenClaims>): (r: bool)
    ensures r <==> token != "" && secret != "" &&
                   decode(token, secret) == Some(TokenClaims(Some(attemptId), Some("second_cam")))
  {
    if token == "" then false
    else if secret == "" then false
    else match decode(token, secret)
      case None => false
      case Some(claims) => if claims.kind != Some("second_cam") then false else claims.sub == Some(attemptId)
  }

  /** A token opens the second camera of one attempt only. */
  lemma TokenBindsAttempt(token: string, a: Id, b: Id, secret: string,
                          decode: (string, string) -> Option<TokenClaims>)
    requires VerifySecondCamToken(token, a, secret, decode)
    requires a != b
    ensures !VerifySecondCamToken(token, b, secret, decode)
  {
  }

  // ---------------------------------------------------------------------------
  // Lookups

  /** `Quiz.findById(id)`. */
  function QuizOf(quizzes: seq<Quiz>, id: Id): (r: Option<Quiz>)
    ensures r.Some? ==> r.value in quizzes && r.value.id == id
    ensures r.None? <==> forall k :: 0 <= k < |quizzes| ==> quizzes[k].id != id
  {
    match IndexOfKey(quizzes, QuizKey, id)
    case None => None
    case Some(i) => Some(quizzes[i])
  }

  /** `GET /:attemptId/status`. */
  function AttemptStatusOf(st: Store, attemptId: Id): (r: Result<AttemptStatus>)
    reads st
    ensures r.Err? <==> forall k :: 0 <= k < |st.attempts| ==> st.attempts[k].id != attemptId
    ensures r.Err? ==> r.error == AttemptNotFound
    ensures r.Ok? ==> exists k :: 0 <= k < |st.attempts| && st.attempts[k].id == attemptId
                                                         && st.attempts[k].status == r.value
  {
    match st.AttemptIndex(attemptId)
    case None => Err(AttemptNotFound)
    case Some(i) => Ok(st.attempts[i].status)
  }

  // ---------------------------------------------------------------------------
  // Uploads

  /** An uploaded image: `data` and `mime` are empty when the body does not
      carry them as strings; a dimension is `None` when it is missing or not a
      number. */
  datatype Upload = Upload(data: string, mime: string, width: Option<int>, height: Option<int>)

  /** `Number(x) || fallback`. */
  function Dimension(raw: Option<int>, fallback: int): (r: int)
    ensures fallback != 0 ==> r != 0
    ensures raw.Some? && raw.value != 0 ==> r == raw.value
  {
    if raw.Some? && raw.value != 0 then raw.value else fallback
  }

  predicate ImageData(u: Upload) {
    u.data != "" && StartsWith(u.mime, "image/")
  }

  const InvalidData := Error(400, "Invalid snapshot data")

  predicate SnapshotsEnabled(quiz: Option<Quiz>) {
    quiz.Some? && (quiz.value.settings.enableWebcamSnapshots || quiz.value.settings.enableFaceCentering)
  }

  /** The admission guards of a phase snapshot, in order: the quiz's snapshot
      flags, the phase, the image. The attempt's status is not among them. */
  function SnapshotCheck(quiz: Option<Quiz>, phase: Option<string>, u: Upload): (r: Result<Phase>)
    ensures r.Ok? <==> SnapshotsEnabled(quiz) && phase.Some? && ParsePhase(phase.value).Some? && ImageData(u)
    ensures r.Ok? ==> PhaseName(r.value) == phase.value
    ensures !SnapshotsEnabled(quiz) ==> r == Err(Error(403, "Webcam snapshots disabled"))
    ensures SnapshotsEnabled(quiz) && (phase.None? || ParsePhase(phase.value).None?) ==>
              r == Err(Error(400, "Invalid snapshot phase"))
    ensures r.Err? && r.error.status == 400 && r.error != InvalidData ==>
              phase.None? || ParsePhase(phase.value).None?
  {
    if !SnapshotsEnabled(quiz) then Err(Error(403, "Webcam snapshots disabled"))
    else if phase.None? || phase.value == "" || ParsePhase(phase.value).None? then Err(Error(400, "Invalid snapshot phase"))
    else if u.data == "" || !StartsWith(u.mime, "image/") then Err(InvalidData)
    else Ok(ParsePhase(phase.value).value)
  }

  predicate HasPhase(snaps: seq<AttemptSnapshot>, attemptId: Id, phase: Phase) {
    exists k | 0 <= k < |snaps| :: snaps[k].attemptId == attemptId && snaps[k].phase == phase
  }

  function NewSnapshot(a: Attempt, phase: Phase, u: Upload, now: int): AttemptSnapshot {
    AttemptSnapshot(a.id, a.quizId, a.studentId, phase, u.mime, u.data,
                    Dimension(u.width, 320), Dimension(u.height, 240), now)
  }

  datatype SnapshotReply = Exists | Saved

  /** Adding a snapshot for a phase the attempt has none for keeps the store
      valid, and afterwards the phase is taken. */
  lemma AppendSnapshotKeepsValid(d: DbState, s: AttemptSnapshot)
    requires DbValid(d) && !HasPhase(d.snapshots, s.attemptId, s.phase)
    ensures DbValid(d.(snapshots := d.snapshots + [s]))
    ensures HasPhase(d.snapshots + [s], s.attemptId, s.phase)
  {
    assert (d.snapshots + [s])[|d.snapshots|] == s;
  }

  /** `POST /:attemptId/snapshots`: at most one snapshot per (attempt, phase);
      a repeated phase answers "exists" and writes nothing. */
  method SaveSnapshot(st: Store, attemptId: Id, phase: Option<string>, u: Upload, now: int)
    returns (r: Result<SnapshotReply>)
    requires st.Valid()
    modifies st
    ensures st.Valid()
    ensures var d := old(st.Db());
      match old(st.AttemptIndex(attemptId))
      case None => r == Err(AttemptNotFound) && st.Db() == d
      case Some(i) =>
        var a := d.attempts[i];
        match SnapshotCheck(QuizOf(d.quizzes, a.quizId), phase, u)
        case Err(e) => r == Err(e) && st.Db() == d
        case Ok(p) =>
          if HasPhase(d.snapshots, a.id, p) then r == Ok(Exists) && st.Db() == d
          else r == Ok(Saved) && st.Db() == d.(snapshots := d.snapshots + [NewSnapshot(a, p, u, now)])
  {
    var found := st.AttemptIndex(attemptId);
    if found.None? {
      return Err(AttemptNotFound);
    }
    var a := st.attempts[found.value];
    var check := SnapshotCheck(QuizOf(st.quizzes, a.quizId), phase, u);
    if check.Err? {
      return Err(check.error);
    }
    var p := check.value;
    if HasPhase(st.snapshots, a.id, p) {
      return Ok(Exists);
    }
    var s := NewSnapshot(a, p, u, now);
    AppendSnapshotKeepsValid(st.Db(), s);
    st.snapshots := st.snapshots + [s];
    r := Ok(Saved);
  }

  // ---------------------------------------------------------------------------
  // Second camera

  predicate SecondCamEnabled(quiz: Option<Quiz>) {
    quiz.Some? && quiz.value.settings.enableSecondCam
  }

  const CamDisabled := Error(403, "Second camera disabled")
  const InvalidToken := Error(401, "Invalid token")

  /** The upsert of a session: `connectedAt` is written only when the session
      is created, `lastSeenAt` on every call, other attempts' sessions are left
      alone. */
  function Touch(sessions: map<Id, SecondCamSession>, a: Attempt, now: int): (r: map<Id, SecondCamSession>)
    ensures r.Keys == sessions.Keys + {a.id}
    ensures r[a.id].lastSeenAt == now
    ensures (forall k :: k in sessions ==> sessions[k].attemptId == k) ==>
              forall k :: k in r ==> r[k].attemptId == k
    ensures r[a.id].connectedAt == (if a.id in sessions then sessions[a.id].connectedAt else now)
    ensures forall k :: k in sessions && k != a.id ==> r[k] == sessions[k]
  {
    if a.id in sessions then sessions[a.id := sessions[a.id].(lastSeenAt := now)]
    else sessions[a.id := SecondCamSession(a.id, a.quizId, a.studentId, now, now)]
  }

  /** A session counts as connected while it was last seen under 20 seconds ago. */
  predicate Live(sessions: map<Id, SecondCamSession>, id: Id, now: int) {
    id in sessions && now - sessions[id].lastSeenAt < 20000
  }

  /** Right after a connect or an upload at `t`, the camera reads as connected
      exactly until 20 seconds have passed. */
  lemma TouchThenLive(sessions: map<Id, SecondCamSession>, a: Attempt, t: int, now: int)
    ensures Live(Touch(sessions, a, t), a.id, now) <==> now - t < 20000
    ensures forall k :: k != a.id ==> (Live(Touch(sessions, a, t), k, now) <==> Live(sessions, k, now))
  {
  }

  /** The guards of `POST /:attemptId/second-cam/connect`, in order. */
  function ConnectCheck(a: Attempt, quiz: Option<Quiz>, token: string, secret: string,
                        decode: (string, string) -> Option<TokenClaims>): (r: Outcome)
    ensures r == Pass <==> a.status == InProgress && SecondCamEnabled(quiz) &&
                           VerifySecondCamToken(token, a.id, secret, decode)
    ensures a.status != InProgress ==> r == Fail(Error(403, "Attempt not active"))
    ensures a.status == InProgress && !SecondCamEnabled(quiz) ==> r == Fail(CamDisabled)
  {
    if a.status != InProgress then Fail(Error(403, "Attempt not active"))
    else if !SecondCamEnabled(quiz) then Fail(CamDisabled)
    else if !VerifySecondCamToken(token, a.id, secret, decode) then Fail(InvalidToken)
    else Pass
  }

  /** `POST /:attemptId/second-cam/connect`. */
  method CamConnect(st: Store, attemptId: Id, token: string, secret: string,
                    decode: (string, string) -> Option<TokenClaims>, now: int) returns (r: Outcome)
    requires st.Valid()
    modifies st
    ensures st.Valid()
    ensures var d := old(st.Db());
      match old(st.AttemptIndex(attemptId))
      case None => r == Fail(AttemptNotFound) && st.Db() == d
      case Some(i) =>
        var a := d.attempts[i];
        var check := ConnectCheck(a, QuizOf(d.quizzes, a.quizId), token, secret, decode);
        && r == check
        && st.Db() == (if check.Pass? then d.(camSessions := Touch(d.camSessions, a, now)) else d)
  {
    var found := st.AttemptIndex(attemptId);
    if found.None? {
      return Fail(AttemptNotFound);
    }
    var a := st.attempts[found.value];
    r := ConnectCheck(a, QuizOf(st.quizzes, a.quizId), token, secret, decode);
    if r.Pass? {
      st.camSessions := Touch(st.camSessions, a, now);
    }
  }

  /** `GET /:attemptId/second-cam/status`: `false` while the feature is off,
      otherwise whether the session is live. */
  function CamStatus(st: Store, attemptId: Id, now: int): (r: Result<bool>)
    reads st
    ensures st.AttemptIndex(attemptId).None? ==> r == Err(AttemptNotFound)
    ensures st.AttemptIndex(attemptId).Some? ==>
      var a := st.attempts[st.AttemptIndex(attemptId).value];
      && (a.status != InProgress ==> r == Err(Error(403, "Attempt not active")))
      && (a.status == InProgress ==>
            (r == Ok(true) <==> SecondCamEnabled(QuizOf(st.quizzes, a.quizId)) && Live(st.camSessions, a.id, now)))
      && (a.status == InProgress ==> r.Ok?)
  {
    match st.AttemptIndex(attemptId)
    case None => Err(AttemptNotFound)
    case Some(i) =>
      var a := st.attempts[i];
      if a.status != InProgress then Err(Error(403, "Attempt not active"))
      else if !SecondCamEnabled(QuizOf(st.quizzes, a.quizId)) then Ok(false)
      else Ok(a.id in st.camSessions && now - st.camSessions[a.id].lastSeenAt < 20000)
  }

  /** The guards of `POST /:attemptId/second-cam/snapshots`, in order; the
      attempt's status is not among them. */
  function CamUploadCheck(attemptId: Id, quiz: Option<Quiz>, token: string, secret: string,
                          decode: (string, string) -> Option<TokenClaims>, u: Upload): (r: Outcome)
    ensures r == Pass <==> SecondCamEnabled(quiz) && VerifySecondCamToken(token, attemptId, secret, decode) && ImageData(u)
    ensures !SecondCamEnabled(quiz) ==> r == Fail(CamDisabled)
    ensures SecondCamEnabled(quiz) && !VerifySecondCamToken(token, attemptId, secret, decode) ==> r == Fail(InvalidToken)
  {
    if !SecondCamEnabled(quiz) then Fail(CamDisabled)
    else if !VerifySecondCamToken(token, attemptId, secret, decode) then Fail(InvalidToken)
    else if u.data == "" || !StartsWith(u.mime, "image/") then Fail(InvalidData)
    else Pass
  }

  function NewCamSnapshot(a: Attempt, u: Upload, now: int): SecondCamSnapshot {
    SecondCamSnapshot(a.id, a.quizId, a.studentId, u.mime, u.data,
                      Dimension(u.width, 320), Dimension(u.height, 240), now)
  }

  /** `POST /:attemptId/second-cam/snapshots`: every accepted upload refreshes
      the session and adds one more snapshot. */
  method CamSnapshot(st: Store, attemptId: Id, token: string, secret: string,
                     decode: (string, string) -> Option<TokenClaims>, u: Upload, now: int) returns (r: Outcome)
    requires st.Valid()
    modifies st
    ensures st.Valid()
    ensures var d := old(st.Db());
      match old(st.AttemptIndex(attemptId))
      case None => r == Fail(AttemptNotFound) && st.Db() == d
      case Some(i) =>
        var a := d.attempts[i];
        var check := CamUploadCheck(a.id, QuizOf(d.quizzes, a.quizId), token, secret, decode, u);
        && r == check
        && st.Db() == (if check.Pass? then d.(camSessions := Touch(d.camSessions, a, now),
                                               camSnapshots := d.camSnapshots + [NewCamSnapshot(a, u, now)])
                       else d)
  {
    var found := st.AttemptIndex(attemptId);
    if found.None? {
      return Fail(AttemptNotFound);
    }
    var a := st.attempts[found.value];
    r := CamUploadCheck(a.id, QuizOf(st.quizzes, a.quizId), token, secret, decode, u);
    if r.Pass? {
      st.camSessions := Touch(st.camSessions, a, now);
      st.camSnapshots := st.camSnapshots + [NewCamSnapshot(a, u, now)];
    }
  }

  // ---------------------------------------------------------------------------
  // Finishing, terminating and deleting

  /** `POST /:attemptId/finish`: `finishAttempt`, then, only when it succeeds,
      the attempt's second-camera session is deleted. */
  method FinishAndPurge(st: Store, attemptId: Id, answers: seq<Answer>, now: int) returns (r: Result<Tally>)
    requires st.Valid()
    modifies st
    ensures st.Valid()
    ensures old(st.AttemptIndex(attemptId)).None? ==>
              r == Err(AttemptNotFound) && st.Db() == old(st.Db())
    ensures old(st.AttemptIndex(attemptId)).Some? &&
            old(st.attempts[st.AttemptIndex(attemptId).value]).status != InProgress ==>
              r == Err(Error(403, "Attempt already ended")) && st.Db() == old(st.Db())
    ensures old(st.AttemptIndex(attemptId)).Some? &&
            old(st.attempts[st.AttemptIndex(attemptId).value]).status == InProgress ==>
      var i := old(st.AttemptIndex(attemptId)).value;
      var a := old(st.attempts[i]);
      var score := ScoreOf(QuestionsOf(old(st.questions), a.quizId), answers);
      && r == Ok(Tally(score.correctCount, score.totalQuestions))
      && st.Db() == old(st.Db()).(
           attempts := old(st.attempts)[i := a.(score := score, status := Completed, submittedAt := Some(now))],
           camSessions := old(st.camSessions) - {attemptId})
  {
    r := FinishAttempt(st, attemptId, answers, now);
    if r.Ok? {
      st.camSessions := st.camSessions - {attemptId};
    }
  }

  function EndedEntry(a: Attempt): AuditLog {
    AuditLog(a.quizId, "attempt_ended", "Attempt ended for " + a.studentEmail,
             AuditMeta(Some(a.id), Some(a.studentEmail)))
  }

  function RemovedEntry(a: Attempt): AuditLog {
    AuditLog(a.quizId, "attempt_removed", "Attempt removed for " + a.studentEmail,
             AuditMeta(Some(a.id), Some(a.studentEmail)))
  }

  /** `PATCH /:attemptId/terminate`: the attempt is forcibly ended whatever its
      status was, and each call adds one audit entry. */
  method TerminateAttempt(st: Store, instructorId: Id, attemptId: Id, now: int) returns (r: Outcome)
    requires st.Valid()
    modifies st
    ensures st.Valid()
    ensures var d := old(st.Db());
      match old(st.AttemptIndex(attemptId))
      case None => r == Fail(AttemptNotFound) && st.Db() == d
      case Some(i) =>
        var a := d.attempts[i];
        var owned := old(QuizService.AssertQuizOwnership(st, instructorId, a.quizId));
        if owned.Fail? then r == owned && st.Db() == d
        else
          && r == Pass
          && st.Db() == d.(attempts := d.attempts[i := a.(status := ForciblyEnded, submittedAt := Some(now))],
                           auditLogs := d.auditLogs + [EndedEntry(a)])
  {
    var found := st.AttemptIndex(attemptId);
    if found.None? {
      return Fail(AttemptNotFound);
    }
    var i := found.value;
    var a := st.attempts[i];
    r := QuizService.AssertQuizOwnership(st, instructorId, a.quizId);
    if r.Fail? {
      return;
    }
    ghost var d := st.Db();
    var a' := a.(status := ForciblyEnded, submittedAt := Some(now));
    ReplaceAttemptKeepsValid(d, i, a');
    st.attempts := st.attempts[i := a'];
    st.Audit(EndedEntry(a));
  }

  /** The store without attempt `id` and everything recorded for it: its
      events, phase snapshots, second-camera snapshots and session. */
  function WithoutAttempt(d: DbState, id: Id): DbState {
    d.(attempts := AttemptsWithout(d.attempts, id),
       events := EventsWithout(d.events, id),
       snapshots := SnapshotsWithout(d.snapshots, id),
       camSnapshots := Filter(d.camSnapshots, (s: SecondCamSnapshot) => s.attemptId != id),
       camSessions := d.camSessions - {id})
  }

  /** `Attempt.deleteOne({ _id })`: the other attempts, in order. */
  function AttemptsWithout(attempts: seq<Attempt>, id: Id): (r: seq<Attempt>)
    ensures forall k :: 0 <= k < |r| ==> r[k] in attempts && r[k].id != id
    ensures forall k {:trigger attempts[k] in r} :: 0 <= k < |attempts| && attempts[k].id != id ==> attempts[k] in r
    ensures UniqueBy(attempts, AttemptKey) ==> UniqueBy(r, AttemptKey)
  {
    var keep := (a: Attempt) => a.id != id;
    FilterKeepsUnique(attempts, keep, AttemptKey);
    Filter(attempts, keep)
  }

  /** `AttemptSnapshot.deleteMany({ attemptId })`: the other snapshots, in order. */
  function SnapshotsWithout(snaps: seq<AttemptSnapshot>, id: Id): (r: seq<AttemptSnapshot>)
    ensures forall k :: 0 <= k < |r| ==> r[k] in snaps && r[k].attemptId != id
    ensures forall k {:trigger snaps[k] in r} :: 0 <= k < |snaps| && snaps[k].attemptId != id ==> snaps[k] in r
    ensures UniquePhases(snaps) ==> UniquePhases(r)
  {
    var keep := (s: AttemptSnapshot) => s.attemptId != id;
    UniquePhasesByKey(snaps);
    FilterKeepsUnique(snaps, keep, PhaseKey);
    UniquePhasesByKey(Filter(snaps, keep));
    Filter(snaps, keep)
  }

  /** Nothing recorded for the attempt survives its deletion, everything
      recorded for other attempts does, and the other collections are kept. */
  lemma WithoutAttemptRemoves(d: DbState, id: Id)
    ensures var r := WithoutAttempt(d, id);
      && (forall k :: 0 <= k < |r.attempts| ==> r.attempts[k].id != id && r.attempts[k] in d.attempts)
      && (forall k :: 0 <= k < |d.attempts| && d.attempts[k].id != id ==> d.attempts[k] in r.attempts)
      && (forall k :: 0 <= k < |r.events| ==> r.events[k].attemptId != id && r.events[k] in d.events)
      && (forall k :: 0 <= k < |d.events| && d.events[k].attemptId != id ==> d.events[k] in r.events)
      && (forall k :: 0 <= k < |r.snapshots| ==> r.snapshots[k].attemptId != id)
      && (forall k :: 0 <= k < |d.snapshots| && d.snapshots[k].attemptId != id ==> d.snapshots[k] in r.snapshots)
      && (forall k :: 0 <= k < |r.camSnapshots| ==> r.camSnapshots[k].attemptId != id && r.camSnapshots[k] in d.camSnapshots)
      && (forall k :: 0 <= k < |d.camSnapshots| && d.camSnapshots[k].attemptId != id ==> d.camSnapshots[k] in r.camSnapshots)
      && id !in r.camSessions && r.camSessions.Keys == d.camSessions.Keys - {id}
      && r.quizzes == d.quizzes && r.questions == d.questions && r.students == d.students
      && r.invitations == d.invitations && r.auditLogs == d.auditLogs && r.usedIds == d.usedIds
  {
  }

  lemma WithoutAttemptKeepsValid(d: DbState, id: Id)
    requires DbValid(d)
    ensures DbValid(WithoutAttempt(d, id))
  {
    var r := WithoutAttempt(d, id);
    WithoutAttemptIds(d.attempts, d.usedIds, id);
    WithoutAttemptAgrees(d.attempts, d.events, id);
  }

  /** The remaining events still agree with the remaining attempts. */
  lemma WithoutAttemptAgrees(attempts: seq<Attempt>, events: seq<Event>, id: Id)
    requires EventsAgree(attempts, events)
    ensures EventsAgree(AttemptsWithout(attempts, id), EventsWithout(events, id))
  {
    WithoutAttemptCounts(attempts, events, id);
    WithoutAttemptEventsOwned(attempts, events, id);
  }

  lemma WithoutAttemptIds(attempts: seq<Attempt>, used: set<Id>, id: Id)
    requires forall i :: 0 <= i < |attempts| ==> attempts[i].id in used
    ensures forall k :: 0 <= k < |AttemptsWithout(attempts, id)| ==> AttemptsWithout(attempts, id)[k].id in used
  {
    var atts := AttemptsWithout(attempts, id);
    forall k | 0 <= k < |atts| ensures atts[k].id in used {
      var j :| 0 <= j < |attempts| && attempts[j] == atts[k];
    }
  }

  /** Each remaining attempt keeps all of its events. */
  lemma WithoutAttemptCounts(attempts: seq<Attempt>, events: seq<Event>, id: Id)
    requires forall i :: 0 <= i < |attempts| ==>
               attempts[i].flags.suspiciousEventsCount == EventCount(events, attempts[i].id)
    ensures var atts := AttemptsWithout(attempts, id);
      forall k :: 0 <= k < |atts| ==>
        atts[k].flags.suspiciousEventsCount == EventCount(EventsWithout(events, id), atts[k].id)
  {
    var atts := AttemptsWithout(attempts, id);
    forall k | 0 <= k < |atts|
      ensures atts[k].flags.suspiciousEventsCount == EventCount(EventsWithout(events, id), atts[k].id)
    {
      var j :| 0 <= j < |attempts| && attempts[j] == atts[k];
      EventCountWithout(events, id, atts[k].id);
    }
  }

  /** Each remaining event still belongs to a remaining attempt of its quiz. */
  lemma WithoutAttemptEventsOwned(attempts: seq<Attempt>, events: seq<Event>, id: Id)
    requires EventsAgree(attempts, events)
    ensures var evs := EventsWithout(events, id);
      forall x :: 0 <= x < |evs| ==> Owned(AttemptsWithout(attempts, id), evs[x])
  {
    var atts := AttemptsWithout(attempts, id);
    var evs := EventsWithout(events, id);
    forall x | 0 <= x < |evs| ensures Owned(atts, evs[x]) {
      var y :| 0 <= y < |events| && events[y] == evs[x];
      OwnedKept(attempts, atts, events[y]);
    }
  }

  /** The deletions of `DELETE /:attemptId`, applied to the store. */
  method RemoveAttemptRecords(st: Store, attemptId: Id)
    requires st.Valid()
    modifies st
    ensures st.Valid()
    ensures st.Db() == WithoutAttempt(old(st.Db()), attemptId)
  {
    ghost var d := st.Db();
    var rest := WithoutAttempt(st.Db(), attemptId);
    WithoutAttemptKeepsValid(d, attemptId);
    st.Commit(rest);
  }

  /** `DELETE /:attemptId`: removes the attempt and everything recorded for it,
      then adds one audit entry. */
  method DeleteAttempt(st: Store, instructorId: Id, attemptId: Id) returns (r: Outcome)
    requires st.Valid()
    modifies st
    ensures st.Valid()
    ensures var d := old(st.Db());
      match old(st.AttemptIndex(attemptId))
      case None => r == Fail(AttemptNotFound) && st.Db() == d
      case Some(i) =>
        var a := d.attempts[i];
        var owned := old(QuizService.AssertQuizOwnership(st, instructorId, a.quizId));
        if owned.Fail? then r == owned && st.Db() == d
        else
          && r == Pass
          && st.Db() == WithoutAttempt(d, attemptId).(auditLogs := d.auditLogs + [RemovedEntry(a)])
  {
    var found := st.AttemptIndex(attemptId);
    if found.None? {
      return Fail(AttemptNotFound);
    }
    var a := st.attempts[found.value];
    r := QuizService.AssertQuizOwnership(st, instructorId, a.quizId);
    if r.Fail? {
      return;
    }
    RemoveAttemptRecords(st, attemptId);
    st.Audit(RemovedEntry(a));
  }
}
