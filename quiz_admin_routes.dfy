/** The instructor's quiz routes that work on the store directly: the
    dashboard, closing a quiz early, extending its end time and deleting it
    with everything recorded for it. */
module QuizAdminRoutes {
  import opened Common
  import opened Models
  import opened Storage
  import opened QuizService
  import OtpService

  // ---------------------------------------------------------------------------
  // GET /:quizId/dashboard

  /** The integer part of the dashboard. The average score is kept as the pair
      (sum of correct answers, number of completed attempts); a count of zero
      stands for the average 0. */
  datatype Dashboard = Dashboard(
    totalAttempts: nat,
    activeAttempts: nat,
    scoreSum: int,
    completedCount: nat,
    endAt: Option<int>,
    remainingSeconds: Option<int>,
    status: QuizStatus)

  /** The attempts of quiz `quizId` in status `s`. */
  function CountOf(atts: seq<Attempt>, quizId: Id, s: AttemptStatus): nat {
    if atts == [] then 0
    else (if atts[0].quizId == quizId && atts[0].status == s then 1 else 0) + CountOf(atts[1..], quizId, s)
  }

  /** The attempts of quiz `quizId`, whatever their status. */
  function TotalOf(atts: seq<Attempt>, quizId: Id): nat {
    if atts == [] then 0
    else (if atts[0].quizId == quizId then 1 else 0) + TotalOf(atts[1..], quizId)
  }

  /** The correct answers summed over the completed attempts of `quizId`. */
  function ScoreSumOf(atts: seq<Attempt>, quizId: Id): int {
    if atts == [] then 0
    else (if atts[0].quizId == quizId && atts[0].status == Completed then atts[0].score.correctCount else 0)
         + ScoreSumOf(atts[1..], quizId)
  }

  /** Every attempt of a quiz is in exactly one of the four statuses. */
  lemma {:induction false} StatusesPartition(atts: seq<Attempt>, quizId: Id)
    ensures CountOf(atts, quizId, InProgress) + CountOf(atts, quizId, Completed)
          + CountOf(atts, quizId, ForciblyEnded) + CountOf(atts, quizId, Expired) == TotalOf(atts, quizId)
  {
    if atts != [] {
      StatusesPartition(atts[1..], quizId);
    }
  }

  /** When every completed attempt scored between 0 and `most`, the average
      lies between 0 and `most`. */
  lemma {:induction false} AverageWithin(atts: seq<Attempt>, quizId: Id, most: int)
    requires forall k :: 0 <= k < |atts| && atts[k].quizId == quizId && atts[k].status == Completed ==>
               0 <= atts[k].score.correctCount <= most
    ensures 0 <= ScoreSumOf(atts, quizId) <= CountOf(atts, quizId, Completed) * most
  {
    if atts != [] {
      AverageWithin(atts[1..], quizId, most);
    }
  }

  /** With no completed attempt the score sum is 0, so the average reads 0. */
  lemma {:induction false} NoneCompletedSumsZero(atts: seq<Attempt>, quizId: Id)
    ensures CountOf(atts, quizId, Completed) == 0 ==> ScoreSumOf(atts, quizId) == 0
  {
    if atts != [] {
      NoneCompletedSumsZero(atts[1..], quizId);
    }
  }

  /** `remainingSeconds`: whole seconds left until `endAt`, never negative. */
  function RemainingSeconds(endAt: Option<int>, now: int): (r: Option<int>)
    ensures r.None? <==> endAt.None?
    ensures r.Some? ==> r.value >= 0
    ensures r.Some? && endAt.value <= now ==> r.value == 0
    ensures r.Some? && endAt.value >= now ==> r.value * 1000 <= endAt.value - now < (r.value + 1) * 1000
  {
    match endAt
    case None => None
    case Some(e) => Some(Max(0, (e - now) / 1000))
  }

  /** `quiz?.status || "draft"`: an empty status text reads as draft. */
  function ShownStatus(s: QuizStatus): (r: QuizStatus)
    ensures QuizStatusName(r) == if QuizStatusName(s) == "" then "draft" else QuizStatusName(s)
  {
    if s == Unlisted("") then Draft else s
  }

  /** `GET /:quizId/dashboard` at instant `now`. */
  function DashboardOf(st: Store, instructorId: Id, quizId: Id, now: int): (r: Result<Dashboard>)
    reads st
    ensures r.Err? <==> AssertQuizOwnership(st, instructorId, quizId).Fail?
    ensures r.Err? ==> r.error == QuizNotFound
    ensures r.Ok? ==>
      && r.value.activeAttempts + r.value.completedCount <= r.value.totalAttempts
      && (r.value.completedCount == 0 ==> r.value.scoreSum == 0)
      && (r.value.endAt.None? <==> r.value.remainingSeconds.None?)
      && QuizStatusName(r.value.status) != ""
  {
    if AssertQuizOwnership(st, instructorId, quizId).Fail? then Err(QuizNotFound)
    else
      var i := st.QuizIndex(quizId);
      var endAt := if i.Some? then st.quizzes[i.value].settings.endAt else None;
      StatusesPartition(st.attempts, quizId);
      NoneCompletedSumsZero(st.attempts, quizId);
      Ok(Dashboard(
        TotalOf(st.attempts, quizId),
        CountOf(st.attempts, quizId, InProgress),
        ScoreSumOf(st.attempts, quizId),
        CountOf(st.attempts, quizId, Completed),
        endAt,
        RemainingSeconds(endAt, now),
        if i.Some? then ShownStatus(st.quizzes[i.value].status) else Draft))
  }

  // ---------------------------------------------------------------------------
  // PATCH /:quizId/terminate

  /** The `updateMany` of the quiz-wide terminate, for one attempt. */
  function ForceEnd(a: Attempt, quizId: Id, now: int): Attempt {
    if a.quizId == quizId && a.status == InProgress then a.(status := ForciblyEnded, submittedAt := Some(now))
    else a
  }

  function ForceEndAll(atts: seq<Attempt>, quizId: Id, now: int): (r: seq<Attempt>)
    ensures |r| == |atts|
    ensures forall k :: 0 <= k < |atts| ==> r[k] == ForceEnd(atts[k], quizId, now)
  {
    seq(|atts|, k requires 0 <= k < |atts| => ForceEnd(atts[k], quizId, now))
  }

  /** After the terminate no attempt of the quiz is in progress, the
      attempts it ended carry the closing instant, and nothing else changed:
      completed attempts keep their scores and other quizzes' attempts are
      untouched. */
  lemma ForceEndAllEffect(atts: seq<Attempt>, quizId: Id, now: int)
    ensures var r := ForceEndAll(atts, quizId, now);
      forall k :: 0 <= k < |atts| ==>
        && (r[k].quizId == quizId ==> r[k].status != InProgress)
        && (atts[k].quizId == quizId && atts[k].status == InProgress ==>
              r[k].status == ForciblyEnded && r[k].submittedAt == Some(now))
        && (atts[k].quizId != quizId || atts[k].status != InProgress ==> r[k] == atts[k])
        && r[k].id == atts[k].id && r[k].quizId == atts[k].quizId && r[k].flags == atts[k].flags
  {
  }

  /** The dashboard of a terminated quiz shows no active attempt, and the
      same completed attempts and score sum as before. */
  lemma {:induction false} TerminatedDashboard(atts: seq<Attempt>, quizId: Id, now: int)
    ensures CountOf(ForceEndAll(atts, quizId, now), quizId, InProgress) == 0
    ensures CountOf(ForceEndAll(atts, quizId, now), quizId, Completed) == CountOf(atts, quizId, Completed)
    ensures ScoreSumOf(ForceEndAll(atts, quizId, now), quizId) == ScoreSumOf(atts, quizId)
    ensures TotalOf(ForceEndAll(atts, quizId, now), quizId) == TotalOf(atts, quizId)
  {
    if atts != [] {
      TerminatedDashboard(atts[1..], quizId, now);
      assert ForceEndAll(atts, quizId, now)[1..] == ForceEndAll(atts[1..], quizId, now);
    }
  }

  /** Attempts rewritten in place, each keeping its id, quiz and counter,
      keep the store valid. */
  lemma AttemptsKeepIdsValid(d: DbState, atts: seq<Attempt>)
    requires DbValid(d) && |atts| == |d.attempts|
    requires forall k :: 0 <= k < |atts| ==>
               atts[k].id == d.attempts[k].id && atts[k].quizId == d.attempts[k].quizId
               && atts[k].flags == d.attempts[k].flags
    ensures DbValid(d.(attempts := atts))
  {
    forall e | 0 <= e < |d.events| ensures Owned(atts, d.events[e]) {
      OwnedSameKeys(d.attempts, atts, d.events[e]);
    }
  }

  function ClosedEntry(quizId: Id): AuditLog {
    AuditLog(quizId, "quiz_closed", "Quiz closed by instructor", AuditMeta(None, None))
  }

  /** The `updateMany` of the quiz-wide terminate, applied to the store. */
  method ForceEndAttempts(st: Store, quizId: Id, now: int)
    requires st.Valid()
    modifies st
    ensures st.Valid()
    ensures st.Db() == old(st.Db()).(attempts := ForceEndAll(old(st.attempts), quizId, now))
  {
    ghost var d := st.Db();
    var k := 0;
    while k < |st.attempts|
      invariant 0 <= k <= |st.attempts| == |d.attempts|
      invariant forall n :: 0 <= n < k ==> st.attempts[n] == ForceEnd(d.attempts[n], quizId, now)
      invariant forall n :: k <= n < |d.attempts| ==> st.attempts[n] == d.attempts[n]
      invariant st.Db() == d.(attempts := st.attempts)
    {
      if st.attempts[k].quizId == quizId && st.attempts[k].status == InProgress {
        st.attempts := st.attempts[k := st.attempts[k].(status := ForciblyEnded, submittedAt := Some(now))];
      }
      k := k + 1;
    }
    assert st.attempts == ForceEndAll(d.attempts, quizId, now);
    AttemptsKeepIdsValid(d, st.attempts);
  }

  /** `PATCH /:quizId/terminate` at instant `now`: the quiz is closed, each of
      its in-progress attempts is force-ended, and one audit entry is added. */
  method TerminateQuiz(st: Store, instructorId: Id, quizId: Id, now: int) returns (r: Outcome)
    requires st.Valid()
    modifies st
    ensures st.Valid()
    ensures var d := old(st.Db());
      match old(st.OwnedQuizIndex(quizId, instructorId))
      case None => r == Fail(QuizNotFound) && st.Db() == d
      case Some(i) =>
        && r == Pass
        && st.Db() == d.(quizzes := d.quizzes[i := d.quizzes[i].(status := Closed)],
                         attempts := ForceEndAll(d.attempts, quizId, now),
                         auditLogs := d.auditLogs + [ClosedEntry(quizId)])
  {
    r := AssertQuizOwnership(st, instructorId, quizId);
    if r.Fail? {
      return;
    }
    ghost var d := st.Db();
    var i := st.QuizIndex(quizId).value;
    st.quizzes := st.quizzes[i := st.quizzes[i].(status := Closed)];
    QuizzesKeepIdsValid(d, st.quizzes);
    ForceEndAttempts(st, quizId, now);
    st.Audit(ClosedEntry(quizId));
  }

  // ---------------------------------------------------------------------------
  // PATCH /:quizId/extend

  const MinutesRequired := Error(400, "Minutes required")

  /** The new end time: `minutes` after the current end time, or after `now`
      when the quiz has none. */
  function ExtendedEnd(endAt: Option<int>, minutes: int, now: int): (r: int)
    ensures endAt.Some? ==> r - endAt.value == minutes * 60000
    ensures endAt.None? ==> r - now == minutes * 60000
  {
    var base := if endAt.Some? then endAt.value else now;
    base + minutes * 60 * 1000
  }

  /** `PATCH /:quizId/extend` at instant `now`. `minutes` is `None` when the
      body gives none or gives something that is not a number. Only the end
      time changes; the status does not, so a closed quiz stays closed. */
  method ExtendQuiz(st: Store, instructorId: Id, quizId: Id, minutes: Option<int>, now: int)
    returns (r: Result<int>)
    requires st.Valid()
    modifies st
    ensures st.Valid()
    ensures var d := old(st.Db());
      if minutes.None? || minutes.value == 0 then r == Err(MinutesRequired) && st.Db() == d
      else match old(st.OwnedQuizIndex(quizId, instructorId))
        case None => r == Err(QuizNotFound) && st.Db() == d
        case Some(i) =>
          var q := d.quizzes[i];
          && r == Ok(ExtendedEnd(q.settings.endAt, minutes.value, now))
          && st.Db() == d.(quizzes := d.quizzes[i := q.(settings := q.settings.(endAt := Some(r.value)))])
  {
    if minutes.None? || minutes.value == 0 {
      return Err(MinutesRequired);
    }
    var owned := AssertQuizOwnership(st, instructorId, quizId);
    if owned.Fail? {
      return Err(owned.error);
    }
    var i := st.QuizIndex(quizId).value;
    var q := st.quizzes[i];
    var next := ExtendedEnd(q.settings.endAt, minutes.value, now);
    ghost var d := st.Db();
    st.quizzes := st.quizzes[i := q.(settings := q.settings.(endAt := Some(next)))];
    QuizzesKeepIdsValid(d, st.quizzes);
    r := Ok(next);
  }

  /** Extending never lets students into a closed quiz: the start gate still
      answers 403 "Quiz is closed". */
  lemma ExtendedClosedStaysClosed(q: Quiz, minutes: int, now: int, inv: Option<Invitation>, at: int)
    requires q.status == Closed
    ensures var next := ExtendedEnd(q.settings.endAt, minutes, now);
      OtpService.Gate(Some(q.(settings := q.settings.(endAt := Some(next)))), inv, at)
        == Fail(Error(403, "Quiz is closed"))
  {
  }

  /** A published quiz extended by a positive number of minutes from an end
      time not yet passed is not closed by the next quiz listing. */
  lemma ExtendedNotOverdue(q: Quiz, instructorId: Id, minutes: int, now: int)
    requires minutes > 0
    requires q.settings.endAt.None? || q.settings.endAt.value >= now
    ensures var next := ExtendedEnd(q.settings.endAt, minutes, now);
      !Overdue(q.(settings := q.settings.(endAt := Some(next))), instructorId, now)
  {
  }

  // ---------------------------------------------------------------------------
  // DELETE /:quizId

  function QuizzesWithout(qs: seq<Quiz>, id: Id): (r: seq<Quiz>)
    ensures forall k :: 0 <= k < |r| ==> r[k] in qs && r[k].id != id
    ensures forall k {:trigger qs[k] in r} :: 0 <= k < |qs| && qs[k].id != id ==> qs[k] in r
    ensures UniqueBy(qs, QuizKey) ==> UniqueBy(r, QuizKey)
  {
    var keep := (q: Quiz) => q.id != id;
    FilterKeepsUnique(qs, keep, QuizKey);
    Filter(qs, keep)
  }

  function QuestionsOutside(qs: seq<Question>, quizId: Id): (r: seq<Question>)
    ensures forall k :: 0 <= k < |r| ==> r[k] in qs && r[k].quizId != quizId
    ensures forall k {:trigger qs[k] in r} :: 0 <= k < |qs| && qs[k].quizId != quizId ==> qs[k] in r
    ensures UniqueBy(qs, QuestionKey) ==> UniqueBy(r, QuestionKey)
  {
    var keep := (q: Question) => q.quizId != quizId;
    FilterKeepsUnique(qs, keep, QuestionKey);
    Filter(qs, keep)
  }

  function StudentsOutside(ss: seq<Student>, quizId: Id): (r: seq<Student>)
    ensures forall k :: 0 <= k < |r| ==> r[k] in ss && r[k].quizId != quizId
    ensures forall k {:trigger ss[k] in r} :: 0 <= k < |ss| && ss[k].quizId != quizId ==> ss[k] in r
    ensures UniqueBy(ss, StudentKey) ==> UniqueBy(r, StudentKey)
  {
    var keep := (s: Student) => s.quizId != quizId;
    FilterKeepsUnique(ss, keep, StudentKey);
    Filter(ss, keep)
  }

  function InvitationsOutside(invs: seq<Invitation>, quizId: Id): (r: seq<Invitation>)
    ensures forall k :: 0 <= k < |r| ==> r[k] in invs && r[k].quizId != quizId
    ensures forall k {:trigger invs[k] in r} :: 0 <= k < |invs| && invs[k].quizId != quizId ==> invs[k] in r
    ensures UniqueSlots(invs) ==> UniqueSlots(r)
  {
    var keep := (inv: Invitation) => inv.quizId != quizId;
    UniqueSlotsByKey(invs);
    FilterKeepsUnique(invs, keep, SlotKeyOf);
    UniqueSlotsByKey(Filter(invs, keep));
    Filter(invs, keep)
  }

  function AttemptsOutside(atts: seq<Attempt>, quizId: Id): (r: seq<Attempt>)
    ensures forall k :: 0 <= k < |r| ==> r[k] in atts && r[k].quizId != quizId
    ensures forall k {:trigger atts[k] in r} :: 0 <= k < |atts| && atts[k].quizId != quizId ==> atts[k] in r
    ensures UniqueBy(atts, AttemptKey) ==> UniqueBy(r, AttemptKey)
  {
    var keep := (a: Attempt) => a.quizId != quizId;
    FilterKeepsUnique(atts, keep, AttemptKey);
    Filter(atts, keep)
  }

  function SnapshotsOutside(snaps: seq<AttemptSnapshot>, quizId: Id): (r: seq<AttemptSnapshot>)
    ensures forall k :: 0 <= k < |r| ==> r[k] in snaps && r[k].quizId != quizId
    ensures forall k {:trigger snaps[k] in r} :: 0 <= k < |snaps| && snaps[k].quizId != quizId ==> snaps[k] in r
    ensures UniquePhases(snaps) ==> UniquePhases(r)
  {
    var keep := (s: AttemptSnapshot) => s.quizId != quizId;
    UniquePhasesByKey(snaps);
    FilterKeepsUnique(snaps, keep, PhaseKey);
    UniquePhasesByKey(Filter(snaps, keep));
    Filter(snaps, keep)
  }

  function CamSnapshotsOutside(snaps: seq<SecondCamSnapshot>, quizId: Id): (r: seq<SecondCamSnapshot>)
    ensures forall k :: 0 <= k < |r| ==> r[k] in snaps && r[k].quizId != quizId
    ensures forall k {:trigger snaps[k] in r} :: 0 <= k < |snaps| && snaps[k].quizId != quizId ==> snaps[k] in r
  {
    Filter(snaps, (s: SecondCamSnapshot) => s.quizId != quizId)
  }

  function SessionsOutside(m: map<Id, SecondCamSession>, quizId: Id): (r: map<Id, SecondCamSession>)
    ensures forall id :: id in r <==> id in m && m[id].quizId != quizId
    ensures forall id :: id in r ==> r[id] == m[id]
  {
    map id | id in m && m[id].quizId != quizId :: m[id]
  }

  /** The store without quiz `quizId` and everything filed under it. The
      audit trail is kept. */
  function WithoutQuiz(d: DbState, quizId: Id): DbState {
    d.(quizzes := QuizzesWithout(d.quizzes, quizId),
       questions := QuestionsOutside(d.questions, quizId),
       students := StudentsOutside(d.students, quizId),
       invitations := InvitationsOutside(d.invitations, quizId),
       attempts := AttemptsOutside(d.attempts, quizId),
       events := EventsOutside(d.events, quizId),
       snapshots := SnapshotsOutside(d.snapshots, quizId),
       camSnapshots := CamSnapshotsOutside(d.camSnapshots, quizId),
       camSessions := SessionsOutside(d.camSessions, quizId))
  }

  /** Nothing filed under the quiz survives its deletion, everything filed
      under other quizzes does, and the audit trail is kept whole. */
  lemma WithoutQuizRemoves(d: DbState, quizId: Id)
    ensures var r := WithoutQuiz(d, quizId);
      && (forall k :: 0 <= k < |r.quizzes| ==> r.quizzes[k].id != quizId)
      && (forall k :: 0 <= k < |d.quizzes| && d.quizzes[k].id != quizId ==> d.quizzes[k] in r.quizzes)
      && (forall k :: 0 <= k < |r.questions| ==> r.questions[k].quizId != quizId)
      && (forall k :: 0 <= k < |d.questions| && d.questions[k].quizId != quizId ==> d.questions[k] in r.questions)
      && (forall k :: 0 <= k < |r.students| ==> r.students[k].quizId != quizId)
      && (forall k :: 0 <= k < |d.students| && d.students[k].quizId != quizId ==> d.students[k] in r.students)
      && (forall k :: 0 <= k < |r.invitations| ==> r.invitations[k].quizId != quizId)
      && (forall k :: 0 <= k < |d.invitations| && d.invitations[k].quizId != quizId ==> d.invitations[k] in r.invitations)
      && (forall k :: 0 <= k < |r.attempts| ==> r.attempts[k].quizId != quizId)
      && (forall k :: 0 <= k < |d.attempts| && d.attempts[k].quizId != quizId ==> d.attempts[k] in r.attempts)
      && (forall k :: 0 <= k < |r.events| ==> r.events[k].quizId != quizId)
      && (forall k :: 0 <= k < |d.events| && d.events[k].quizId != quizId ==> d.events[k] in r.events)
      && (forall k :: 0 <= k < |r.snapshots| ==> r.snapshots[k].quizId != quizId)
      && (forall k :: 0 <= k < |d.snapshots| && d.snapshots[k].quizId != quizId ==> d.snapshots[k] in r.snapshots)
      && (forall k :: 0 <= k < |r.camSnapshots| ==> r.camSnapshots[k].quizId != quizId)
      && (forall k :: 0 <= k < |d.camSnapshots| && d.camSnapshots[k].quizId != quizId ==> d.camSnapshots[k] in r.camSnapshots)
      && (forall id :: id in r.camSessions ==> r.camSessions[id].quizId != quizId)
      && (forall id :: id in d.camSessions && d.camSessions[id].quizId != quizId ==>
            id in r.camSessions && r.camSessions[id] == d.camSessions[id])
      && r.auditLogs == d.auditLogs && r.usedIds == d.usedIds
  {
  }

  lemma WithoutQuizKeepsValid(d: DbState, quizId: Id)
    requires DbValid(d)
    ensures DbValid(WithoutQuiz(d, quizId))
  {
    WithoutQuizIds(d, quizId);
    WithoutQuizAgrees(d.attempts, d.events, quizId);
  }

  /** The remaining records still carry issued ids. */
  lemma WithoutQuizIds(d: DbState, quizId: Id)
    requires DbValid(d)
    ensures var r := WithoutQuiz(d, quizId);
      && (forall k :: 0 <= k < |r.quizzes| ==> r.quizzes[k].id in d.usedIds)
      && (forall k :: 0 <= k < |r.questions| ==> r.questions[k].id in d.usedIds)
      && (forall k :: 0 <= k < |r.students| ==> r.students[k].id in d.usedIds)
      && (forall k :: 0 <= k < |r.attempts| ==> r.attempts[k].id in d.usedIds)
  {
    var r := WithoutQuiz(d, quizId);
    forall k | 0 <= k < |r.quizzes| ensures r.quizzes[k].id in d.usedIds {
      var j :| 0 <= j < |d.quizzes| && d.quizzes[j] == r.quizzes[k];
    }
    forall k | 0 <= k < |r.questions| ensures r.questions[k].id in d.usedIds {
      var j :| 0 <= j < |d.questions| && d.questions[j] == r.questions[k];
    }
    forall k | 0 <= k < |r.students| ensures r.students[k].id in d.usedIds {
      var j :| 0 <= j < |d.students| && d.students[j] == r.students[k];
    }
    forall k | 0 <= k < |r.attempts| ensures r.attempts[k].id in d.usedIds {
      var j :| 0 <= j < |d.attempts| && d.attempts[j] == r.attempts[k];
    }
  }

  /** The remaining events still agree with the remaining attempts. */
  lemma WithoutQuizAgrees(attempts: seq<Attempt>, events: seq<Event>, quizId: Id)
    requires EventsAgree(attempts, events) && UniqueBy(attempts, AttemptKey)
    ensures EventsAgree(AttemptsOutside(attempts, quizId), EventsOutside(events, quizId))
  {
    WithoutQuizCounts(attempts, events, quizId);
    WithoutQuizEventsOwned(attempts, events, quizId);
  }

  /** A remaining attempt keeps all of its events: none of them was filed
      under the deleted quiz, since an event is filed under its attempt's quiz. */
  lemma WithoutQuizCounts(attempts: seq<Attempt>, events: seq<Event>, quizId: Id)
    requires EventsAgree(attempts, events) && UniqueBy(attempts, AttemptKey)
    ensures var atts := AttemptsOutside(attempts, quizId);
      forall k :: 0 <= k < |atts| ==>
        atts[k].flags.suspiciousEventsCount == EventCount(EventsOutside(events, quizId), atts[k].id)
  {
    var atts := AttemptsOutside(attempts, quizId);
    forall k | 0 <= k < |atts|
      ensures atts[k].flags.suspiciousEventsCount == EventCount(EventsOutside(events, quizId), atts[k].id)
    {
      var j :| 0 <= j < |attempts| && attempts[j] == atts[k];
      forall e | 0 <= e < |events| && events[e].attemptId == atts[k].id
        ensures events[e].quizId != quizId
      {
        var i :| 0 <= i < |attempts| && attempts[i].id == events[e].attemptId
                                    && attempts[i].quizId == events[e].quizId;
        assert AttemptKey(attempts[i]) == AttemptKey(attempts[j]);
      }
      EventCountOutside(events, quizId, atts[k].id);
    }
  }

  /** Each remaining event still belongs to a remaining attempt of its quiz. */
  lemma WithoutQuizEventsOwned(attempts: seq<Attempt>, events: seq<Event>, quizId: Id)
    requires EventsAgree(attempts, events)
    ensures var evs := EventsOutside(events, quizId);
      forall x :: 0 <= x < |evs| ==> Owned(AttemptsOutside(attempts, quizId), evs[x])
  {
    var atts := AttemptsOutside(attempts, quizId);
    var evs := EventsOutside(events, quizId);
    forall x | 0 <= x < |evs| ensures Owned(atts, evs[x]) {
      var y :| 0 <= y < |events| && events[y] == evs[x];
      OwnedKept(attempts, atts, events[y]);
    }
  }

  /** The deletions of `DELETE /:quizId`, applied to the store. */
  method RemoveQuizRecords(st: Store, quizId: Id)
    requires st.Valid()
    modifies st
    ensures st.Valid()
    ensures st.Db() == WithoutQuiz(old(st.Db()), quizId)
  {
    ghost var d := st.Db();
    var rest := WithoutQuiz(st.Db(), quizId);
    WithoutQuizKeepsValid(d, quizId);
    st.Commit(rest);
  }

  /** `DELETE /:quizId`: only the owner may delete; the quiz goes with its
      questions, roster, invitations, attempts and monitoring records. */
  method DeleteQuiz(st: Store, instructorId: Id, quizId: Id) returns (r: Outcome)
    requires st.Valid()
    modifies st
    ensures st.Valid()
    ensures var d := old(st.Db());
      if old(st.OwnedQuizIndex(quizId, instructorId)).None? then r == Fail(QuizNotFound) && st.Db() == d
      else r == Pass && st.Db() == WithoutQuiz(d, quizId)
  {
    if st.OwnedQuizIndex(quizId, instructorId).None? {
      return Fail(QuizNotFound);
    }
    RemoveQuizRecords(st, quizId);
    r := Pass;
  }
}
