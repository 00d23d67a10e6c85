/** Issuing one-time codes: for every student of a quiz, or for one student on
    request, a fresh code is drawn, its digest is stored in the student's
    invitation (created on first issue), the code is mailed, and the issue is
    written to the audit trail. Sending the mail has no effect on the store. */
module InvitationService {
  import opened Common
  import opened Models
  import opened Storage
  import opened Otp
  import opened Mailer
  import opened RateLimit
  import OtpService

  /** The process environment the service reads once: `SMTP_FROM`,
      `DEV_EMAIL_MODE === "true"`, `APP_BASE_URL` and the transport's settings. */
  datatype MailEnv = MailEnv(smtpFrom: string, devMode: bool, appBaseUrl: string, smtp: SmtpConfig)

  /** A code stays valid for fifteen minutes after it is issued. */
  const OtpLifetimeMs := 15 * 60 * 1000

  /** The configuration error a send reports, if any. */
  function ConfigError(env: MailEnv): Option<Error> {
    if env.smtpFrom == "" && !env.devMode then Some(Error(500, "SMTP_FROM is not set"))
    else if !env.devMode && MissingNames(env.smtp) != [] then
      Some(Error(500, MissingPrefix + Join(MissingNames(env.smtp), ", ")))
    else if !env.devMode && env.appBaseUrl == "" then Some(Error(500, "APP_BASE_URL is not set"))
    else None
  }

  /** Mail can be sent exactly when the service logs instead of mailing, or when
      the sender, every transport setting and the link base are all configured. */
  lemma ConfigErrorExact(env: MailEnv)
    ensures ConfigError(env).None? <==>
      env.devMode || (env.smtpFrom != "" && env.appBaseUrl != "" && forall s :: IsSet(env.smtp, s))
    ensures ConfigError(env).Some? ==> ConfigError(env).value.status == 500
  {
    MissingNamesExact(env.smtp);
  }

  /** The configuration checks shared by the three senders, in their order. */
  method CheckMailConfig(env: MailEnv) returns (r: Option<Error>)
    ensures r == ConfigError(env)
  {
    if env.smtpFrom == "" && !env.devMode {
      return Some(Error(500, "SMTP_FROM is not set"));
    }
    if !env.devMode {
      var mailerError := GetMailerConfigError(env.smtp);
      if mailerError.Some? {
        return Some(Error(500, mailerError.value));
      }
      if env.appBaseUrl == "" {
        return Some(Error(500, "APP_BASE_URL is not set"));
      }
    }
    return None;
  }

  // ---------------------------------------------------------------------------
  // The invitation upsert

  /** The code drawn from a value of the random source. */
  function CodeFrom(draw: nat): (code: string)
    ensures |code| == 6 && AllDigits(code)
  {
    GenerateOtp(draw % Pow10(OtpDigits), OtpDigits)
  }

  /** Every invitation in slot `key` carries the newly issued code, and there is
      one. */
  ghost predicate SlotIssued(invs: seq<Invitation>, key: SlotKey, email: string, digest: string,
                             expiresAt: int, now: int) {
    && (exists j :: 0 <= j < |invs| && invs[j].Key() == key)
    && forall j :: 0 <= j < |invs| && invs[j].Key() == key ==>
         && invs[j].email == email && invs[j].otpCodeHash == digest
         && invs[j].otpExpiresAt == expiresAt && invs[j].lastOtpSentAt == Some(now)
         && invs[j].verifiedAt.None?
  }

  /** `Invitation.findOneAndUpdate({ quizId, studentId }, { $set, $setOnInsert },
      { upsert: true })`: the slot's invitation gets the new address, digest,
      expiry and send time and loses its verification; a new one starts from the
      schema defaults. The attempt counter and ceiling of an existing
      invitation are not part of the update. */
  function Upsert(invs: seq<Invitation>, key: SlotKey, email: string, digest: string,
                  expiresAt: int, now: int): (r: seq<Invitation>)
    ensures UniqueSlots(invs) ==> UniqueSlots(r) && SlotIssued(r, key, email, digest, expiresAt, now)
  {
    match FindSlot(invs, key)
    case None =>
      var r := invs + [NewInvitation(key.quizId, key.studentId, email, digest, expiresAt).(lastOtpSentAt := Some(now))];
      assert r[|invs|].Key() == key;
      r
    case Some(i) =>
      UpsertUpdate(invs, i, key, email, digest, expiresAt, now);
      invs[i := invs[i].(email := email, otpCodeHash := digest, otpExpiresAt := expiresAt,
                         lastOtpSentAt := Some(now), verifiedAt := None)]
  }

  /** What the upsert leaves alone: every other slot, and the attempt counter and
      ceiling of the slot's existing invitation; only a slot seen for the first
      time grows the collection, by one new invitation at the end. */
  lemma UpsertFrame(invs: seq<Invitation>, key: SlotKey, email: string, digest: string,
                    expiresAt: int, now: int)
    ensures var r := Upsert(invs, key, email, digest, expiresAt, now);
      && |invs| <= |r| <= |invs| + 1
      && (forall j :: 0 <= j < |invs| && invs[j].Key() != key ==> r[j] == invs[j])
      && (forall j :: 0 <= j < |invs| && invs[j].Key() == key ==>
            r[j].otpAttempts == invs[j].otpAttempts && r[j].maxOtpAttempts == invs[j].maxOtpAttempts)
      && (forall j :: |invs| <= j < |r| ==>
            r[j] == NewInvitation(key.quizId, key.studentId, email, digest, expiresAt).(lastOtpSentAt := Some(now)))
      && (|r| == |invs| + 1 <==> forall j :: 0 <= j < |invs| ==> invs[j].Key() != key)
  {
  }

  lemma UpsertUpdate(invs: seq<Invitation>, i: nat, key: SlotKey, email: string, digest: string,
                     expiresAt: int, now: int)
    requires i < |invs| && invs[i].Key() == key
    ensures var r := invs[i := invs[i].(email := email, otpCodeHash := digest, otpExpiresAt := expiresAt,
                                        lastOtpSentAt := Some(now), verifiedAt := None)];
      UniqueSlots(invs) ==> SlotIssued(r, key, email, digest, expiresAt, now)
  {
    var r := invs[i := invs[i].(email := email, otpCodeHash := digest, otpExpiresAt := expiresAt,
                                lastOtpSentAt := Some(now), verifiedAt := None)];
    assert r[i].Key() == key;
    if UniqueSlots(invs) {
      forall j | 0 <= j < |r| && j != i ensures r[j].Key() != key {
        assert r[j] == invs[j];
      }
    }
  }

  /** Re-issuing a code never lifts a lockout: an invitation that has used up its
      code attempts still turns every start away after a new code is sent, while
      the new code is valid. */
  lemma ReissueKeepsLockout(invs: seq<Invitation>, key: SlotKey, email: string, digest: string,
                            expiresAt: int, now: int, quiz: Quiz, j: nat, later: int)
    requires UniqueSlots(invs) && j < |invs| && invs[j].Key() == key
    requires invs[j].otpAttempts >= invs[j].maxOtpAttempts
    requires quiz.status == Published && OtpService.InWindow(quiz.settings, later) && later <= expiresAt
    ensures var r := Upsert(invs, key, email, digest, expiresAt, now);
      j < |r| && r[j].Key() == key && r[j].otpCodeHash == digest
      && OtpService.Gate(Some(quiz), Some(r[j]), later) == Fail(Error(429, "OTP attempts exceeded"))
  {
    var r := Upsert(invs, key, email, digest, expiresAt, now);
    UpsertFrame(invs, key, email, digest, expiresAt, now);
    assert r[j].otpAttempts == invs[j].otpAttempts && r[j].maxOtpAttempts == invs[j].maxOtpAttempts;
  }

  /** Issuing to another slot leaves a slot's issued code in place. */
  lemma UpsertKeepsOtherSlot(invs: seq<Invitation>, key: SlotKey, email: string, digest: string,
                             expiresAt: int, now: int,
                             key': SlotKey, email': string, digest': string, expiresAt': int, now': int)
    requires key != key'
    requires SlotIssued(invs, key', email', digest', expiresAt', now')
    ensures SlotIssued(Upsert(invs, key, email, digest, expiresAt, now), key', email', digest', expiresAt', now')
  {
    var r := Upsert(invs, key, email, digest, expiresAt, now);
    UpsertFrame(invs, key, email, digest, expiresAt, now);
    var j :| 0 <= j < |invs| && invs[j].Key() == key';
    assert r[j] == invs[j];
  }

  // ---------------------------------------------------------------------------
  // Issuing to a whole roster

  /** The invitations after issuing, in roster order, the code drawn from
      `random(k)` to the `k`-th student of `roster`. */
  function IssueAll(invs: seq<Invitation>, quizId: Id, roster: seq<Student>, hash: string -> string,
                    random: nat -> nat, expiresAt: int, now: int): (r: seq<Invitation>)
    ensures UniqueSlots(invs) ==> UniqueSlots(r)
    decreases |roster|
  {
    if roster == [] then invs
    else
      var n := |roster| - 1;
      Upsert(IssueAll(invs, quizId, roster[..n], hash, random, expiresAt, now),
             SlotKey(quizId, roster[n].id), roster[n].email, hash(CodeFrom(random(n))), expiresAt, now)
  }

  /** After a roster is issued to, each of its students' slots holds the code
      last drawn for that student, at the student's address. */
  lemma {:induction false} IssueAllIssuesEach(invs: seq<Invitation>, quizId: Id, roster: seq<Student>,
                                              hash: string -> string, random: nat -> nat, expiresAt: int, now: int)
    requires UniqueSlots(invs) && UniqueBy(roster, StudentKey)
    ensures forall k :: 0 <= k < |roster| ==>
      SlotIssued(IssueAll(invs, quizId, roster, hash, random, expiresAt, now), SlotKey(quizId, roster[k].id),
                 roster[k].email, hash(CodeFrom(random(k))), expiresAt, now)
    decreases |roster|
  {
    if roster != [] {
      var n := |roster| - 1;
      var prefix := roster[..n];
      IssueAllIssuesEach(invs, quizId, prefix, hash, random, expiresAt, now);
      UpsertKeepsIssued(IssueAll(invs, quizId, prefix, hash, random, expiresAt, now), quizId, roster,
                        hash, random, expiresAt, now);
    }
  }

  /** Issuing to the last student of a roster keeps the slots issued to the
      students before it, whose ids differ from the last one's. */
  lemma UpsertKeepsIssued(before: seq<Invitation>, quizId: Id, roster: seq<Student>,
                          hash: string -> string, random: nat -> nat, expiresAt: int, now: int)
    requires roster != [] && UniqueBy(roster, StudentKey)
    requires forall k :: 0 <= k < |roster| - 1 ==>
      SlotIssued(before, SlotKey(quizId, roster[..|roster| - 1][k].id),
                 roster[..|roster| - 1][k].email, hash(CodeFrom(random(k))), expiresAt, now)
    ensures forall k :: 0 <= k < |roster| - 1 ==>
      SlotIssued(Upsert(before, SlotKey(quizId, roster[|roster| - 1].id), roster[|roster| - 1].email,
                        hash(CodeFrom(random(|roster| - 1))), expiresAt, now),
                 SlotKey(quizId, roster[k].id), roster[k].email, hash(CodeFrom(random(k))), expiresAt, now)
  {
    var n := |roster| - 1;
    forall k | 0 <= k < n
      ensures SlotIssued(Upsert(before, SlotKey(quizId, roster[n].id), roster[n].email, hash(CodeFrom(random(n))),
                                expiresAt, now),
                         SlotKey(quizId, roster[k].id), roster[k].email, hash(CodeFrom(random(k))), expiresAt, now)
    {
      assert roster[..n][k] == roster[k];
      assert StudentKey(roster[k]) != StudentKey(roster[n]);
      UpsertKeepsOtherSlot(before, SlotKey(quizId, roster[n].id), roster[n].email, hash(CodeFrom(random(n))),
                           expiresAt, now, SlotKey(quizId, roster[k].id), roster[k].email,
                           hash(CodeFrom(random(k))), expiresAt, now);
    }
  }

  /** Invitations in slots outside the roster are left as they were. */
  lemma {:induction false} IssueAllKeepsOthers(invs: seq<Invitation>, quizId: Id, roster: seq<Student>,
                                               hash: string -> string, random: nat -> nat, expiresAt: int, now: int)
    ensures var r := IssueAll(invs, quizId, roster, hash, random, expiresAt, now);
      |invs| <= |r| &&
      forall j :: 0 <= j < |invs| && (invs[j].quizId != quizId || forall k :: 0 <= k < |roster| ==> invs[j].studentId != roster[k].id)
        ==> r[j] == invs[j]
    decreases |roster|
  {
    if roster != [] {
      var n := |roster| - 1;
      IssueAllKeepsOthers(invs, quizId, roster[..n], hash, random, expiresAt, now);
      var before := IssueAll(invs, quizId, roster[..n], hash, random, expiresAt, now);
      UpsertFrame(before, SlotKey(quizId, roster[n].id), roster[n].email, hash(CodeFrom(random(n))), expiresAt, now);
      forall j | 0 <= j < |invs| && (invs[j].quizId != quizId || forall k :: 0 <= k < |roster| ==> invs[j].studentId != roster[k].id)
        ensures IssueAll(invs, quizId, roster, hash, random, expiresAt, now)[j] == invs[j]
      {
        if invs[j].quizId == quizId {
          forall k | 0 <= k < n ensures invs[j].studentId != roster[..n][k].id {
            assert roster[..n][k] == roster[k];
          }
        }
        assert before[j] == invs[j];
        assert before[j].Key() != SlotKey(quizId, roster[n].id);
      }
    }
  }

  /** The audit entry for one issued code. */
  function SentLog(quizId: Id, kind: string, verb: string, s: Student): AuditLog {
    AuditLog(quizId, kind, verb + s.email, AuditMeta(None, Some(s.email)))
  }

  /** The audit entry `sendInvitations` writes for one student. */
  function SentEntry(quizId: Id, s: Student): AuditLog {
    SentLog(quizId, "otp_sent", "OTP sent to ", s)
  }

  /** The audit entries of a roster send, one per student in roster order. */
  function SentLogs(quizId: Id, roster: seq<Student>): (r: seq<AuditLog>)
    ensures |r| == |roster|
    decreases |roster|
  {
    if roster == [] then []
    else
      var n := |roster| - 1;
      SentLogs(quizId, roster[..n]) + [SentEntry(quizId, roster[n])]
  }

  /** `sendInvitations(quizId)` at instant `now`: every student of the quiz gets
      a fresh code, in roster order; `random(k)` is the random source's value
      for the `k`-th student. */
  method SendInvitations(st: Store, env: MailEnv, quizId: Id, random: nat -> nat, now: int)
    returns (r: Outcome)
    requires st.Valid()
    modifies st
    ensures st.Valid()
    ensures StudentsOf(old(st.students), quizId) == [] ==>
              r == Fail(Error(400, "No students found")) && st.Db() == old(st.Db())
    ensures StudentsOf(old(st.students), quizId) != [] && ConfigError(env).Some? ==>
              r == Fail(ConfigError(env).value) && st.Db() == old(st.Db())
    ensures StudentsOf(old(st.students), quizId) != [] && ConfigError(env).None? ==>
      var roster := StudentsOf(old(st.students), quizId);
      && r == Pass
      && st.Db() == old(st.Db()).(
           invitations := IssueAll(old(st.invitations), quizId, roster, st.hash, random, now + OtpLifetimeMs, now),
           auditLogs := old(st.auditLogs) + SentLogs(quizId, roster))
  {
    var roster := StudentsOf(st.students, quizId);
    if |roster| == 0 {
      return Fail(Error(400, "No students found"));
    }
    var configError := CheckMailConfig(env);
    if configError.Some? {
      return Fail(configError.value);
    }
    var expiresAt := now + OtpLifetimeMs;
    var invs, sent := IssueLoop(st.invitations, quizId, roster, st.hash, random, expiresAt, now);
    var logs := st.auditLogs + sent;
    ghost var d := st.Db();
    StudentsOfUnique(d.students, quizId);
    st.invitations, st.auditLogs := invs, logs;
    assert st.Db() == d.(invitations := invs, auditLogs := logs);
    ReissueKeepsValid(d, invs, logs);
    return Pass;
  }

  /** The loop of `sendInvitations` over the roster: one code per student, then
      one audit entry. */
  method IssueLoop(invs0: seq<Invitation>, quizId: Id, roster: seq<Student>,
                   hash: string -> string, random: nat -> nat, expiresAt: int, now: int)
    returns (invs: seq<Invitation>, sent: seq<AuditLog>)
    ensures invs == IssueAll(invs0, quizId, roster, hash, random, expiresAt, now)
    ensures sent == SentLogs(quizId, roster)
  {
    invs, sent := invs0, [];
    var k := 0;
    while k < |roster|
      invariant 0 <= k <= |roster|
      invariant invs == IssueAll(invs0, quizId, roster[..k], hash, random, expiresAt, now)
      invariant sent == SentLogs(quizId, roster[..k])
    {
      var student := roster[k];
      var otp := CodeFrom(random(k));
      IssueStep(invs0, quizId, roster, hash, random, expiresAt, now, k);
      SentLogsStep(quizId, roster, k);
      invs := Upsert(invs, SlotKey(quizId, student.id), student.email, HashOtp(hash, otp), expiresAt, now);
      sent := sent + [SentEntry(quizId, student)];
      k := k + 1;
    }
    assert roster[..k] == roster;
  }

  /** One more student of the roster issued to. */
  lemma IssueStep(invs: seq<Invitation>, quizId: Id, roster: seq<Student>, hash: string -> string,
                  random: nat -> nat, expiresAt: int, now: int, k: nat)
    requires k < |roster|
    ensures IssueAll(invs, quizId, roster[..k + 1], hash, random, expiresAt, now)
         == Upsert(IssueAll(invs, quizId, roster[..k], hash, random, expiresAt, now),
                   SlotKey(quizId, roster[k].id), roster[k].email, hash(CodeFrom(random(k))), expiresAt, now)
  {
    var p := roster[..k + 1];
    assert p[..k] == roster[..k];
    assert p[k] == roster[k];
  }

  lemma SentLogsStep(quizId: Id, roster: seq<Student>, k: nat)
    requires k < |roster|
    ensures SentLogs(quizId, roster[..k + 1])
         == SentLogs(quizId, roster[..k]) + [SentEntry(quizId, roster[k])]
  {
    var p := roster[..k + 1];
    assert p[..k] == roster[..k];
    assert p[k] == roster[k];
  }

  /** The key the resend limiter counts under. */
  function ResendKey(quizId: Id, email: string): string {
    "otp-resend:" + quizId + ":" + email
  }

  /** `resendInvitation(quizId, email)` at instant `now`, with `draw` the random
      source's value: at most three resends per address and quiz in ten
      minutes, then a fresh code for the student with that address. */
  method ResendInvitation(st: Store, limiter: RateLimiter, env: MailEnv, quizId: Id, email: string,
                          draw: nat, now: int)
    returns (r: Outcome)
    requires st.Valid()
    modifies st, limiter
    ensures st.Valid()
    ensures var d := Decide(if ResendKey(quizId, email) in old(limiter.entries)
                            then Some(old(limiter.entries)[ResendKey(quizId, email)]) else None,
                            now, 3, 10 * 60 * 1000);
      limiter.entries == old(limiter.entries)[ResendKey(quizId, email) := d.entry]
      && (!d.allowed ==> r == Fail(Error(429, "OTP resend rate limit exceeded")) && st.Db() == old(st.Db()))
      && (d.allowed ==> IssuedToOne(old(st.Db()), st.Db(), r, env, quizId, email,
                                    st.hash(CodeFrom(draw)), now, "otp_resend", "OTP resent to "))
  {
    var allowed := limiter.Admit(ResendKey(quizId, email), 3, 10 * 60 * 1000, now);
    if !allowed {
      return Fail(Error(429, "OTP resend rate limit exceeded"));
    }
    r := IssueToOne(st, env, quizId, email, draw, now, "otp_resend", "OTP resent to ");
  }

  /** `sendInvitationToStudent(quizId, email)` at instant `now`, with `draw` the
      random source's value. */
  method SendInvitationToStudent(st: Store, env: MailEnv, quizId: Id, email: string, draw: nat, now: int)
    returns (r: Outcome)
    requires st.Valid()
    modifies st
    ensures st.Valid()
    ensures IssuedToOne(old(st.Db()), st.Db(), r, env, quizId, email, st.hash(CodeFrom(draw)), now,
                        "otp_sent", "OTP sent to ")
  {
    r := IssueToOne(st, env, quizId, email, draw, now, "otp_sent", "OTP sent to ");
  }

  /** What issuing a code to the student with address `email` does: 404 when no
      such student is on the roster, the configuration error if any, otherwise
      the student's slot gets the new code and one audit entry is written. */
  ghost predicate IssuedToOne(d: DbState, d': DbState, r: Outcome, env: MailEnv, quizId: Id, email: string,
                              digest: string, now: int, kind: string, verb: string) {
    match FindStudent(d.students, quizId, email)
    case None => r == Fail(Error(404, "Student not found")) && d' == d
    case Some(i) =>
      if ConfigError(env).Some? then r == Fail(ConfigError(env).value) && d' == d
      else
        var s := d.students[i];
        && r == Pass
        && d' == d.(invitations := Upsert(d.invitations, SlotKey(quizId, s.id), s.email, digest,
                                          now + OtpLifetimeMs, now),
                    auditLogs := d.auditLogs + [SentLog(quizId, kind, verb, s)])
  }

  /** The part shared by the resend and the single send. */
  method IssueToOne(st: Store, env: MailEnv, quizId: Id, email: string, draw: nat, now: int,
                    kind: string, verb: string)
    returns (r: Outcome)
    requires st.Valid()
    modifies st
    ensures st.Valid()
    ensures IssuedToOne(old(st.Db()), st.Db(), r, env, quizId, email, st.hash(CodeFrom(draw)), now, kind, verb)
  {
    var si := FindStudent(st.students, quizId, email);
    if si.None? {
      return Fail(Error(404, "Student not found"));
    }
    var student := st.students[si.value];
    var configError := CheckMailConfig(env);
    if configError.Some? {
      return Fail(configError.value);
    }
    var otp := CodeFrom(draw);
    var invs := Upsert(st.invitations, SlotKey(quizId, student.id), student.email,
                       HashOtp(st.hash, otp), now + OtpLifetimeMs, now);
    var logs := st.auditLogs + [SentLog(quizId, kind, verb, student)];
    ReissueKeepsValid(st.Db(), invs, logs);
    st.Commit(st.Db().(invitations := invs, auditLogs := logs));
    return Pass;
  }
}
