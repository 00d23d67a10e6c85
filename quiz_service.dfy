/** The instructor's quiz operations: listing (which first closes every
    published quiz whose end has passed), lookup by owner, creation with
    schema defaults, update with the settings merge and the reopen rule, and
    the status switch. Dates arriving as text are parsed by an oracle `parse`
    standing for `new Date(text)`; `None` is an invalid date. */
module QuizService {
  import opened Common
  import opened Models
  import opened Storage

  /** The keys of a create or update payload that the quiz schema declares;
      `None` marks a key the payload leaves out. The status is request text,
      which an update stores unvalidated. */
  datatype QuizPayload = QuizPayload(
    instructorId: Option<Id>,
    title: Option<string>,
    description: Option<string>,
    quizCode: Option<string>,
    settings: Option<SettingsPatch>,
    status: Option<string>)

  const QuizNotFound := Error(404, "Quiz not found")

  // ---------------------------------------------------------------------------
  // Settings normalization

  /** A text date becomes the instant it parses to, or null when it is not a
      valid date; any other value is kept. */
  function NormalizeDate(d: Option<RawDate>, parse: string -> Option<int>): (r: Option<RawDate>)
    ensures r.None? <==> d.None?
    ensures r.Some? ==> !r.value.TextDate?
    ensures d.Some? && !d.value.TextDate? ==> r == d
  {
    match d
    case Some(TextDate(t)) => if parse(t).Some? then Some(NumberDate(parse(t).value)) else Some(NullDate)
    case _ => d
  }

  /** `normalizeSettings`: an absent settings object stays absent; otherwise
      the text dates `startAt` and `endAt` are parsed and every other key is
      copied unchanged. */
  function NormalizeSettings(p: Option<SettingsPatch>, parse: string -> Option<int>): (r: Option<SettingsPatch>)
    ensures r.None? <==> p.None?
    ensures r.Some? ==> r.value == p.value.(startAt := r.value.startAt, endAt := r.value.endAt)
    ensures r.Some? ==> NoTextDates(r.value)
  {
    if p.None? then None
    else Some(p.value.(startAt := NormalizeDate(p.value.startAt, parse),
                       endAt := NormalizeDate(p.value.endAt, parse)))
  }

  predicate NoTextDates(p: SettingsPatch) {
    (p.startAt.Some? ==> !p.startAt.value.TextDate?) && (p.endAt.Some? ==> !p.endAt.value.TextDate?)
  }

  /** Normalizing twice is normalizing once. */
  lemma NormalizeIdempotent(p: Option<SettingsPatch>, parse: string -> Option<int>)
    ensures NormalizeSettings(NormalizeSettings(p, parse), parse) == NormalizeSettings(p, parse)
  {
  }

  /** What a normalized patch stores for a date: the parsed instant of a valid
      text date, nothing for an invalid one. */
  lemma NormalizedDateStored(p: SettingsPatch, base: QuizSettings, parse: string -> Option<int>, t: string)
    requires p.endAt == Some(TextDate(t))
    ensures Merge(base, NormalizeSettings(Some(p), parse).value).endAt == parse(t)
  {
  }

  // ---------------------------------------------------------------------------
  // Listing

  /** A quiz the listing closes: the instructor's, published, with an end
      strictly before `now`. */
  predicate Overdue(q: Quiz, instructorId: Id, now: int) {
    q.instructorId == instructorId && q.status == Published &&
    q.settings.endAt.Some? && q.settings.endAt.value < now
  }

  function AutoClose(q: Quiz, instructorId: Id, now: int): Quiz {
    if Overdue(q, instructorId, now) then q.(status := Closed) else q
  }

  /** The `updateMany` of `listQuizzes`, quiz by quiz. */
  function AutoCloseAll(qs: seq<Quiz>, instructorId: Id, now: int): (r: seq<Quiz>)
    ensures |r| == |qs|
    ensures forall k :: 0 <= k < |qs| ==> r[k] == AutoClose(qs[k], instructorId, now)
  {
    seq(|qs|, k requires 0 <= k < |qs| => AutoClose(qs[k], instructorId, now))
  }

  /** `Quiz.find({ instructorId })`: the instructor's quizzes in storage order. */
  function QuizzesOf(qs: seq<Quiz>, instructorId: Id): (r: seq<Quiz>)
    ensures |r| <= |qs|
    ensures forall i :: 0 <= i < |r| ==> r[i] in qs && r[i].instructorId == instructorId
    ensures forall i {:trigger qs[i] in r} :: 0 <= i < |qs| && qs[i].instructorId == instructorId ==> qs[i] in r
  {
    if qs == [] then []
    else
      var rest := QuizzesOf(qs[1..], instructorId);
      assert qs == [qs[0]] + qs[1..];
      if qs[0].instructorId == instructorId then [qs[0]] + rest else rest
  }

  /** Closing overdue quizzes changes only their status, only for those quizzes,
      and a second pass changes nothing. */
  lemma AutoCloseExactly(qs: seq<Quiz>, instructorId: Id, now: int)
    ensures var r := AutoCloseAll(qs, instructorId, now);
      && (forall k :: 0 <= k < |qs| ==> r[k] == qs[k].(status := r[k].status))
      && (forall k :: 0 <= k < |qs| ==> (r[k] != qs[k] <==> Overdue(qs[k], instructorId, now)))
      && AutoCloseAll(r, instructorId, now) == r
  {
  }

  /** No quiz the listing returns is still published past its end. */
  lemma ListedNotOverdue(qs: seq<Quiz>, instructorId: Id, now: int)
    ensures var listed := QuizzesOf(AutoCloseAll(qs, instructorId, now), instructorId);
      forall i :: 0 <= i < |listed| ==> !Overdue(listed[i], instructorId, now)
  {
    var closed := AutoCloseAll(qs, instructorId, now);
    var listed := QuizzesOf(closed, instructorId);
    forall i | 0 <= i < |listed| ensures !Overdue(listed[i], instructorId, now) {
      var k :| 0 <= k < |closed| && closed[k] == listed[i];
    }
  }

  /** `listQuizzes`: closes the instructor's overdue quizzes, then returns all
      of the instructor's quizzes. */
  method ListQuizzes(st: Store, instructorId: Id, now: int) returns (r: seq<Quiz>)
    requires st.Valid()
    modifies st
    ensures st.Valid()
    ensures st.Db() == old(st.Db()).(quizzes := AutoCloseAll(old(st.quizzes), instructorId, now))
    ensures r == QuizzesOf(st.quizzes, instructorId)
  {
    ghost var d := st.Db();
    var i := 0;
    while i < |st.quizzes|
      invariant 0 <= i <= |st.quizzes| == |d.quizzes|
      invariant forall k :: 0 <= k < i ==> st.quizzes[k] == AutoClose(d.quizzes[k], instructorId, now)
      invariant forall k :: i <= k < |d.quizzes| ==> st.quizzes[k] == d.quizzes[k]
      invariant st.Db() == d.(quizzes := st.quizzes)
    {
      if Overdue(st.quizzes[i], instructorId, now) {
        st.quizzes := st.quizzes[i := st.quizzes[i].(status := Closed)];
      }
      i := i + 1;
    }
    assert st.quizzes == AutoCloseAll(d.quizzes, instructorId, now);
    QuizzesKeepIdsValid(d, st.quizzes);
    r := QuizzesOf(st.quizzes, instructorId);
  }

  // ---------------------------------------------------------------------------
  // Lookup by owner

  /** `getQuiz`: the quiz with this id, only when this instructor owns it. */
  function GetQuiz(st: Store, instructorId: Id, quizId: Id): (r: Result<Quiz>)
    reads st
    ensures r.Ok? ==> r.value in st.quizzes && r.value.id == quizId && r.value.instructorId == instructorId
    ensures r.Err? ==> r.error == QuizNotFound
    ensures st.Valid() ==>
      (r.Err? <==> forall k :: 0 <= k < |st.quizzes| ==>
                     st.quizzes[k].id != quizId || st.quizzes[k].instructorId != instructorId)
  {
    match st.OwnedQuizIndex(quizId, instructorId)
    case None => Err(QuizNotFound)
    case Some(i) => Ok(st.quizzes[i])
  }

  /** `assertQuizOwnership`: passes exactly when `getQuiz` would find the quiz. */
  function AssertQuizOwnership(st: Store, instructorId: Id, quizId: Id): (r: Outcome)
    reads st
    ensures r.Fail? ==> r.error == QuizNotFound
    ensures r.Pass? <==> GetQuiz(st, instructorId, quizId).Ok?
  {
    if st.OwnedQuizIndex(quizId, instructorId).Some? then Pass else Fail(QuizNotFound)
  }

  // ---------------------------------------------------------------------------
  // Creation

  /** The document `createQuiz` stores: the payload's text fields, the
      normalized settings over the schema defaults, status draft. */
  function NewQuiz(id: Id, instructorId: Id, payload: QuizPayload, parse: string -> Option<int>): Quiz
    requires payload.title.Some?
  {
    Quiz(id, instructorId, payload.title.value, payload.description, payload.quizCode,
         Merge(DefaultSettings, NormalizeSettings(payload.settings, parse).GetOr(EmptyPatch)), Draft)
  }

  /** A quiz created without settings gets exactly the schema defaults; a
      supplied key overrides its default. */
  lemma NewQuizSettings(id: Id, instructorId: Id, payload: QuizPayload, parse: string -> Option<int>)
    requires payload.title.Some?
    ensures payload.settings.None? ==> NewQuiz(id, instructorId, payload, parse).settings == DefaultSettings
    ensures payload.settings.Some? && payload.settings.value.questionTimeSeconds.Some? ==>
      NewQuiz(id, instructorId, payload, parse).settings.questionTimeSeconds
        == payload.settings.value.questionTimeSeconds.value
    ensures NewQuiz(id, instructorId, payload, parse).status == Draft
  {
    if payload.settings.None? {
      MergeEmpty(DefaultSettings);
    }
  }

  /** `createQuiz`. A missing or empty title fails the schema's `required`
      validation, which the handlers report as an internal error. */
  method CreateQuiz(st: Store, instructorId: Id, payload: QuizPayload, parse: string -> Option<int>)
    returns (r: Result<Quiz>)
    requires st.Valid()
    modifies st
    ensures st.Valid()
    ensures var d := old(st.Db());
      if payload.title.None? || payload.title.value == "" then
        r == Err(Error(500, "Internal server error")) && st.Db() == d
      else
        && r.Ok? && r.value.id !in d.usedIds
        && r.value == NewQuiz(r.value.id, instructorId, payload, parse)
        && st.Db() == d.(quizzes := d.quizzes + [r.value], usedIds := d.usedIds + {r.value.id})
  {
    if payload.title.None? || payload.title.value == "" {
      return Err(Error(500, "Internal server error"));
    }
    ghost var d := st.Db();
    var id := st.FreshId();
    var quiz := NewQuiz(id, instructorId, payload, parse);
    AppendQuizKeepsValid(d, quiz);
    st.quizzes := st.quizzes + [quiz];
    r := Ok(quiz);
  }

  // ---------------------------------------------------------------------------
  // Update

  /** The `$set` of `updateQuiz`: supplied owner, text fields and status
      replace the stored ones; supplied settings are normalized and merged over
      the stored settings; absent settings leave them alone. */
  function Applied(existing: Quiz, payload: QuizPayload, parse: string -> Option<int>): Quiz {
    var settings := NormalizeSettings(payload.settings, parse);
    existing.(
      instructorId := payload.instructorId.GetOr(existing.instructorId),
      title := payload.title.GetOr(existing.title),
      description := if payload.description.Some? then payload.description else existing.description,
      quizCode := if payload.quizCode.Some? then payload.quizCode else existing.quizCode,
      settings := if settings.Some? then Merge(existing.settings, settings.value) else existing.settings,
      status := AskedStatus(existing, payload))
  }

  /** The status the payload asks for, or the stored one. */
  function AskedStatus(existing: Quiz, payload: QuizPayload): QuizStatus {
    if payload.status.Some? then ParseStatus(payload.status.value) else existing.status
  }

  /** The reopen rule: the raw payload supplies a truthy `endAt`, the updated
      quiz is closed, and its stored end lies strictly after `now`. */
  predicate Reopens(payload: QuizPayload, updated: Quiz, now: int) {
    && payload.settings.Some? && payload.settings.value.endAt.Some?
    && RawDateTruthy(payload.settings.value.endAt.value)
    && updated.status == Closed
    && updated.settings.endAt.Some? && updated.settings.endAt.value > now
  }

  /** The quiz as stored after the update. The reopening `findOneAndUpdate`
      looks the quiz up under the caller's id, so it reopens nothing once the
      first update has handed the quiz to another owner. */
  function Updated(existing: Quiz, payload: QuizPayload, parse: string -> Option<int>, now: int): Quiz {
    var q := Applied(existing, payload, parse);
    if Reopens(payload, q, now) && q.instructorId == existing.instructorId then q.(status := Published) else q
  }

  /** What `updateQuiz` returns: the stored quiz, or null when the reopening
      lookup misses a quiz the update moved to another owner. */
  function UpdateReply(existing: Quiz, payload: QuizPayload, parse: string -> Option<int>, now: int): Option<Quiz> {
    var q := Applied(existing, payload, parse);
    if Reopens(payload, q, now) && q.instructorId != existing.instructorId then None
    else Some(Updated(existing, payload, parse, now))
  }

  /** The status after an update: the requested (or kept) status, except that
      a closed quiz whose end the payload moves into the future is published
      again, provided its owner stays the same. */
  lemma UpdatedStatus(existing: Quiz, payload: QuizPayload, parse: string -> Option<int>, now: int)
    ensures var asked := AskedStatus(existing, payload);
      var u := Updated(existing, payload, parse, now);
      && (asked != Closed ==> u.status == asked)
      && (asked == Closed ==>
            (u.status == Published <==>
               && payload.settings.Some? && payload.settings.value.endAt.Some?
               && RawDateTruthy(payload.settings.value.endAt.value)
               && u.settings.endAt.Some? && u.settings.endAt.value > now
               && u.instructorId == existing.instructorId))
      && (asked == Closed && u.status != Published ==> u.status == Closed)
  {
  }

  /** An end date given as text that is not a valid date is stored as null, so
      it never reopens the quiz even though the raw value is truthy. */
  lemma InvalidEndNeverReopens(existing: Quiz, payload: QuizPayload, parse: string -> Option<int>,
                               now: int, t: string)
    requires payload.settings.Some? && payload.settings.value.endAt == Some(TextDate(t))
    requires parse(t).None?
    ensures Updated(existing, payload, parse, now).settings.endAt.None?
    ensures Updated(existing, payload, parse, now).status == AskedStatus(existing, payload)
    ensures UpdateReply(existing, payload, parse, now) == Some(Updated(existing, payload, parse, now))
  {
  }

  /** Every update keeps the id and stores the owner the payload names, if
      any; an update without settings keeps the stored settings and never
      reopens. */
  lemma UpdateFrame(existing: Quiz, payload: QuizPayload, parse: string -> Option<int>, now: int)
    ensures var u := Updated(existing, payload, parse, now);
      && u.id == existing.id
      && (payload.instructorId.None? ==> u.instructorId == existing.instructorId)
      && (payload.instructorId.Some? ==> u.instructorId == payload.instructorId.value)
      && (payload.settings.None? ==>
            u.settings == existing.settings && u.status == AskedStatus(existing, payload))
  {
  }

  /** An update that hands a quiz to another owner while moving its end into
      the future leaves it closed, and the caller gets null back. */
  lemma MovedQuizNotReopened(existing: Quiz, payload: QuizPayload, parse: string -> Option<int>, now: int)
    requires payload.instructorId.Some? && payload.instructorId.value != existing.instructorId
    requires Reopens(payload, Applied(existing, payload, parse), now)
    ensures Updated(existing, payload, parse, now).status == Closed
    ensures Updated(existing, payload, parse, now).instructorId == payload.instructorId.value
    ensures UpdateReply(existing, payload, parse, now).None?
  {
  }

  /** `updateQuiz`. */
  method UpdateQuiz(st: Store, instructorId: Id, quizId: Id, payload: QuizPayload,
                    parse: string -> Option<int>, now: int) returns (r: Result<Option<Quiz>>)
    requires st.Valid()
    modifies st
    ensures st.Valid()
    ensures var d := old(st.Db());
      match old(st.OwnedQuizIndex(quizId, instructorId))
      case None => r == Err(QuizNotFound) && st.Db() == d
      case Some(i) =>
        && r == Ok(UpdateReply(d.quizzes[i], payload, parse, now))
        && st.Db() == d.(quizzes := d.quizzes[i := Updated(d.quizzes[i], payload, parse, now)])
  {
    var found := st.OwnedQuizIndex(quizId, instructorId);
    if found.None? {
      return Err(QuizNotFound);
    }
    var i := found.value;
    ghost var d := st.Db();
    var updated := Applied(st.quizzes[i], payload, parse);
    var reply := Some(updated);
    if Reopens(payload, updated, now) {
      if updated.instructorId == instructorId {
        updated := updated.(status := Published);
        reply := Some(updated);
      } else {
        reply := None;
      }
    }
    QuizzesKeepIdsValid(d, d.quizzes[i := updated]);
    st.quizzes := st.quizzes[i := updated];
    r := Ok(reply);
  }

  /** `updateQuizStatus`: sets the status of an owned quiz to the request's
      text, unvalidated, and changes nothing else. */
  method UpdateQuizStatus(st: Store, instructorId: Id, quizId: Id, status: string)
    returns (r: Result<Quiz>)
    requires st.Valid()
    modifies st
    ensures st.Valid()
    ensures var d := old(st.Db());
      match old(st.OwnedQuizIndex(quizId, instructorId))
      case None => r == Err(QuizNotFound) && st.Db() == d
      case Some(i) =>
        && r.Ok? && QuizStatusName(r.value.status) == status
        && r == Ok(d.quizzes[i].(status := ParseStatus(status))) && st.Db() == d.(quizzes := d.quizzes[i := r.value])
  {
    var found := st.OwnedQuizIndex(quizId, instructorId);
    if found.None? {
      return Err(QuizNotFound);
    }
    var i := found.value;
    ghost var d := st.Db();
    var updated := st.quizzes[i].(status := ParseStatus(status));
    QuizzesKeepIdsValid(d, d.quizzes[i := updated]);
    st.quizzes := st.quizzes[i := updated];
    r := Ok(updated);
  }
}
