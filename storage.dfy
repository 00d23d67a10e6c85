/** The document store the services read and write: one collection per record
    kind, in storage order, plus the set of every identifier ever issued (an
    object id is never reused). The digest function used for one-time codes is
    fixed with the store. */
module Storage {
  import opened Common
  import opened Models

  // ---------------------------------------------------------------------------
  // Keys

  function QuizKey(q: Quiz): Id { q.id }
  function QuestionKey(q: Question): Id { q.id }
  function StudentKey(s: Student): Id { s.id }
  function AttemptKey(a: Attempt): Id { a.id }

  /** The first position whose key is `id`. */
  function IndexOfKey<T>(s: seq<T>, key: T -> Id, id: Id): (r: Option<nat>)
    ensures r.Some? ==> r.value < |s| && key(s[r.value]) == id
    ensures r.Some? ==> forall k :: 0 <= k < r.value ==> key(s[k]) != id
    ensures r.None? <==> forall k :: 0 <= k < |s| ==> key(s[k]) != id
  {
    FirstIndex(s, (v: T) => key(v) == id)
  }

  /** With unique keys, the position holding a key is the only one. */
  lemma IndexOfUnique<T>(s: seq<T>, key: T -> Id, k: nat)
    requires UniqueBy(s, key) && k < |s|
    ensures IndexOfKey(s, key, key(s[k])) == Some(k)
  {
  }

  /** `Question.find({ quizId })`: the quiz's questions in storage order. */
  function QuestionsOf(qs: seq<Question>, quizId: Id): (r: seq<Question>)
    ensures |r| <= |qs|
    ensures forall i :: 0 <= i < |r| ==> r[i] in qs && r[i].quizId == quizId
    ensures forall i {:trigger qs[i] in r} :: 0 <= i < |qs| && qs[i].quizId == quizId ==> qs[i] in r
  {
    Filter(qs, (q: Question) => q.quizId == quizId)
  }

  lemma QuestionsOfUnique(qs: seq<Question>, quizId: Id)
    requires UniqueBy(qs, QuestionKey)
    ensures UniqueBy(QuestionsOf(qs, quizId), QuestionKey)
  {
    FilterKeepsUnique(qs, (q: Question) => q.quizId == quizId, QuestionKey);
  }

  /** `Student.find({ quizId })`: the quiz's roster in storage order. */
  function StudentsOf(ss: seq<Student>, quizId: Id): (r: seq<Student>)
    ensures |r| <= |ss|
    ensures forall i :: 0 <= i < |r| ==> r[i] in ss && r[i].quizId == quizId
    ensures forall i {:trigger ss[i] in r} :: 0 <= i < |ss| && ss[i].quizId == quizId ==> ss[i] in r
  {
    Filter(ss, (s: Student) => s.quizId == quizId)
  }

  lemma StudentsOfUnique(ss: seq<Student>, quizId: Id)
    requires UniqueBy(ss, StudentKey)
    ensures UniqueBy(StudentsOf(ss, quizId), StudentKey)
  {
    FilterKeepsUnique(ss, (s: Student) => s.quizId == quizId, StudentKey);
  }

  /** Every invitation slot (quiz, student) holds at most one invitation. */
  ghost predicate UniqueSlots(invs: seq<Invitation>) {
    forall i, j :: 0 <= i < j < |invs| ==> invs[i].Key() != invs[j].Key()
  }

  /** At most one phase snapshot per (attempt, phase). */
  ghost predicate UniquePhases(snaps: seq<AttemptSnapshot>) {
    forall i, j :: 0 <= i < j < |snaps| ==>
      snaps[i].attemptId != snaps[j].attemptId || snaps[i].phase != snaps[j].phase
  }

  /** The number of stored events recorded for attempt `id`. */
  function EventCount(events: seq<Event>, id: Id): nat {
    if |events| == 0 then 0
    else EventCount(events[..|events| - 1], id) + (if events[|events| - 1].attemptId == id then 1 else 0)
  }

  /** Every event belongs to a stored attempt of the same quiz, and each
      attempt's suspicious-activity counter equals the number of its events. */
  ghost predicate EventsAgree(attempts: seq<Attempt>, events: seq<Event>) {
    && (forall e :: 0 <= e < |events| ==> Owned(attempts, events[e]))
    && (forall i :: 0 <= i < |attempts| ==>
          attempts[i].flags.suspiciousEventsCount == EventCount(events, attempts[i].id))
  }

  /** The event belongs to a stored attempt of its own quiz. */
  ghost predicate Owned(attempts: seq<Attempt>, e: Event) {
    exists i :: 0 <= i < |attempts| && attempts[i].id == e.attemptId && attempts[i].quizId == e.quizId
  }

  /** An event keeps its owner in any sequence that keeps the owning attempt. */
  lemma OwnedKept(attempts: seq<Attempt>, kept: seq<Attempt>, e: Event)
    requires Owned(attempts, e)
    requires forall i :: 0 <= i < |attempts| && attempts[i].id == e.attemptId && attempts[i].quizId == e.quizId
                         ==> attempts[i] in kept
    ensures Owned(kept, e)
  {
    var i :| 0 <= i < |attempts| && attempts[i].id == e.attemptId && attempts[i].quizId == e.quizId;
    var k :| 0 <= k < |kept| && kept[k] == attempts[i];
  }

  /** An event keeps its owner when every attempt keeps its id and quiz. */
  lemma OwnedSameKeys(attempts: seq<Attempt>, atts: seq<Attempt>, e: Event)
    requires Owned(attempts, e) && |atts| == |attempts|
    requires forall k :: 0 <= k < |atts| ==> atts[k].id == attempts[k].id && atts[k].quizId == attempts[k].quizId
    ensures Owned(atts, e)
  {
    var i :| 0 <= i < |attempts| && attempts[i].id == e.attemptId && attempts[i].quizId == e.quizId;
    assert atts[i].id == e.attemptId && atts[i].quizId == e.quizId;
  }

  /** A whole-store value, for stating what an operation leaves unchanged. */
  datatype DbState = DbState(
    quizzes: seq<Quiz>,
    questions: seq<Question>,
    students: seq<Student>,
    invitations: seq<Invitation>,
    attempts: seq<Attempt>,
    events: seq<Event>,
    snapshots: seq<AttemptSnapshot>,
    camSessions: map<Id, SecondCamSession>,
    camSnapshots: seq<SecondCamSnapshot>,
    auditLogs: seq<AuditLog>,
    usedIds: set<Id>)

  /** The store's integrity: identifiers are unique and were issued, invitation
      slots and phase snapshots are unique, and each second-camera session is
      filed under its own attempt (at most one session per attempt). */
  ghost predicate DbValid(d: DbState) {
    && UniqueBy(d.quizzes, QuizKey)
    && UniqueBy(d.questions, QuestionKey)
    && UniqueBy(d.students, StudentKey)
    && UniqueBy(d.attempts, AttemptKey)
    && UniqueSlots(d.invitations)
    && UniquePhases(d.snapshots)
    && (forall i :: 0 <= i < |d.quizzes| ==> d.quizzes[i].id in d.usedIds)
    && (forall i :: 0 <= i < |d.questions| ==> d.questions[i].id in d.usedIds)
    && (forall i :: 0 <= i < |d.students| ==> d.students[i].id in d.usedIds)
    && (forall i :: 0 <= i < |d.attempts| ==> d.attempts[i].id in d.usedIds)
    && (forall id :: id in d.camSessions ==> d.camSessions[id].attemptId == id)
    && EventsAgree(d.attempts, d.events)
  }

  lemma EventCountAppend(events: seq<Event>, e: Event, id: Id)
    ensures EventCount(events + [e], id) == EventCount(events, id) + (if e.attemptId == id then 1 else 0)
  {
    assert (events + [e])[..|events|] == events;
  }

  /** Replacing an attempt by one with the same id, quiz and counter keeps the
      store valid. */
  lemma ReplaceAttemptKeepsValid(d: DbState, i: nat, a: Attempt)
    requires DbValid(d) && i < |d.attempts|
    requires a.id == d.attempts[i].id && a.quizId == d.attempts[i].quizId
    requires a.flags.suspiciousEventsCount == d.attempts[i].flags.suspiciousEventsCount
    ensures DbValid(d.(attempts := d.attempts[i := a]))
  {
    var atts := d.attempts[i := a];
    forall e | 0 <= e < |d.events| ensures Owned(atts, d.events[e]) {
      OwnedSameKeys(d.attempts, atts, d.events[e]);
    }
  }

  /** An attempt id no stored event refers to has no events. */
  lemma {:induction false} EventCountNone(events: seq<Event>, id: Id)
    requires forall e :: 0 <= e < |events| ==> events[e].attemptId != id
    ensures EventCount(events, id) == 0
    decreases |events|
  {
    if |events| > 0 {
      EventCountNone(events[..|events| - 1], id);
    }
  }

  /** Adding a new attempt under a fresh id, with no suspicious events counted,
      keeps the store valid. */
  lemma AppendAttemptKeepsValid(d: DbState, a: Attempt)
    requires DbValid(d)
    requires a.id !in d.usedIds && a.flags.suspiciousEventsCount == 0
    ensures DbValid(d.(attempts := d.attempts + [a], usedIds := d.usedIds + {a.id}))
  {
    var atts := d.attempts + [a];
    forall e | 0 <= e < |d.events| ensures d.events[e].attemptId != a.id && Owned(atts, d.events[e]) {
      assert Owned(d.attempts, d.events[e]);
      var k :| 0 <= k < |d.attempts| && d.attempts[k].id == d.events[e].attemptId
                                    && d.attempts[k].quizId == d.events[e].quizId;
      assert d.attempts[k].id in d.usedIds;
      assert atts[k] == d.attempts[k];
    }
    EventCountNone(d.events, a.id);
    forall i | 0 <= i < |d.attempts| ensures atts[i].id != a.id {
      assert d.attempts[i].id in d.usedIds;
    }
  }

  /** New invitations with unique slots and any audit trail keep the store valid. */
  lemma ReissueKeepsValid(d: DbState, invs: seq<Invitation>, logs: seq<AuditLog>)
    requires DbValid(d) && UniqueSlots(invs)
    ensures DbValid(d.(invitations := invs, auditLogs := logs))
  {
  }

  /** Adding a quiz under a fresh id keeps the store valid. */
  lemma AppendQuizKeepsValid(d: DbState, q: Quiz)
    requires DbValid(d) && q.id !in d.usedIds
    ensures DbValid(d.(quizzes := d.quizzes + [q], usedIds := d.usedIds + {q.id}))
  {
    forall i | 0 <= i < |d.quizzes| ensures d.quizzes[i].id != q.id {
      assert d.quizzes[i].id in d.usedIds;
    }
  }

  function SlotKeyOf(inv: Invitation): SlotKey { inv.Key() }

  function PhaseKey(s: AttemptSnapshot): (Id, Phase) { (s.attemptId, s.phase) }

  lemma UniqueSlotsByKey(invs: seq<Invitation>)
    ensures UniqueSlots(invs) <==> UniqueBy(invs, SlotKeyOf)
  {
  }

  lemma UniquePhasesByKey(snaps: seq<AttemptSnapshot>)
    ensures UniquePhases(snaps) <==> UniqueBy(snaps, PhaseKey)
  {
  }

  /** `Event.deleteMany({ attemptId })`: the other events, in order. */
  function EventsWithout(events: seq<Event>, attemptId: Id): (r: seq<Event>)
    ensures forall k :: 0 <= k < |r| ==> r[k] in events && r[k].attemptId != attemptId
    ensures forall k {:trigger events[k] in r} :: 0 <= k < |events| && events[k].attemptId != attemptId ==> events[k] in r
  {
    Filter(events, NotOfAttempt(attemptId))
  }

  function NotOfAttempt(attemptId: Id): Event -> bool {
    (e: Event) => e.attemptId != attemptId
  }

  lemma EventsWithoutSnoc(events: seq<Event>, attemptId: Id)
    requires events != []
    ensures var n := |events| - 1;
      EventsWithout(events, attemptId) ==
      EventsWithout(events[..n], attemptId) + (if events[n].attemptId != attemptId then [events[n]] else [])
  {
    FilterSnoc(events, NotOfAttempt(attemptId));
  }

  /** Deleting one attempt's events leaves every other attempt's count. */
  lemma {:induction false} EventCountWithout(events: seq<Event>, attemptId: Id, id: Id)
    ensures EventCount(EventsWithout(events, attemptId), id) ==
            if id == attemptId then 0 else EventCount(events, id)
    decreases |events|
  {
    if |events| > 0 {
      var n := |events| - 1;
      var before := EventsWithout(events[..n], attemptId);
      var last := if events[n].attemptId == id then 1 else 0;
      EventCountWithout(events[..n], attemptId, id);
      EventsWithoutSnoc(events, attemptId);
      assert EventCount(events, id) == EventCount(events[..n], id) + last;
      if events[n].attemptId != attemptId {
        EventCountAppend(before, events[n], id);
        assert EventCount(EventsWithout(events, attemptId), id) == EventCount(before, id) + last;
      } else {
        assert EventsWithout(events, attemptId) == before;
      }
    }
  }

  /** `Event.deleteMany({ quizId })`: the other quizzes' events, in order. */
  function EventsOutside(events: seq<Event>, quizId: Id): (r: seq<Event>)
    ensures forall k :: 0 <= k < |r| ==> r[k] in events && r[k].quizId != quizId
    ensures forall k {:trigger events[k] in r} :: 0 <= k < |events| && events[k].quizId != quizId ==> events[k] in r
  {
    Filter(events, NotOfQuiz(quizId))
  }

  function NotOfQuiz(quizId: Id): Event -> bool {
    (e: Event) => e.quizId != quizId
  }

  lemma EventsOutsideSnoc(events: seq<Event>, quizId: Id)
    requires events != []
    ensures var n := |events| - 1;
      EventsOutside(events, quizId) ==
      EventsOutside(events[..n], quizId) + (if events[n].quizId != quizId then [events[n]] else [])
  {
    FilterSnoc(events, NotOfQuiz(quizId));
  }

  /** Deleting a quiz's events leaves the count of an attempt none of whose
      events belongs to that quiz. */
  lemma {:induction false} EventCountOutside(events: seq<Event>, quizId: Id, id: Id)
    requires forall k :: 0 <= k < |events| && events[k].attemptId == id ==> events[k].quizId != quizId
    ensures EventCount(EventsOutside(events, quizId), id) == EventCount(events, id)
    decreases |events|
  {
    if |events| > 0 {
      var n := |events| - 1;
      var before := EventsOutside(events[..n], quizId);
      var last := if events[n].attemptId == id then 1 else 0;
      EventCountOutside(events[..n], quizId, id);
      EventsOutsideSnoc(events, quizId);
      assert EventCount(events, id) == EventCount(events[..n], id) + last;
      if events[n].quizId != quizId {
        EventCountAppend(before, events[n], id);
        assert EventCount(EventsOutside(events, quizId), id) == EventCount(before, id) + last;
      } else {
        assert last == 0;
        assert EventsOutside(events, quizId) == before;
      }
    }
  }

  /** The audit trail takes no part in the store's integrity. */
  lemma AuditKeepsValid(d: DbState, logs: seq<AuditLog>)
    requires DbValid(d)
    ensures DbValid(d.(auditLogs := logs))
  {
  }

  /** Quizzes rewritten in place, each keeping its id, keep the store valid. */
  lemma QuizzesKeepIdsValid(d: DbState, qs: seq<Quiz>)
    requires DbValid(d) && |qs| == |d.quizzes|
    requires forall k :: 0 <= k < |qs| ==> qs[k].id == d.quizzes[k].id
    ensures DbValid(d.(quizzes := qs))
  {
  }

  /** Replacing an invitation by one for the same slot keeps the store valid. */
  lemma ReplaceInvitationKeepsValid(d: DbState, i: nat, inv: Invitation)
    requires DbValid(d) && i < |d.invitations|
    requires inv.Key() == d.invitations[i].Key()
    ensures DbValid(d.(invitations := d.invitations[i := inv]))
  {
  }

  class Store {
    var quizzes: seq<Quiz>
    var questions: seq<Question>
    var students: seq<Student>
    var invitations: seq<Invitation>
    var attempts: seq<Attempt>
    var events: seq<Event>
    var snapshots: seq<AttemptSnapshot>
    var camSessions: map<Id, SecondCamSession>
    var camSnapshots: seq<SecondCamSnapshot>
    var auditLogs: seq<AuditLog>
    var usedIds: set<Id>

    /** SHA-256 of a one-time code, as a hex string. */
    const hash: string -> string

    function Db(): DbState
      reads this
    {
      DbState(quizzes, questions, students, invitations, attempts, events, snapshots,
         camSessions, camSnapshots, auditLogs, usedIds)
    }

    ghost predicate Valid()
      reads this
    {
      DbValid(Db())
    }

    constructor (hash: string -> string)
      ensures Valid()
      ensures this.hash == hash
      ensures Db() == DbState([], [], [], [], [], [], [], map[], [], [], {})
    {
      this.hash := hash;
      quizzes, questions, students, invitations := [], [], [], [];
      attempts, events, snapshots, camSessions := [], [], [], map[];
      camSnapshots, auditLogs, usedIds := [], [], {};
    }

    /** Stores every collection of `d` at once. */
    method Commit(d: DbState)
      modifies this
      ensures Db() == d
    {
      quizzes, questions, students, invitations := d.quizzes, d.questions, d.students, d.invitations;
      attempts, events, snapshots, camSessions := d.attempts, d.events, d.snapshots, d.camSessions;
      camSnapshots, auditLogs, usedIds := d.camSnapshots, d.auditLogs, d.usedIds;
    }

    /** `AuditLog.create(entry)`. */
    method Audit(entry: AuditLog)
      requires Valid()
      modifies this
      ensures Valid()
      ensures Db() == old(Db()).(auditLogs := old(auditLogs) + [entry])
    {
      AuditKeepsValid(Db(), auditLogs + [entry]);
      auditLogs := auditLogs + [entry];
    }

    /** A new object id: one never issued before. */
    method FreshId() returns (id: Id)
      modifies this
      ensures id !in old(usedIds)
      ensures Db() == old(Db()).(usedIds := old(usedIds) + {id})
    {
      var rest := usedIds;
      var longest: nat := 0;
      while rest != {}
        invariant rest <= usedIds
        invariant forall x :: x in usedIds && x !in rest ==> |x| <= longest
        decreases |rest|
      {
        var x :| x in rest;
        if |x| > longest {
          longest := |x|;
        }
        rest := rest - {x};
      }
      id := seq(longest + 1, _ => 'f');
      usedIds := usedIds + {id};
    }

    /** `findById` for attempts. */
    function AttemptIndex(id: Id): (r: Option<nat>)
      reads this
      ensures r.Some? ==> r.value < |attempts| && attempts[r.value].id == id
      ensures r.None? <==> forall k :: 0 <= k < |attempts| ==> attempts[k].id != id
    {
      IndexOfKey(attempts, AttemptKey, id)
    }

    /** `findById` for quizzes. */
    function QuizIndex(id: Id): (r: Option<nat>)
      reads this
      ensures r.Some? ==> r.value < |quizzes| && quizzes[r.value].id == id
      ensures r.None? <==> forall k :: 0 <= k < |quizzes| ==> quizzes[k].id != id
    {
      IndexOfKey(quizzes, QuizKey, id)
    }

    /** `findOne({ _id: quizId, instructorId })`: the quiz, only when the
        instructor owns it. */
    function OwnedQuizIndex(id: Id, instructorId: Id): (r: Option<nat>)
      reads this
      ensures r.Some? ==> r.value < |quizzes| && quizzes[r.value].id == id
                          && quizzes[r.value].instructorId == instructorId
      ensures Valid() && r.None? ==> forall k :: 0 <= k < |quizzes| ==>
                                       quizzes[k].id != id || quizzes[k].instructorId != instructorId
    {
      match QuizIndex(id)
      case None => None
      case Some(i) => if quizzes[i].instructorId == instructorId then Some(i) else None
    }

    /** `Student.findOne({ quizId, email })`. */
    function StudentByEmail(quizId: Id, email: string): (r: Option<nat>)
      reads this
      ensures r.Some? ==> r.value < |students| && students[r.value].quizId == quizId
                          && students[r.value].email == email
      ensures r.Some? ==> forall k :: 0 <= k < r.value ==>
                            students[k].quizId != quizId || students[k].email != email
      ensures r.None? <==> forall k :: 0 <= k < |students| ==>
                             students[k].quizId != quizId || students[k].email != email
    {
      FindStudent(students, quizId, email)
    }

    /** `Invitation.findOne({ quizId, studentId })`. */
    function InvitationIndex(key: SlotKey): (r: Option<nat>)
      reads this
      ensures r.Some? ==> r.value < |invitations| && invitations[r.value].Key() == key
      ensures r.None? <==> forall k :: 0 <= k < |invitations| ==> invitations[k].Key() != key
    {
      FindSlot(invitations, key)
    }
  }

  function FindStudent(s: seq<Student>, quizId: Id, email: string): (r: Option<nat>)
    ensures r.Some? ==> r.value < |s| && s[r.value].quizId == quizId && s[r.value].email == email
    ensures r.Some? ==> forall k :: 0 <= k < r.value ==> s[k].quizId != quizId || s[k].email != email
    ensures r.None? <==> forall k :: 0 <= k < |s| ==> s[k].quizId != quizId || s[k].email != email
  {
    FirstIndex(s, (v: Student) => v.quizId == quizId && v.email == email)
  }

  function FindSlot(s: seq<Invitation>, key: SlotKey): (r: Option<nat>)
    ensures r.Some? ==> r.value < |s| && s[r.value].Key() == key
    ensures r.None? <==> forall k :: 0 <= k < |s| ==> s[k].Key() != key
  {
    FirstIndex(s, (v: Invitation) => v.Key() == key)
  }

  /** `Quiz.findOne({ $or: [{ _id: x }, { quizCode: x }] })`: the first quiz in
      storage order whose id or whose code is `x`. */
  function FindQuizByIdOrCode(s: seq<Quiz>, x: string): (r: Option<nat>)
    ensures r.Some? ==> r.value < |s| && (s[r.value].id == x || s[r.value].quizCode == Some(x))
    ensures r.Some? ==> forall k :: 0 <= k < r.value ==> s[k].id != x && s[k].quizCode != Some(x)
    ensures r.None? <==> forall k :: 0 <= k < |s| ==> s[k].id != x && s[k].quizCode != Some(x)
  {
    FirstIndex(s, (v: Quiz) => v.id == x || v.quizCode == Some(x))
  }

  /** `Invitation.findOne({ quizId, email })`: the first invitation in storage
      order addressed to `email` for the quiz. */
  function FindInvitationByEmail(s: seq<Invitation>, quizId: Id, email: string): (r: Option<nat>)
    ensures r.Some? ==> r.value < |s| && s[r.value].quizId == quizId && s[r.value].email == email
    ensures r.Some? ==> forall k :: 0 <= k < r.value ==> s[k].quizId != quizId || s[k].email != email
    ensures r.None? <==> forall k :: 0 <= k < |s| ==> s[k].quizId != quizId || s[k].email != email
  {
    FirstIndex(s, (v: Invitation) => v.quizId == quizId && v.email == email)
  }
}
