/** The older roster upload. It validates rows like the current one but
    checks only e-mails for repeats, keeps a supplied student id exactly as
    written, and after the insert gives the student at position `i` of the
    batch without an id the id `SID-` + `i + 1` (padded to four digits). */
module LegacyStudentImport {
  import opened Common
  import opened Models
  import opened Storage
  import opened StudentImport

  function DuplicateEmails(dups: seq<string>): Error {
    Error(400, "Duplicate emails in upload: " + Join(dups, ", "))
  }

  /** What the older upload reads from one row: the student id is the raw
      `StudentId` (or `studentId`) cell, with an empty one counting as none. */
  function LegacyFieldsOf(row: Row): RowFields {
    var email := EitherCell(row, "Email", "email");
    var raw := EitherCell(row, "StudentId", "studentId");
    RowFields(EitherCell(row, "Name", "name"), email, NormalizeEmail(email),
              if raw == "" then None else Some(raw))
  }

  function LegacyFieldsOfAll(rows: seq<Row>): (r: seq<RowFields>)
    ensures |r| == |rows|
    ensures forall k :: 0 <= k < |rows| ==> r[k] == LegacyFieldsOf(rows[k])
  {
    seq(|rows|, k requires 0 <= k < |rows| => LegacyFieldsOf(rows[k]))
  }

  /** A supplied id is kept exactly as written, surrounding spaces included. */
  lemma LegacyIdUntrimmed(row: Row)
    ensures var raw := EitherCell(row, "StudentId", "studentId");
      && (LegacyFieldsOf(row).studentId.None? <==> raw == "")
      && (raw != "" ==> LegacyFieldsOf(row).studentId == Some(raw))
  {
  }

  /** The `duplicates` list of the older upload: each row whose normalised
      e-mail was seen before contributes its e-mail as written. */
  function EmailDuplicates(rows: seq<RowFields>): seq<string>
    decreases |rows|
  {
    if rows == [] then []
    else
      var earlier := rows[..|rows| - 1];
      var f := rows[|rows| - 1];
      EmailDuplicates(earlier) + (if f.normalized in EmailSet(earlier) then [f.email] else [])
  }

  /** No two rows share a normalised e-mail. */
  ghost predicate DistinctEmails(rows: seq<RowFields>) {
    forall i, j :: 0 <= i < j < |rows| ==> rows[i].normalized != rows[j].normalized
  }

  /** The older upload reports no duplicates exactly when its e-mails are
      distinct. */
  lemma {:induction false} NoEmailDuplicatesIffDistinct(rows: seq<RowFields>)
    ensures EmailDuplicates(rows) == [] <==> DistinctEmails(rows)
    decreases |rows|
  {
    if rows != [] {
      var earlier := rows[..|rows| - 1];
      NoEmailDuplicatesIffDistinct(earlier);
      DistinctSnoc(rows);
    }
  }

  /** Rows are distinct exactly when the rows before the last are, and the
      last row's normalised e-mail is not among theirs. */
  lemma DistinctSnoc(rows: seq<RowFields>)
    requires rows != []
    ensures var earlier := rows[..|rows| - 1];
      DistinctEmails(rows) <==> DistinctEmails(earlier) && rows[|rows| - 1].normalized !in EmailSet(earlier)
  {
    var earlier := rows[..|rows| - 1];
    var last := |rows| - 1;
    EmailSetMembers(earlier);
    assert forall k :: 0 <= k < |earlier| ==> earlier[k] == rows[k];
    if DistinctEmails(earlier) && rows[last].normalized !in EmailSet(earlier) {
      forall i, j | 0 <= i < j < |rows| ensures rows[i].normalized != rows[j].normalized {
        if j < last {
          assert earlier[i] == rows[i] && earlier[j] == rows[j];
        }
      }
    }
  }

  /** The row loop of the older upload: reads each row and records its e-mail
      and any repeat. */
  method ReadLegacyUpload(rows: seq<RowFields>, quizId: Id, isEmail: string -> bool)
    returns (docs: seq<StudentDoc>, emails: set<string>, dups: seq<string>, err: Option<Error>)
    ensures ReadRows(rows, quizId, isEmail).Err? ==> err == Some(ReadRows(rows, quizId, isEmail).error)
    ensures ReadRows(rows, quizId, isEmail).Ok? ==>
      && err.None? && docs == ReadRows(rows, quizId, isEmail).value
      && emails == EmailSet(rows) && dups == EmailDuplicates(rows)
  {
    docs, emails, dups, err := [], {}, [], None;
    for k := 0 to |rows|
      invariant ReadRows(rows[..k], quizId, isEmail) == Ok(docs)
      invariant emails == EmailSet(rows[..k]) && dups == EmailDuplicates(rows[..k])
    {
      var f := rows[k];
      assert rows[..k + 1][..k] == rows[..k];
      if !RowOk(f, isEmail) {
        err := Some(RowError(f));
        ReadRowsKeepsError(rows, k + 1, quizId, isEmail);
        return;
      }
      if f.normalized in emails {
        dups := dups + [f.email];
      }
      emails := emails + {f.normalized};
      docs := docs + [DocOf(f, quizId)];
    }
    assert rows[..|rows|] == rows;
  }

  /** The ids after the per-position updates, as written: the document at
      position `i` without an id gets `SID-` + `i + 1`, whatever ids the batch
      or the quiz already holds. */
  function LegacyIds(docs: seq<StudentDoc>): (r: seq<StudentDoc>)
    ensures |r| == |docs|
    ensures forall i :: 0 <= i < |docs| ==>
      && r[i].quizId == docs[i].quizId && r[i].name == docs[i].name && r[i].email == docs[i].email
      && (docs[i].externalId.Some? ==> r[i].externalId == docs[i].externalId)
      && (docs[i].externalId.None? ==> r[i].externalId == Some(SidFor(i + 1)))
  {
    seq(|docs|, i requires 0 <= i < |docs| =>
      if docs[i].externalId.Some? then docs[i] else docs[i].(externalId := Some(SidFor(i + 1))))
  }

  /** The older numbering repeats ids: a batch whose first row supplies
      `SID-0002` and whose second row supplies nothing ends with two students
      holding `SID-0002`. */
  lemma LegacyIdsCollide(quizId: Id)
    ensures var docs := [StudentDoc(quizId, "Ann", "ann@x.io", Some("SID-0002")),
                         StudentDoc(quizId, "Bob", "bob@x.io", None)];
      LegacyIds(docs)[0].externalId == LegacyIds(docs)[1].externalId == Some("SID-0002")
  {
    assert DigitChar(2) == '2';
    assert NatToDecimal(2) == "2";
    assert Repeat('0', 3) == "000";
    assert SidFor(2) == "SID-0002";
  }

  /** What the older `importStudents` inserts (with its ids after the
      updates) for the rows `rows` while the stored students are `ss`, or why
      it refuses the upload. */
  function LegacyPlan(ss: seq<Student>, quizId: Id, rows: seq<RowFields>, isEmail: string -> bool)
    : Result<seq<StudentDoc>>
  {
    if rows == [] then Err(NoStudents)
    else match ReadRows(rows, quizId, isEmail)
      case Err(e) => Err(e)
      case Ok(docs) =>
        if EmailDuplicates(rows) != [] then Err(DuplicateEmails(EmailDuplicates(rows)))
        else
          var taken := EmailsTaken(ss, quizId, EmailSet(rows));
          if taken != [] then Err(EmailsExist(taken))
          else Ok(LegacyIds(docs))
  }

  /** The older upload is accepted exactly when there is a row, every row is
      valid, no e-mail repeats and no e-mail is already in the quiz. */
  lemma LegacyPlanAccepts(ss: seq<Student>, quizId: Id, rows: seq<RowFields>, isEmail: string -> bool)
    ensures LegacyPlan(ss, quizId, rows, isEmail).Ok? <==>
      && rows != []
      && (forall k :: 0 <= k < |rows| ==> RowOk(rows[k], isEmail))
      && DistinctEmails(rows)
      && EmailsNew(ss, quizId, rows)
  {
    NoEmailDuplicatesIffDistinct(rows);
    NoEmailClashIff(ss, quizId, rows);
  }

  /** An accepted older upload stores one student per row, in row order: a
      supplied id as read, otherwise `SID-` + the 1-based position. */
  lemma LegacyPlanIds(ss: seq<Student>, quizId: Id, rows: seq<RowFields>, isEmail: string -> bool)
    requires LegacyPlan(ss, quizId, rows, isEmail).Ok?
    ensures var docs := LegacyPlan(ss, quizId, rows, isEmail).value;
      && |docs| == |rows|
      && forall k :: 0 <= k < |rows| ==>
           && docs[k].quizId == quizId && docs[k].name == rows[k].name && docs[k].email == rows[k].email
           && docs[k].externalId == (if rows[k].studentId.Some? then rows[k].studentId else Some(SidFor(k + 1)))
  {
  }

  /** Changing students without changing their ids keeps the store valid. */
  lemma SameIdsKeepValid(d: DbState, students: seq<Student>)
    requires DbValid(d) && |students| == |d.students|
    requires forall j :: 0 <= j < |students| ==> students[j].id == d.students[j].id
    ensures DbValid(d.(students := students))
  {
  }

  /** The students of `created` after the per-position updates. */
  function WithLegacyIds(created: seq<Student>): (r: seq<Student>)
    ensures |r| == |created|
  {
    seq(|created|, i requires 0 <= i < |created| =>
      if created[i].externalId.Some? then created[i] else created[i].(externalId := Some(SidFor(i + 1))))
  }

  /** Updating the stored batch matches updating the documents. */
  lemma LegacyIdsStored(created: seq<Student>, docs: seq<StudentDoc>, used: set<Id>)
    requires StoredAs(created, docs, used)
    ensures StoredAs(WithLegacyIds(created), LegacyIds(docs), used)
  {
  }

  /** The update loop: `Student.updateOne` on each inserted student without an
      id, by its position in the batch. */
  method AssignLegacyIds(st: Store, base: nat, created: seq<Student>)
    requires st.Valid()
    requires base + |created| == |st.students| && st.students[base..] == created
    modifies st
    ensures st.Valid()
    ensures st.Db() == old(st.Db()).(students := old(st.students)[..base] + WithLegacyIds(created))
  {
    ghost var d := st.Db();
    var students := UpdateBatch(st.students, base, created);
    forall j | 0 <= j < |students| ensures students[j].id == d.students[j].id {
      if j >= base {
        assert d.students[j] == created[j - base];
      } else {
        assert students[..base][j] == d.students[..base][j];
      }
    }
    SameIdsKeepValid(d, students);
    st.students := students;
  }

  /** The loop of `AssignLegacyIds` over the stored students: the batch from
      `base` on is replaced by its updated form. */
  method UpdateBatch(stored: seq<Student>, base: nat, created: seq<Student>) returns (students: seq<Student>)
    requires base + |created| == |stored| && stored[base..] == created
    ensures students == stored[..base] + WithLegacyIds(created)
  {
    ghost var updated := WithLegacyIds(created);
    students := stored;
    for i := 0 to |created|
      invariant |students| == base + |created| && students[..base] == stored[..base]
      invariant forall j :: 0 <= j < i ==> students[base + j] == updated[j]
      invariant forall j :: i <= j < |created| ==> students[base + j] == created[j]
    {
      if created[i].externalId.None? {
        students := students[base + i := created[i].(externalId := Some(SidFor(i + 1)))];
      }
    }
    assert students == stored[..base] + updated;
  }

  /** The older `importStudents(quizId, csvContent)`: a refused upload changes
      nothing; an accepted one appends the planned students and answers with
      the quiz's roster. */
  method LegacyImportStudents(st: Store, quizId: Id, content: string, parse: string -> Option<seq<Row>>,
                              isEmail: string -> bool)
    returns (r: Result<seq<Student>>)
    requires st.Valid()
    modifies st
    ensures st.Valid()
    ensures parse(content).None? ==> r == Err(ServerError) && st.Db() == old(st.Db())
    ensures parse(content).Some? ==>
      var plan := LegacyPlan(old(st.students), quizId, LegacyFieldsOfAll(parse(content).value), isEmail);
      && (plan.Err? ==> r == Err(plan.error) && st.Db() == old(st.Db()))
      && (plan.Ok? ==>
            && st.Db() == old(st.Db()).(students := st.students, usedIds := st.usedIds)
            && |st.students| >= |old(st.students)|
            && st.students[..|old(st.students)|] == old(st.students)
            && StoredAs(st.students[|old(st.students)|..], plan.value, old(st.usedIds))
            && r == Ok(StudentsOf(st.students, quizId)))
  {
    if parse(content).None? {
      return Err(ServerError);
    }
    var rows := LegacyFieldsOfAll(parse(content).value);
    if |rows| == 0 {
      return Err(NoStudents);
    }
    var docs, emails, dups, err := ReadLegacyUpload(rows, quizId, isEmail);
    if err.Some? {
      return Err(err.value);
    }
    if |dups| > 0 {
      return Err(DuplicateEmails(dups));
    }
    var taken := EmailsTaken(st.students, quizId, emails);
    if |taken| > 0 {
      return Err(EmailsExist(taken));
    }
    var base := |st.students|;
    var created := InsertStudents(st, docs);
    assert st.students[base..] == created;
    AssignLegacyIds(st, base, created);
    assert st.students[base..] == WithLegacyIds(created);
    LegacyIdsStored(created, docs, old(st.usedIds));
    r := Ok(StudentsOf(st.students, quizId));
  }
}
