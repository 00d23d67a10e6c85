/** The CSV export of a quiz's attempts: a fixed header line, then one line per
    attempt in storage order. Fields are joined with commas and are neither
    quoted nor escaped. */
module ExportCsv {
  import opened Common
  import opened Models

  const HeaderFields: seq<string> :=
    ["studentName", "studentEmail", "status", "correctCount", "totalQuestions", "submittedAt"]

  /** The first line: the column names joined with commas. */
  const Header := Join(HeaderFields, ",")

  /** `${n}` for an integer. */
  function IntText(i: int): (r: string)
    ensures ',' !in r && '\n' !in r
  {
    var digits := if i < 0 then NatToDecimal(-i) else NatToDecimal(i);
    assert forall k :: 0 <= k < |digits| ==> digits[k] != ',' && digits[k] != '\n';
    if i < 0 then "-" + digits else digits
  }

  /** The six columns of one attempt. `iso` is `Date.prototype.toISOString`. */
  function Fields(a: Attempt, iso: int -> string): (r: seq<string>)
    ensures |r| == 6
  {
    [a.studentName, a.studentEmail, AttemptStatusName(a.status),
     IntText(a.score.correctCount), IntText(a.score.totalQuestions),
     if a.submittedAt.Some? then iso(a.submittedAt.value) else ""]
  }

  function Row(a: Attempt, iso: int -> string): string {
    Join(Fields(a, iso), ",")
  }

  function Rows(attempts: seq<Attempt>, iso: int -> string): (r: seq<string>)
    ensures |r| == |attempts|
    ensures forall i :: 0 <= i < |attempts| ==> r[i] == Row(attempts[i], iso)
  {
    seq(|attempts|, i requires 0 <= i < |attempts| => Row(attempts[i], iso))
  }

  /** Whether an attempt belongs to a quiz (the `{ quizId }` query). */
  function OfQuiz(quizId: Id): Attempt -> bool {
    (a: Attempt) => a.quizId == quizId
  }

  /** The attempts of one quiz, in storage order (`Attempt.find({ quizId })`):
      exactly the stored attempts of that quiz. */
  function AttemptsOf(attempts: seq<Attempt>, quizId: Id): (r: seq<Attempt>)
    ensures forall i :: 0 <= i < |r| ==> r[i] in attempts && r[i].quizId == quizId
    ensures forall i {:trigger attempts[i] in r} ::
      0 <= i < |attempts| && attempts[i].quizId == quizId ==> attempts[i] in r
  {
    Filter(attempts, OfQuiz(quizId))
  }

  /** Storage order: the attempts of a quiz stored before others come first, and
      one stored attempt contributes itself exactly when it belongs to the quiz. */
  lemma AttemptsOfOrder(front: seq<Attempt>, back: seq<Attempt>, a: Attempt, quizId: Id)
    ensures AttemptsOf(front + back, quizId) == AttemptsOf(front, quizId) + AttemptsOf(back, quizId)
    ensures AttemptsOf([a], quizId) == if a.quizId == quizId then [a] else []
  {
    FilterAppend(front, back, OfQuiz(quizId));
    assert [a][1..] == [];
  }

  /** `exportAttemptsCsv(quizId)` over the stored attempts. */
  function ExportAttemptsCsv(attempts: seq<Attempt>, quizId: Id, iso: int -> string): string {
    Join([Header] + Rows(AttemptsOf(attempts, quizId), iso), "\n")
  }

  /** A joined string holds a character only if a part or the separator does. */
  lemma {:induction false} JoinAvoids(parts: seq<string>, sep: string, c: char)
    requires c !in sep
    requires forall k :: 0 <= k < |parts| ==> c !in parts[k]
    ensures c !in Join(parts, sep)
    decreases |parts|
  {
    if |parts| > 1 {
      JoinAvoids(parts[1..], sep, c);
    }
  }

  /** The attempt text fields and the date rendering contain no `c`. */
  ghost predicate TextAvoids(a: Attempt, iso: int -> string, c: char) {
    c !in a.studentName && c !in a.studentEmail &&
    (a.submittedAt.Some? ==> c !in iso(a.submittedAt.value))
  }

  lemma FieldsAvoid(a: Attempt, iso: int -> string, c: char)
    requires c == ',' || c == '\n'
    requires TextAvoids(a, iso, c)
    ensures forall k :: 0 <= k < 6 ==> c !in Fields(a, iso)[k]
  {
    var name := AttemptStatusName(a.status);
    assert c !in name by {
      assert forall k :: 0 <= k < |name| ==> name[k] != ',' && name[k] != '\n';
    }
  }

  /** When names, emails and dates contain no line break, the export has one
      line per attempt of the quiz, after the header, in storage order. */
  lemma ExportLines(attempts: seq<Attempt>, quizId: Id, iso: int -> string)
    requires forall i :: 0 <= i < |attempts| ==> TextAvoids(attempts[i], iso, '\n')
    ensures var mine := AttemptsOf(attempts, quizId);
      var lines := Split(ExportAttemptsCsv(attempts, quizId, iso), '\n');
      && |lines| == |mine| + 1
      && lines[0] == Header
      && forall i :: 0 <= i < |mine| ==> lines[i + 1] == Row(mine[i], iso)
  {
    var mine := AttemptsOf(attempts, quizId);
    var rows := Rows(mine, iso);
    var parts := [Header] + rows;
    HeaderLine();
    forall k | 0 <= k < |parts| ensures '\n' !in parts[k] {
      if k > 0 {
        assert parts[k] == rows[k - 1];
        RowAvoidsNewline(mine[k - 1], iso);
      }
    }
    assert ExportAttemptsCsv(attempts, quizId, iso) == Join(parts, ['\n']);
    SplitJoin(parts, '\n');
    var lines := Split(ExportAttemptsCsv(attempts, quizId, iso), '\n');
    assert lines == parts;
    forall i | 0 <= i < |mine| ensures lines[i + 1] == Row(mine[i], iso) {
      assert lines[i + 1] == rows[i];
    }
  }

  /** The header is one line, and it splits into the six column names. */
  lemma HeaderLine()
    ensures '\n' !in Header
    ensures Split(Header, ',') == HeaderFields
  {
    ColumnNamesPlain();
    assert "," == [','];
    JoinAvoids(HeaderFields, ",", '\n');
    SplitJoin(HeaderFields, ',');
  }

  /** No column name holds a comma or a line break. */
  lemma ColumnNamesPlain()
    ensures forall k :: 0 <= k < |HeaderFields| ==> ',' !in HeaderFields[k] && '\n' !in HeaderFields[k]
  {
    assert '\n' !in "studentName" && '\n' !in "studentEmail" && '\n' !in "status";
    assert '\n' !in "correctCount" && '\n' !in "totalQuestions" && '\n' !in "submittedAt";
    assert ',' !in "studentName" && ',' !in "studentEmail" && ',' !in "status";
    assert ',' !in "correctCount" && ',' !in "totalQuestions" && ',' !in "submittedAt";
  }

  lemma RowAvoidsNewline(a: Attempt, iso: int -> string)
    requires TextAvoids(a, iso, '\n')
    ensures '\n' !in Row(a, iso)
  {
    FieldsAvoid(a, iso, '\n');
    JoinAvoids(Fields(a, iso), ",", '\n');
  }

  /** When the name, email and date contain no comma, a row splits back into
      exactly its six columns. */
  lemma RowColumns(a: Attempt, iso: int -> string)
    requires TextAvoids(a, iso, ',')
    ensures Split(Row(a, iso), ',') == Fields(a, iso)
  {
    FieldsAvoid(a, iso, ',');
    SplitJoin(Fields(a, iso), ',');
  }

  /** Nothing is escaped: a comma inside a student's name shifts every later
      column one place to the right, giving a row of seven columns. */
  lemma CommaInNameShiftsColumns(a: Attempt, iso: int -> string, first: string, last: string)
    requires a.studentName == first + "," + last
    requires ',' !in first && ',' !in last
    requires TextAvoids(a.(studentName := first), iso, ',')
    ensures |Split(Row(a, iso), ',')| == 7
    ensures Split(Row(a, iso), ',')[1] == last
  {
    var b := a.(studentName := first);
    FieldsAvoid(b, iso, ',');
    var parts := [first, last] + Fields(a, iso)[1..];
    assert Join(Fields(a, iso), ",") == Join(parts, ",") by {
      assert Fields(a, iso) == [first + "," + last] + Fields(a, iso)[1..];
      assert parts[1..] == [last] + Fields(a, iso)[1..];
      assert Fields(b, iso)[1..] == Fields(a, iso)[1..];
    }
    forall k | 0 <= k < |parts| ensures ',' !in parts[k] {
      if k >= 2 {
        assert parts[k] == Fields(b, iso)[k - 1];
      }
    }
    SplitJoin(parts, ',');
  }
}
