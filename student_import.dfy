/** Roster upload (`importStudents`). The CSV text is split into rows by the CSV
    library, here the function `parse` (`None` when the library throws); the
    e-mail pattern `^[^\s@]+@[^\s@]+\.[^\s@]+$` is the predicate `isEmail`.
    Rows are validated in order, duplicates inside the upload and clashes with
    the quiz's roster reject the whole upload, and rows without a student id
    get a generated `SID-nnnn` id before everything is inserted. */
module StudentImport {
  import opened Common
  import opened Models
  import opened Storage

  /** The CSV library throws outside any handler. */
  const ServerError := Error(500, "Internal server error")
  const NoStudents := Error(400, "No students found in CSV")
  const MissingNameOrEmail := Error(400, "Each student needs Name and Email")

  function InvalidEmail(email: string): Error {
    Error(400, "Invalid email: " + email)
  }

  function DuplicateEntries(dups: seq<string>): Error {
    Error(400, "Duplicate entries in upload: " + Join(dups, ", "))
  }

  function IdExists(id: string): Error {
    Error(400, "Student ID already exists: " + id)
  }

  function EmailsExist(emails: seq<string>): Error {
    Error(400, "Emails already exist: " + Join(emails, ", "))
  }

  /** A student as the upload builds it, before it is stored. */
  datatype StudentDoc = StudentDoc(quizId: Id, name: string, email: string, externalId: Option<string>)

  /** `email.trim().toLowerCase()`. */
  function NormalizeEmail(email: string): string {
    ToLower(Trim(email))
  }

  // ---------------------------------------------------------------------------
  // Reading rows

  /** The supplied student id, trimmed; a blank one counts as none (an empty
      id is falsy and is replaced). */
  function SuppliedId(raw: string): (r: Option<string>)
    ensures r.None? <==> IsBlank(raw)
    ensures r.Some? ==> r.value != "" && r.value == Trim(raw)
  {
    TrimEmptyIffBlank(raw);
    if Trim(raw) == "" then None else Some(Trim(raw))
  }

  /** What the upload reads from one row: the `Name` and `Email` cells as
      written and the supplied `StudentId` (each column also under its
      lower-case spelling). */
  datatype RowFields = RowFields(name: string, email: string, normalized: string, studentId: Option<string>)

  function FieldsOf(row: Row): RowFields {
    var email := EitherCell(row, "Email", "email");
    RowFields(EitherCell(row, "Name", "name"), email, NormalizeEmail(email),
              SuppliedId(EitherCell(row, "StudentId", "studentId")))
  }

  /** The rows as the upload reads them. */
  function FieldsOfAll(rows: seq<Row>): (r: seq<RowFields>)
    ensures |r| == |rows|
    ensures forall k :: 0 <= k < |rows| ==> r[k] == FieldsOf(rows[k])
  {
    seq(|rows|, k requires 0 <= k < |rows| => FieldsOf(rows[k]))
  }

  /** A row the upload accepts: name and e-mail present, e-mail well formed. */
  predicate RowOk(f: RowFields, isEmail: string -> bool) {
    f.name != "" && f.email != "" && isEmail(f.email)
  }

  /** Why a row is rejected: a missing field is reported before a malformed
      e-mail. */
  function RowError(f: RowFields): (e: Error)
    ensures f.name == "" || f.email == "" ==> e == MissingNameOrEmail
    ensures f.name != "" && f.email != "" ==> e == InvalidEmail(f.email)
  {
    if f.name == "" || f.email == "" then MissingNameOrEmail else InvalidEmail(f.email)
  }

  /** The document of an accepted row. */
  function DocOf(f: RowFields, quizId: Id): StudentDoc {
    StudentDoc(quizId, f.name, f.email, f.studentId)
  }

  /** All rows in order; the first rejected row rejects the upload. */
  function ReadRows(rows: seq<RowFields>, quizId: Id, isEmail: string -> bool): (r: Result<seq<StudentDoc>>)
    ensures r.Ok? <==> forall k :: 0 <= k < |rows| ==> RowOk(rows[k], isEmail)
    ensures r.Ok? ==> |r.value| == |rows|
    ensures r.Ok? ==> forall k :: 0 <= k < |rows| ==> r.value[k] == DocOf(rows[k], quizId)
    decreases |rows|
  {
    if rows == [] then Ok([])
    else
      var earlier := rows[..|rows| - 1];
      var last := rows[|rows| - 1];
      assert forall k :: 0 <= k < |earlier| ==> earlier[k] == rows[k];
      match ReadRows(earlier, quizId, isEmail)
      case Err(e) => Err(e)
      case Ok(docs) =>
        if RowOk(last, isEmail) then Ok(docs + [DocOf(last, quizId)]) else Err(RowError(last))
  }

  /** A rejected upload names the first rejected row. */
  lemma {:induction false} ReadRowsRejectsFirst(rows: seq<RowFields>, quizId: Id, isEmail: string -> bool)
    requires ReadRows(rows, quizId, isEmail).Err?
    ensures exists k :: 0 <= k < |rows| && !RowOk(rows[k], isEmail)
                     && ReadRows(rows, quizId, isEmail).error == RowError(rows[k])
                     && forall j :: 0 <= j < k ==> RowOk(rows[j], isEmail)
    decreases |rows|
  {
    var earlier := rows[..|rows| - 1];
    var last := |rows| - 1;
    assert forall k :: 0 <= k < |earlier| ==> earlier[k] == rows[k];
    if ReadRows(earlier, quizId, isEmail).Err? {
      ReadRowsRejectsFirst(earlier, quizId, isEmail);
      var k :| 0 <= k < |earlier| && !RowOk(earlier[k], isEmail)
               && ReadRows(earlier, quizId, isEmail).error == RowError(earlier[k])
               && forall j :: 0 <= j < k ==> RowOk(earlier[j], isEmail);
      assert rows[k] == earlier[k];
    } else {
      assert !RowOk(rows[last], isEmail);
    }
  }

  lemma {:induction false} ReadRowsKeepsError(rows: seq<RowFields>, j: nat, quizId: Id, isEmail: string -> bool)
    requires j <= |rows| && ReadRows(rows[..j], quizId, isEmail).Err?
    ensures ReadRows(rows, quizId, isEmail) == ReadRows(rows[..j], quizId, isEmail)
    decreases |rows| - j
  {
    if j < |rows| {
      var earlier := rows[..|rows| - 1];
      assert earlier[..j] == rows[..j];
      ReadRowsKeepsError(earlier, j, quizId, isEmail);
    } else {
      assert rows[..j] == rows;
    }
  }

  // ---------------------------------------------------------------------------
  // Duplicates inside the upload

  /** The set `normalizedEmails` after the rows: every normalised e-mail. */
  function EmailSet(rows: seq<RowFields>): set<string>
    decreases |rows|
  {
    if rows == [] then {} else EmailSet(rows[..|rows| - 1]) + {rows[|rows| - 1].normalized}
  }

  /** The set `normalizedExternalIds` after the rows, in insertion order: every
      supplied id, once. */
  function SuppliedIds(rows: seq<RowFields>): seq<string>
    decreases |rows|
  {
    if rows == [] then []
    else
      var earlier := SuppliedIds(rows[..|rows| - 1]);
      var id := rows[|rows| - 1].studentId;
      if id.Some? && id.value !in earlier then earlier + [id.value] else earlier
  }

  /** The `duplicates` list: each row whose normalised e-mail was seen before
      contributes its e-mail as written, then each row whose supplied id was
      seen before contributes that id. */
  function Duplicates(rows: seq<RowFields>): seq<string>
    decreases |rows|
  {
    if rows == [] then []
    else
      var earlier := rows[..|rows| - 1];
      var f := rows[|rows| - 1];
      Duplicates(earlier)
        + (if f.normalized in EmailSet(earlier) then [f.email] else [])
        + (if f.studentId.Some? && f.studentId.value in SuppliedIds(earlier) then [f.studentId.value] else [])
  }

  lemma {:induction false} EmailSetMembers(rows: seq<RowFields>)
    ensures forall x :: x in EmailSet(rows) <==> exists k :: 0 <= k < |rows| && rows[k].normalized == x
    decreases |rows|
  {
    if rows != [] {
      var earlier := rows[..|rows| - 1];
      EmailSetMembers(earlier);
      assert forall k :: 0 <= k < |earlier| ==> earlier[k] == rows[k];
    }
  }

  lemma {:induction false} SuppliedIdsMembers(rows: seq<RowFields>)
    ensures forall x :: x in SuppliedIds(rows) <==> exists k :: 0 <= k < |rows| && rows[k].studentId == Some(x)
    ensures forall i, j :: 0 <= i < j < |SuppliedIds(rows)| ==> SuppliedIds(rows)[i] != SuppliedIds(rows)[j]
    decreases |rows|
  {
    if rows != [] {
      var earlier := rows[..|rows| - 1];
      SuppliedIdsMembers(earlier);
      assert forall k :: 0 <= k < |earlier| ==> earlier[k] == rows[k];
    }
  }

  /** No two rows share a normalised e-mail, and no two share a supplied id. */
  ghost predicate DistinctEntries(rows: seq<RowFields>) {
    forall i, j :: 0 <= i < j < |rows| ==>
      && rows[i].normalized != rows[j].normalized
      && (rows[i].studentId.Some? ==> rows[i].studentId != rows[j].studentId)
  }

  /** The last row adds no repeat: its e-mail and its supplied id are new. */
  ghost predicate LastIsNew(rows: seq<RowFields>)
    requires rows != []
  {
    var earlier := rows[..|rows| - 1];
    var f := rows[|rows| - 1];
    f.normalized !in EmailSet(earlier) && (f.studentId.Some? ==> f.studentId.value !in SuppliedIds(earlier))
  }

  lemma DistinctSplits(rows: seq<RowFields>)
    requires DistinctEntries(rows) && rows != []
    ensures DistinctEntries(rows[..|rows| - 1]) && LastIsNew(rows)
  {
    var earlier := rows[..|rows| - 1];
    var f := rows[|rows| - 1];
    EmailSetMembers(earlier);
    SuppliedIdsMembers(earlier);
    assert forall k :: 0 <= k < |earlier| ==> earlier[k] == rows[k];
  }

  lemma DistinctJoins(rows: seq<RowFields>)
    requires rows != [] && DistinctEntries(rows[..|rows| - 1]) && LastIsNew(rows)
    ensures DistinctEntries(rows)
  {
    var earlier := rows[..|rows| - 1];
    var last := |rows| - 1;
    EmailSetMembers(earlier);
    SuppliedIdsMembers(earlier);
    forall i, j | 0 <= i < j < |rows|
      ensures && rows[i].normalized != rows[j].normalized
              && (rows[i].studentId.Some? ==> rows[i].studentId != rows[j].studentId)
    {
      assert rows[i] == earlier[i];
      if j < last {
        assert rows[j] == earlier[j];
      }
    }
  }

  /** The upload reports no duplicates exactly when its entries are distinct. */
  lemma {:induction false} NoDuplicatesIffDistinct(rows: seq<RowFields>)
    ensures Duplicates(rows) == [] <==> DistinctEntries(rows)
    decreases |rows|
  {
    if rows != [] {
      var earlier := rows[..|rows| - 1];
      NoDuplicatesIffDistinct(earlier);
      assert Duplicates(rows) == [] <==> Duplicates(earlier) == [] && LastIsNew(rows);
      if DistinctEntries(rows) {
        DistinctSplits(rows);
      } else if Duplicates(earlier) == [] && LastIsNew(rows) {
        DistinctJoins(rows);
      }
    }
  }

  /** The row loop of `importStudents`: reads each row and records its e-mail,
      its supplied id and any repeat in the sets and the `duplicates` list. */
  method ReadUpload(rows: seq<RowFields>, quizId: Id, isEmail: string -> bool)
    returns (docs: seq<StudentDoc>, emails: set<string>, ids: seq<string>, dups: seq<string>, err: Option<Error>)
    ensures ReadRows(rows, quizId, isEmail).Err? ==> err == Some(ReadRows(rows, quizId, isEmail).error)
    ensures ReadRows(rows, quizId, isEmail).Ok? ==>
      && err.None? && docs == ReadRows(rows, quizId, isEmail).value
      && emails == EmailSet(rows) && ids == SuppliedIds(rows) && dups == Duplicates(rows)
  {
    docs, emails, ids, dups, err := [], {}, [], [], None;
    for k := 0 to |rows|
      invariant ReadRows(rows[..k], quizId, isEmail) == Ok(docs)
      invariant emails == EmailSet(rows[..k]) && ids == SuppliedIds(rows[..k]) && dups == Duplicates(rows[..k])
    {
      var f := rows[k];
      assert rows[..k + 1][..k] == rows[..k];
      if !RowOk(f, isEmail) {
        err := Some(RowError(f));
        ReadRowsKeepsError(rows, k + 1, quizId, isEmail);
        return;
      }
      if f.normalized in emails {
        dups := dups + [f.email];
      }
      emails := emails + {f.normalized};
      if f.studentId.Some? {
        if f.studentId.value in ids {
          dups := dups + [f.studentId.value];
        } else {
          ids := ids + [f.studentId.value];
        }
      }
      docs := docs + [DocOf(f, quizId)];
    }
    assert rows[..|rows|] == rows;
  }

  // ---------------------------------------------------------------------------
  // Generated student ids

  /** `SID-` followed by the number padded with zeros to at least four digits. */
  function SidFor(n: nat): string {
    "SID-" + PadStart(NatToDecimal(n), 4, '0')
  }

  /** The number of an id matching `^SID-(\d+)$`, if it matches. */
  function SidNumber(x: string): Option<nat> {
    if |x| > 4 && x[..4] == "SID-" && AllDigits(x[4..]) then Some(DecimalValue(x[4..])) else None
  }

  /** Reading a generated id gives back its number. */
  lemma SidRoundTrip(n: nat)
    ensures SidNumber(SidFor(n)) == Some(n)
  {
    var digits := NatToDecimal(n);
    var padded := PadStart(digits, 4, '0');
    var x := SidFor(n);
    assert x[..4] == "SID-" && x[4..] == padded;
    DecimalRoundTrip(n);
    if |digits| < 4 {
      assert padded == Repeat('0', 4 - |digits|) + digits;
      LeadingZerosKeepValue(4 - |digits|, digits);
    }
  }

  /** Different numbers give different ids. */
  lemma SidInjective(m: nat, n: nat)
    requires m != n
    ensures SidFor(m) != SidFor(n)
  {
    SidRoundTrip(m);
    SidRoundTrip(n);
  }

  /** `m` is the largest number among the ids of the form `SID-n`, or 0 when
      there is none. */
  ghost predicate IsMaxSid(ids: set<string>, m: nat) {
    && (forall x :: x in ids && SidNumber(x).Some? ==> SidNumber(x).value <= m)
    && (m == 0 || exists x :: x in ids && SidNumber(x) == Some(m))
  }

  lemma MaxSidUnique(ids: set<string>, m1: nat, m2: nat)
    requires IsMaxSid(ids, m1) && IsMaxSid(ids, m2)
    ensures m1 == m2
  {
  }

  ghost function MaxSid(ids: set<string>): (m: nat)
    ensures IsMaxSid(ids, m)
    decreases ids
  {
    if ids == {} then 0
    else
      var x :| x in ids;
      var rest := MaxSid(ids - {x});
      var own := if SidNumber(x).Some? then SidNumber(x).value else 0;
      if own <= rest then rest else own
  }

  /** The number the `do … while` loop stops at, starting after `c`: the first
      number whose id is not taken. */
  function NextSid(c: nat, taken: set<string>): (n: nat)
    ensures n > c && SidFor(n) !in taken
    ensures forall m :: c < m < n ==> SidFor(m) in taken
    decreases MaxSid(taken) - c
  {
    if SidFor(c + 1) !in taken then c + 1
    else
      TakenSidAtMostMax(c + 1, taken);
      var n := NextSid(c + 1, taken);
      TakenBelowExtends(c, n, taken);
      n
  }

  /** A taken id at `c + 1` extends a run of taken ids above it down to `c`. */
  lemma TakenBelowExtends(c: nat, n: nat, taken: set<string>)
    requires SidFor(c + 1) in taken
    requires forall m :: c + 1 < m < n ==> SidFor(m) in taken
    ensures forall m :: c < m < n ==> SidFor(m) in taken
  {
    forall m | c < m < n ensures SidFor(m) in taken {
      if m != c + 1 {
        assert c + 1 < m < n;
      }
    }
  }

  /** A taken generated id bounds the largest taken number from below. */
  lemma TakenSidAtMostMax(n: nat, taken: set<string>)
    requires SidFor(n) in taken
    ensures n <= MaxSid(taken)
  {
    SidRoundTrip(n);
    var m := MaxSid(taken);
    assert SidNumber(SidFor(n)).value <= m;
  }

  /** The generation loop: each document without a supplied id, in order,
      gets the next free number after the previous one; every generated id is
      taken from then on. */
  function AssignIds(docs: seq<StudentDoc>, taken: set<string>, counter: nat): (r: seq<StudentDoc>)
    ensures |r| == |docs|
    decreases |docs|
  {
    if docs == [] then []
    else if docs[0].externalId.Some? then [docs[0]] + AssignIds(docs[1..], taken, counter)
    else
      var n := NextSid(counter, taken);
      [docs[0].(externalId := Some(SidFor(n)))] + AssignIds(docs[1..], taken + {SidFor(n)}, n)
  }

  /** `x` is an id the loop could have generated after `counter` while the ids
      in `taken` were taken. */
  ghost predicate Generated(x: string, counter: nat, taken: set<string>) {
    SidNumber(x).Some? && SidNumber(x).value > counter && x == SidFor(SidNumber(x).value) && x !in taken
  }

  /** The number of a generated id (0 for any other document). */
  ghost function GeneratedNumber(d: StudentDoc): nat {
    if d.externalId.Some? && SidNumber(d.externalId.value).Some? then SidNumber(d.externalId.value).value else 0
  }

  /** Every document keeps its quiz, name and e-mail and ends with an id; a
      supplied id is kept as it is. */
  lemma {:induction false} AssignIdsKeeps(docs: seq<StudentDoc>, taken: set<string>, counter: nat)
    ensures var r := AssignIds(docs, taken, counter);
      forall k :: 0 <= k < |docs| ==>
        && r[k].quizId == docs[k].quizId && r[k].name == docs[k].name && r[k].email == docs[k].email
        && r[k].externalId.Some?
        && (docs[k].externalId.Some? ==> r[k].externalId == docs[k].externalId)
    decreases |docs|
  {
    if docs != [] {
      if docs[0].externalId.Some? {
        AssignIdsKeeps(docs[1..], taken, counter);
      } else {
        var n := NextSid(counter, taken);
        AssignIdsKeeps(docs[1..], taken + {SidFor(n)}, n);
      }
    }
  }

  /** Every generated id has the `SID-` form, a number above `counter`, and
      is not among the ids taken at the start. */
  ghost predicate AllGenerated(docs: seq<StudentDoc>, r: seq<StudentDoc>, counter: nat, taken: set<string>)
    requires |r| == |docs|
  {
    forall k :: 0 <= k < |docs| && docs[k].externalId.None? ==>
      r[k].externalId.Some? && Generated(r[k].externalId.value, counter, taken)
  }

  lemma {:induction false} AssignIdsFresh(docs: seq<StudentDoc>, taken: set<string>, counter: nat)
    ensures AllGenerated(docs, AssignIds(docs, taken, counter), counter, taken)
    decreases |docs|
  {
    if docs != [] {
      assert docs == [docs[0]] + docs[1..];
      if docs[0].externalId.Some? {
        var rest := AssignIds(docs[1..], taken, counter);
        assert AssignIds(docs, taken, counter) == [docs[0]] + rest by {
          AssignIdsFirst(docs, taken, counter);
        }
        assert AllGenerated(docs[1..], rest, counter, taken) by {
          AssignIdsFresh(docs[1..], taken, counter);
        }
        GeneratedCons(docs[0], rest, docs[0], docs[1..], counter, taken, counter, taken);
      } else {
        var n := NextSid(counter, taken);
        var t := taken + {SidFor(n)};
        var first := docs[0].(externalId := Some(SidFor(n)));
        var rest := AssignIds(docs[1..], t, n);
        assert AssignIds(docs, taken, counter) == [first] + rest by {
          AssignIdsFirst(docs, taken, counter);
        }
        assert Generated(SidFor(n), counter, taken) by {
          SidRoundTrip(n);
        }
        assert AllGenerated(docs[1..], rest, n, t) by {
          AssignIdsFresh(docs[1..], t, n);
        }
        GeneratedCons(first, rest, docs[0], docs[1..], counter, taken, n, t);
      }
    }
  }

  /** Ids generated after `c` while `t` was taken were generated after any
      earlier `counter` while any part of `t` was taken. */
  lemma GeneratedCons(first: StudentDoc, rest: seq<StudentDoc>, d0: StudentDoc, docs: seq<StudentDoc>,
                      counter: nat, taken: set<string>, c: nat, t: set<string>)
    requires |rest| == |docs| && AllGenerated(docs, rest, c, t)
    requires counter <= c && taken <= t
    requires d0.externalId.None? ==> first.externalId.Some? && Generated(first.externalId.value, counter, taken)
    ensures AllGenerated([d0] + docs, [first] + rest, counter, taken)
  {
    var all, r := [d0] + docs, [first] + rest;
    forall k | 0 <= k < |all| && all[k].externalId.None?
      ensures r[k].externalId.Some? && Generated(r[k].externalId.value, counter, taken)
    {
      if k > 0 {
        assert r[k] == rest[k - 1] && all[k] == docs[k - 1];
      }
    }
  }

  lemma AssignIdsAbove(docs: seq<StudentDoc>, taken: set<string>, counter: nat)
    ensures var r := AssignIds(docs, taken, counter);
      forall k :: 0 <= k < |docs| && docs[k].externalId.None? ==> GeneratedNumber(r[k]) > counter
  {
    AssignIdsFresh(docs, taken, counter);
  }

  /** The numbers generated for the documents without a supplied id increase
      in row order. */
  ghost predicate NumbersIncrease(docs: seq<StudentDoc>, r: seq<StudentDoc>)
    requires |r| == |docs|
  {
    forall i, j :: 0 <= i < j < |docs| && docs[i].externalId.None? && docs[j].externalId.None? ==>
      GeneratedNumber(r[i]) < GeneratedNumber(r[j])
  }

  /** Generated numbers increase in row order. */
  lemma {:induction false} AssignIdsIncreasing(docs: seq<StudentDoc>, taken: set<string>, counter: nat)
    ensures NumbersIncrease(docs, AssignIds(docs, taken, counter))
    decreases |docs|
  {
    if docs != [] {
      assert docs == [docs[0]] + docs[1..];
      if docs[0].externalId.Some? {
        var rest := AssignIds(docs[1..], taken, counter);
        assert AssignIds(docs, taken, counter) == [docs[0]] + rest by {
          AssignIdsFirst(docs, taken, counter);
        }
        assert NumbersIncrease(docs[1..], rest) by {
          AssignIdsIncreasing(docs[1..], taken, counter);
        }
        assert forall k :: 0 <= k < |docs[1..]| && docs[1..][k].externalId.None? ==> GeneratedNumber(rest[k]) > counter by {
          AssignIdsAbove(docs[1..], taken, counter);
        }
        IncreasingCons(docs[0], rest, docs[0], docs[1..], counter);
      } else {
        var n := NextSid(counter, taken);
        var t := taken + {SidFor(n)};
        var first := docs[0].(externalId := Some(SidFor(n)));
        var rest := AssignIds(docs[1..], t, n);
        assert AssignIds(docs, taken, counter) == [first] + rest by {
          AssignIdsFirst(docs, taken, counter);
        }
        assert GeneratedNumber(first) == n by {
          SidRoundTrip(n);
        }
        assert NumbersIncrease(docs[1..], rest) by {
          AssignIdsIncreasing(docs[1..], t, n);
        }
        assert forall k :: 0 <= k < |docs[1..]| && docs[1..][k].externalId.None? ==> GeneratedNumber(rest[k]) > n by {
          AssignIdsAbove(docs[1..], t, n);
        }
        IncreasingCons(first, rest, docs[0], docs[1..], n);
      }
    }
  }

  /** Putting a document in front of increasing generated numbers that all lie
      above its own keeps them increasing. */
  lemma IncreasingCons(first: StudentDoc, rest: seq<StudentDoc>, d0: StudentDoc, docs: seq<StudentDoc>, c: nat)
    requires |rest| == |docs| && NumbersIncrease(docs, rest)
    requires forall k :: 0 <= k < |docs| && docs[k].externalId.None? ==> GeneratedNumber(rest[k]) > c
    requires d0.externalId.None? ==> GeneratedNumber(first) == c
    ensures NumbersIncrease([d0] + docs, [first] + rest)
  {
    var all, r := [d0] + docs, [first] + rest;
    forall i, j | 0 <= i < j < |all| && all[i].externalId.None? && all[j].externalId.None?
      ensures GeneratedNumber(r[i]) < GeneratedNumber(r[j])
    {
      assert r[j] == rest[j - 1] && all[j] == docs[j - 1];
      if i > 0 {
        assert r[i] == rest[i - 1] && all[i] == docs[i - 1];
      }
    }
  }

  /** When the supplied ids are distinct and all taken, every document ends
      with its own id. */
  lemma AssignedIdsDistinct(docs: seq<StudentDoc>, taken: set<string>, counter: nat)
    requires forall i, j :: 0 <= i < j < |docs| && docs[i].externalId.Some? ==> docs[i].externalId != docs[j].externalId
    requires forall k :: 0 <= k < |docs| && docs[k].externalId.Some? ==> docs[k].externalId.value in taken
    ensures var r := AssignIds(docs, taken, counter);
      forall i, j :: 0 <= i < j < |r| ==> r[i].externalId != r[j].externalId
  {
    var r := AssignIds(docs, taken, counter);
    AssignIdsKeeps(docs, taken, counter);
    AssignIdsFresh(docs, taken, counter);
    AssignIdsIncreasing(docs, taken, counter);
    forall i, j | 0 <= i < j < |r| ensures r[i].externalId != r[j].externalId {
      if docs[i].externalId.None? && docs[j].externalId.None? {
        assert GeneratedNumber(r[i]) < GeneratedNumber(r[j]);
      }
    }
  }

  /** One run of the `do … while` loop: counts up from `c0` until the id is
      free. */
  method NextGeneratedId(taken: set<string>, c0: nat) returns (n: nat, id: string)
    ensures n == NextSid(c0, taken) && id == SidFor(n)
  {
    n := c0 + 1;
    while SidFor(n) in taken
      invariant n > c0
      invariant forall m :: c0 < m < n ==> SidFor(m) in taken
      decreases NextSid(c0, taken) - n
    {
      n := n + 1;
    }
    id := SidFor(n);
    FirstFreeIsNextSid(c0, taken, n);
  }

  /** The number `NextSid` finds is the only one above `c` whose id is free
      while every id between is taken. */
  lemma FirstFreeIsNextSid(c: nat, taken: set<string>, n: nat)
    requires n > c && SidFor(n) !in taken
    requires forall m :: c < m < n ==> SidFor(m) in taken
    ensures NextSid(c, taken) == n
  {
    var k := NextSid(c, taken);
    assert !(k < n) && !(n < k);
  }

  lemma AssignIdsFirst(docs: seq<StudentDoc>, taken: set<string>, counter: nat)
    requires docs != []
    ensures docs[0].externalId.Some? ==>
      AssignIds(docs, taken, counter) == [docs[0]] + AssignIds(docs[1..], taken, counter)
    ensures docs[0].externalId.None? ==>
      var n := NextSid(counter, taken);
      AssignIds(docs, taken, counter)
        == [docs[0].(externalId := Some(SidFor(n)))] + AssignIds(docs[1..], taken + {SidFor(n)}, n)
  {
  }

  /** The generation loop of `importStudents`, assigning `externalId` in
      place. */
  method GenerateIds(docs: seq<StudentDoc>, taken: set<string>, counter: nat) returns (out: seq<StudentDoc>)
    ensures out == AssignIds(docs, taken, counter)
  {
    out := docs;
    var t, c := taken, counter;
    for k := 0 to |docs|
      invariant |out| == |docs|
      invariant forall i :: k <= i < |docs| ==> out[i] == docs[i]
      invariant AssignIds(docs, taken, counter) == out[..k] + AssignIds(docs[k..], t, c)
    {
      ghost var done := out[..k];
      ghost var t0, c0 := t, c;
      AssignIdsFirst(docs[k..], t, c);
      assert docs[k..][0] == out[k];
      assert docs[k..][1..] == docs[k + 1..];
      if out[k].externalId.None? {
        var n, id := NextGeneratedId(t, c);
        out := out[k := out[k].(externalId := Some(id))];
        t, c := t + {id}, n;
      }
      assert AssignIds(docs[k..], t0, c0) == [out[k]] + AssignIds(docs[k + 1..], t, c);
      assert out[..k + 1] == done + [out[k]];
      ConcatShift(done, out[k], AssignIds(docs[k + 1..], t, c));
    }
    assert out[..|docs|] == out;
  }

  /** The loop over the quiz's ids that finds the largest `SID-n` number. */
  method LargestSid(ids: set<string>) returns (m: nat)
    ensures m == MaxSid(ids)
  {
    m := 0;
    var rest := ids;
    while rest != {}
      invariant rest <= ids
      invariant IsMaxSid(ids - rest, m)
      decreases |rest|
    {
      var x :| x in rest;
      var number := SidNumber(x);
      if number.Some? && number.value > m {
        m := number.value;
      }
      rest := rest - {x};
    }
    assert ids - rest == ids;
    MaxSidUnique(ids, m, MaxSid(ids));
  }

  // ---------------------------------------------------------------------------
  // Clashes with the quiz's roster

  /** `existingExternalIds`: the quiz's non-empty student ids. */
  function ExistingIds(ss: seq<Student>, quizId: Id): set<string> {
    set k | 0 <= k < |ss| && ss[k].quizId == quizId && ss[k].externalId.Some? && ss[k].externalId.value != ""
          :: ss[k].externalId.value
  }

  /** The first of `ids` (in insertion order) that is already in use. */
  function FirstExisting(ids: seq<string>, existing: set<string>): (r: Option<string>)
    ensures r.None? <==> forall k :: 0 <= k < |ids| ==> ids[k] !in existing
    ensures r.Some? ==> exists k :: 0 <= k < |ids| && ids[k] == r.value && r.value in existing
                                 && forall j :: 0 <= j < k ==> ids[j] !in existing
    decreases |ids|
  {
    if ids == [] then None
    else if ids[0] in existing then Some(ids[0])
    else
      var r := FirstExisting(ids[1..], existing);
      assert forall k :: 1 <= k < |ids| ==> ids[k] == ids[1..][k - 1];
      r
  }

  /** The loop over `normalizedExternalIds` that stops at the first id in use. */
  method FindExisting(ids: seq<string>, existing: set<string>) returns (r: Option<string>)
    ensures r == FirstExisting(ids, existing)
  {
    for k := 0 to |ids|
      invariant FirstExisting(ids, existing) == FirstExisting(ids[k..], existing)
    {
      assert ids[k..][1..] == ids[k + 1..];
      if ids[k] in existing {
        return Some(ids[k]);
      }
    }
    return None;
  }

  /** The quiz's stored e-mails, in storage order, whose form under `key` is
      among `emails`. */
  function EmailsMatching(ss: seq<Student>, quizId: Id, emails: set<string>, key: string -> string)
    : (r: seq<string>)
    ensures r == [] <==> forall k :: 0 <= k < |ss| && ss[k].quizId == quizId ==> key(ss[k].email) !in emails
    decreases |ss|
  {
    if ss == [] then []
    else
      var rest := EmailsMatching(ss[1..], quizId, emails, key);
      assert forall k :: 1 <= k < |ss| ==> ss[k] == ss[1..][k - 1];
      (if ss[0].quizId == quizId && key(ss[0].email) in emails then [ss[0].email] else []) + rest
  }

  /** The quiz's stored e-mails whose normalised form is among the upload's
      normalised e-mails. */
  function EmailsTaken(ss: seq<Student>, quizId: Id, emails: set<string>): (r: seq<string>)
    ensures r == [] <==> forall k :: 0 <= k < |ss| && ss[k].quizId == quizId ==> NormalizeEmail(ss[k].email) !in emails
  {
    EmailsMatching(ss, quizId, emails, NormalizeEmail)
  }

  /** The roster query as written: `email: { $in: normalizedEmails }` compares
      each stored e-mail exactly as stored. */
  function EmailsTakenAsWritten(ss: seq<Student>, quizId: Id, emails: set<string>): (r: seq<string>)
    ensures r == [] <==> forall k :: 0 <= k < |ss| && ss[k].quizId == quizId ==> ss[k].email !in emails
  {
    EmailsMatching(ss, quizId, emails, (e: string) => e)
  }

  /** Stored e-mails keep the case they were uploaded with, so the query as
      written misses a student uploaded again with the same e-mail. */
  lemma ExistingEmailMissedAsWritten()
    ensures var ss := [Student("s1", "q1", "Ann", "A@b.c", None)];
            var emails := {NormalizeEmail("A@b.c")};
      EmailsTakenAsWritten(ss, "q1", emails) == [] && EmailsTaken(ss, "q1", emails) == ["A@b.c"]
  {
    var e := "A@b.c";
    MixedCaseNormalized();
    var ss := [Student("s1", "q1", "Ann", e, None)];
    assert ss[1..] == [];
  }

  /** An e-mail with a capital letter normalises to a different text. */
  lemma MixedCaseNormalized()
    ensures NormalizeEmail("A@b.c") == "a@b.c" != "A@b.c"
  {
    var e := "A@b.c";
    TrimUnpadded(e);
    LowerOfMixedCase();
    assert NormalizeEmail(e) == ToLower(e);
  }

  lemma LowerOfMixedCase()
    ensures ToLower("A@b.c") == "a@b.c" != "A@b.c"
  {
    var low := ToLower("A@b.c");
    assert low[0] == 'a';
    assert "A@b.c"[0] != "a@b.c"[0];
  }

  // ---------------------------------------------------------------------------
  // The whole upload

  /** The ids the generation loop must avoid: the quiz's ids and the upload's. */
  function TakenIds(existing: set<string>, ids: seq<string>): set<string> {
    existing + set k | 0 <= k < |ids| :: ids[k]
  }

  /** Every supplied id is among the ids the generation loop avoids. */
  lemma SuppliedInTaken(rows: seq<RowFields>, docs: seq<StudentDoc>, existing: set<string>)
    requires |docs| == |rows| && forall k :: 0 <= k < |rows| ==> docs[k].externalId == rows[k].studentId
    ensures forall k :: 0 <= k < |docs| && docs[k].externalId.Some? ==> docs[k].externalId.value in TakenIds(existing, SuppliedIds(rows))
  {
    var ids := SuppliedIds(rows);
    SuppliedIdsMembers(rows);
  }

  /** What `importStudents` inserts for the rows `rows` while the stored
      students are `ss`, or why it refuses the upload. */
  ghost function Plan(ss: seq<Student>, quizId: Id, rows: seq<RowFields>, isEmail: string -> bool)
    : Result<seq<StudentDoc>>
  {
    if rows == [] then Err(NoStudents)
    else match ReadRows(rows, quizId, isEmail)
      case Err(e) => Err(e)
      case Ok(docs) =>
        if Duplicates(rows) != [] then Err(DuplicateEntries(Duplicates(rows)))
        else
          var existing := ExistingIds(ss, quizId);
          match FirstExisting(SuppliedIds(rows), existing)
          case Some(id) => Err(IdExists(id))
          case None =>
            var taken := EmailsTaken(ss, quizId, EmailSet(rows));
            if taken != [] then Err(EmailsExist(taken))
            else Ok(AssignIds(docs, TakenIds(existing, SuppliedIds(rows)), MaxSid(existing)))
  }

  /** `added` stores `docs` in order, each under an id not in `used`. */
  ghost predicate StoredAs(added: seq<Student>, docs: seq<StudentDoc>, used: set<Id>) {
    && |added| == |docs|
    && forall k :: 0 <= k < |docs| ==>
         && added[k].id !in used
         && added[k] == Student(added[k].id, docs[k].quizId, docs[k].name, docs[k].email, docs[k].externalId)
  }

  lemma AppendStudentKeepsValid(d: DbState, s: Student)
    requires DbValid(d) && s.id !in d.usedIds
    ensures DbValid(d.(students := d.students + [s], usedIds := d.usedIds + {s.id}))
  {
  }

  /** `Student.insertMany(docs)`: each document is stored under a new id. */
  method InsertStudents(st: Store, docs: seq<StudentDoc>) returns (inserted: seq<Student>)
    requires st.Valid()
    modifies st
    ensures st.Valid()
    ensures StoredAs(inserted, docs, old(st.usedIds))
    ensures st.Db() == old(st.Db()).(students := old(st.students) + inserted, usedIds := st.usedIds)
  {
    ghost var d := st.Db();
    inserted := [];
    for k := 0 to |docs|
      invariant st.Valid()
      invariant StoredAs(inserted, docs[..k], d.usedIds)
      invariant d.usedIds <= st.usedIds
      invariant st.Db() == d.(students := d.students + inserted, usedIds := st.usedIds)
    {
      ghost var before := st.Db();
      var id := st.FreshId();
      var s := Student(id, docs[k].quizId, docs[k].name, docs[k].email, docs[k].externalId);
      AppendStudentKeepsValid(before, s);
      st.students := st.students + [s];
      inserted := inserted + [s];
    }
    assert docs[..|docs|] == docs;
  }

  /** `importStudents(quizId, csvContent)`: a refused upload changes nothing;
      an accepted one appends the planned students and answers with the
      quiz's roster. */
  method ImportStudents(st: Store, quizId: Id, content: string, parse: string -> Option<seq<Row>>,
                        isEmail: string -> bool)
    returns (r: Result<seq<Student>>)
    requires st.Valid()
    modifies st
    ensures st.Valid()
    ensures parse(content).None? ==> r == Err(ServerError) && st.Db() == old(st.Db())
    ensures parse(content).Some? ==>
      var plan := Plan(old(st.students), quizId, FieldsOfAll(parse(content).value), isEmail);
      && (plan.Err? ==> r == Err(plan.error) && st.Db() == old(st.Db()))
      && (plan.Ok? ==>
            && st.Db() == old(st.Db()).(students := st.students, usedIds := st.usedIds)
            && |st.students| >= |old(st.students)|
            && st.students[..|old(st.students)|] == old(st.students)
            && StoredAs(st.students[|old(st.students)|..], plan.value, old(st.usedIds))
            && r == Ok(StudentsOf(st.students, quizId)))
  {
    if parse(content).None? {
      return Err(ServerError);
    }
    var rows := FieldsOfAll(parse(content).value);
    if |rows| == 0 {
      return Err(NoStudents);
    }
    var docs, emails, ids, dups, err := ReadUpload(rows, quizId, isEmail);
    if err.Some? {
      return Err(err.value);
    }
    if |dups| > 0 {
      return Err(DuplicateEntries(dups));
    }
    var existing := ExistingIds(st.students, quizId);
    var clash := FindExisting(ids, existing);
    if clash.Some? {
      return Err(IdExists(clash.value));
    }
    var taken := EmailsTaken(st.students, quizId, emails);
    if |taken| > 0 {
      return Err(EmailsExist(taken));
    }
    var largest := LargestSid(existing);
    var complete := GenerateIds(docs, TakenIds(existing, ids), largest);
    ghost var before := st.students;
    var inserted := InsertStudents(st, complete);
    assert st.students[|before|..] == inserted;
    r := Ok(StudentsOf(st.students, quizId));
  }

  // ---------------------------------------------------------------------------
  // What an accepted upload satisfies

  /** The conditions under which the upload is accepted: at least one row,
      every row valid, no repeated e-mail or supplied id, no supplied id
      already in the quiz, and no e-mail already in the quiz. */
  ghost predicate Acceptable(ss: seq<Student>, quizId: Id, rows: seq<RowFields>, isEmail: string -> bool) {
    && rows != []
    && (forall k :: 0 <= k < |rows| ==> RowOk(rows[k], isEmail))
    && DistinctEntries(rows)
    && IdsNew(rows, ExistingIds(ss, quizId))
    && EmailsNew(ss, quizId, rows)
  }

  /** No supplied id is among `existing`. */
  ghost predicate IdsNew(rows: seq<RowFields>, existing: set<string>) {
    forall k :: 0 <= k < |rows| && rows[k].studentId.Some? ==> rows[k].studentId.value !in existing
  }

  /** No row's normalised e-mail is the normalised e-mail of a student of the
      quiz. */
  ghost predicate EmailsNew(ss: seq<Student>, quizId: Id, rows: seq<RowFields>) {
    forall j, k :: 0 <= j < |ss| && 0 <= k < |rows| && ss[j].quizId == quizId ==>
      NormalizeEmail(ss[j].email) != rows[k].normalized
  }

  lemma NoIdClashIff(rows: seq<RowFields>, existing: set<string>)
    ensures FirstExisting(SuppliedIds(rows), existing).None? <==> IdsNew(rows, existing)
  {
    var ids := SuppliedIds(rows);
    SuppliedIdsMembers(rows);
    if FirstExisting(ids, existing).Some? {
      var i :| 0 <= i < |ids| && ids[i] in existing;
      var k :| 0 <= k < |rows| && rows[k].studentId == Some(ids[i]);
    } else {
      forall k | 0 <= k < |rows| && rows[k].studentId.Some?
        ensures rows[k].studentId.value !in existing
      {
        assert rows[k].studentId.value in ids;
      }
    }
  }

  lemma NoEmailClashIff(ss: seq<Student>, quizId: Id, rows: seq<RowFields>)
    ensures EmailsTaken(ss, quizId, EmailSet(rows)) == [] <==> EmailsNew(ss, quizId, rows)
  {
    EmailSetMembers(rows);
    if EmailsTaken(ss, quizId, EmailSet(rows)) != [] {
      var j :| 0 <= j < |ss| && ss[j].quizId == quizId && NormalizeEmail(ss[j].email) in EmailSet(rows);
      var k :| 0 <= k < |rows| && rows[k].normalized == NormalizeEmail(ss[j].email);
    }
  }

  /** The upload is accepted exactly when it is acceptable. */
  lemma PlanAccepts(ss: seq<Student>, quizId: Id, rows: seq<RowFields>, isEmail: string -> bool)
    ensures Plan(ss, quizId, rows, isEmail).Ok? <==> Acceptable(ss, quizId, rows, isEmail)
  {
    var existing := ExistingIds(ss, quizId);
    var clear := Duplicates(rows) == [] && FirstExisting(SuppliedIds(rows), existing).None?
      && EmailsTaken(ss, quizId, EmailSet(rows)) == [];
    assert Plan(ss, quizId, rows, isEmail).Ok? <==> rows != [] && ReadRows(rows, quizId, isEmail).Ok? && clear;
    assert clear <==> DistinctEntries(rows) && IdsNew(rows, existing) && EmailsNew(ss, quizId, rows) by {
      NoDuplicatesIffDistinct(rows);
      NoIdClashIff(rows, existing);
      NoEmailClashIff(ss, quizId, rows);
    }
  }

  /** An accepted upload inserts one student per row, in row order, with the
      row's name and e-mail as written; a supplied id is kept. */
  lemma PlanKeepsRows(ss: seq<Student>, quizId: Id, rows: seq<RowFields>, isEmail: string -> bool)
    requires Plan(ss, quizId, rows, isEmail).Ok?
    ensures var docs := Plan(ss, quizId, rows, isEmail).value;
      && |docs| == |rows|
      && forall k :: 0 <= k < |rows| ==>
           && docs[k].quizId == quizId && docs[k].name == rows[k].name && docs[k].email == rows[k].email
           && docs[k].externalId.Some?
           && (rows[k].studentId.Some? ==> docs[k].externalId == rows[k].studentId)
  {
    var docs := ReadRows(rows, quizId, isEmail).value;
    var existing := ExistingIds(ss, quizId);
    AssignIdsKeeps(docs, TakenIds(existing, SuppliedIds(rows)), MaxSid(existing));
  }

  /** Every row without a supplied id got an id of the form `SID-n` whose
      number is above every `SID-` number in `existing` and above the numbers
      generated for earlier rows; no student id is in `existing` or repeated. */
  ghost predicate IdsFresh(rows: seq<RowFields>, docs: seq<StudentDoc>, existing: set<string>)
    requires |docs| == |rows|
  {
    && (forall k :: 0 <= k < |rows| && rows[k].studentId.None? ==>
          docs[k].externalId.Some? &&
          var x := docs[k].externalId.value;
          && SidNumber(x).Some? && x == SidFor(SidNumber(x).value)
          && forall y :: y in existing && SidNumber(y).Some? ==> SidNumber(y).value < SidNumber(x).value)
    && (forall i, j :: 0 <= i < j < |rows| && rows[i].studentId.None? && rows[j].studentId.None? ==>
          GeneratedNumber(docs[i]) < GeneratedNumber(docs[j]))
    && (forall k :: 0 <= k < |rows| ==> docs[k].externalId.Some? && docs[k].externalId.value !in existing)
    && (forall i, j :: 0 <= i < j < |rows| ==> docs[i].externalId != docs[j].externalId)
  }

  /** In an accepted upload the ids are fresh in the sense of `IdsFresh`. */
  lemma PlanIdsFresh(ss: seq<Student>, quizId: Id, rows: seq<RowFields>, isEmail: string -> bool)
    requires Plan(ss, quizId, rows, isEmail).Ok?
    ensures |Plan(ss, quizId, rows, isEmail).value| == |rows|
    ensures IdsFresh(rows, Plan(ss, quizId, rows, isEmail).value, ExistingIds(ss, quizId))
  {
    var docs := ReadRows(rows, quizId, isEmail).value;
    var existing := ExistingIds(ss, quizId);
    assert Plan(ss, quizId, rows, isEmail).value == AssignIds(docs, TakenIds(existing, SuppliedIds(rows)), MaxSid(existing));
    assert DistinctEntries(rows) by {
      NoDuplicatesIffDistinct(rows);
    }
    AssignedIdsFresh(rows, docs, existing);
  }

  /** The generation step of an upload whose rows are distinct and whose
      supplied ids are all new to the quiz. */
  lemma AssignedIdsFresh(rows: seq<RowFields>, docs: seq<StudentDoc>, existing: set<string>)
    requires |docs| == |rows| && forall k :: 0 <= k < |rows| ==> docs[k].externalId == rows[k].studentId
    requires DistinctEntries(rows) && FirstExisting(SuppliedIds(rows), existing).None?
    ensures IdsFresh(rows, AssignIds(docs, TakenIds(existing, SuppliedIds(rows)), MaxSid(existing)), existing)
  {
    var ids := SuppliedIds(rows);
    var taken := TakenIds(existing, ids);
    var c := MaxSid(existing);
    var out := AssignIds(docs, taken, c);
    assert AllGenerated(docs, out, c, taken) by {
      AssignIdsFresh(docs, taken, c);
    }
    assert NumbersIncrease(docs, out) by {
      AssignIdsIncreasing(docs, taken, c);
    }
    AssignIdsKeeps(docs, taken, c);
    SuppliedInTaken(rows, docs, existing);
    AssignedIdsDistinct(docs, taken, c);
  }


}
