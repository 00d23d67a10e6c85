/** Question upload and listing. Uploads arrive as CSV text; splitting it into
    rows is the CSV library's work, here the function `parse` (`None` when the
    library rejects the text). Each kept row becomes one question with its
    text, two to four options, the index of the correct option and its
    position. */
module QuestionImport {
  import opened Common
  import opened Models
  import opened Storage

  const CsvEmpty := Error(400, "CSV is empty")
  const CsvParseError := Error(400, "CSV parse error. Check headers and commas.")
  const NoQuestionsFound := Error(400, "No questions found in CSV")

  /** The rejection of the `n`-th kept row (counting from 1). */
  function InvalidRow(n: nat): Error {
    Error(400, "Invalid row " + NatToDecimal(n) + RowAdvice)
  }

  const RowAdvice := ". Each question needs text and at least 2 options. "
                     + "If your question contains commas, wrap the question in double quotes."

  /** A question document as the upload builds it, before it is stored. */
  datatype QuestionDoc = QuestionDoc(quizId: Id, text: string, options: seq<string>, correctIndex: nat, order: nat)

  /** A row with at least one cell that is not blank. */
  predicate Meaningful(row: Row) {
    exists c :: c in row && Trim(row[c]) != ""
  }

  /** The rows that are not entirely blank, in order. */
  function MeaningfulRows(rows: seq<Row>): (r: seq<Row>)
    ensures forall k :: 0 <= k < |r| ==> r[k] in rows && Meaningful(r[k])
    ensures forall k {:trigger rows[k] in r} :: 0 <= k < |rows| && Meaningful(rows[k]) ==> rows[k] in r
  {
    Filter(rows, Meaningful)
  }

  /** `Boolean(value && String(value).trim())`. */
  predicate Filled(v: string) {
    Trim(v) != ""
  }

  /** The filled ones of the four option cells, in column order, as written
      (not trimmed). */
  function Options(a: string, b: string, c: string, d: string): (r: seq<string>)
    ensures |r| <= 4
    ensures forall k :: 0 <= k < |r| ==> Filled(r[k]) && r[k] in [a, b, c, d]
    ensures forall v :: v in [a, b, c, d] && Filled(v) ==> v in r
  {
    Filter([a, b, c, d], Filled)
  }

  /** What the upload reads from one row. */
  datatype QuestionRow = QuestionRow(text: string, options: seq<string>, letter: string)

  /** The question text is the `Question` (or `question`) cell, trimmed; the
      options are the filled cells of `OptionA` … `OptionD`; the correct
      letter is the `CorrectLetter` cell. */
  function RowOf(row: Row): (q: QuestionRow)
    ensures |q.options| <= 4
  {
    var text := EitherCell(row, "Question", "question");
    QuestionRow(Trim(text),
                Options(Cell(row, "OptionA"), Cell(row, "OptionB"), Cell(row, "OptionC"), Cell(row, "OptionD")),
                Cell(row, "CorrectLetter"))
  }

  /** The rows as the upload reads them. */
  function Extracted(rows: seq<Row>): (r: seq<QuestionRow>)
    ensures |r| == |rows|
    ensures forall k :: 0 <= k < |rows| ==> r[k] == RowOf(rows[k])
  {
    seq(|rows|, k requires 0 <= k < |rows| => RowOf(rows[k]))
  }

  /** The position of the correct letter in A–D, upper-cased first; a missing
      letter means A and an unknown one falls back to 0. */
  function CorrectIndexOf(letter: string): (r: nat)
    ensures r <= 3
    ensures r == 1 <==> ToUpper(letter) == "B"
    ensures r == 2 <==> ToUpper(letter) == "C"
    ensures r == 3 <==> ToUpper(letter) == "D"
  {
    var upper := ToUpper(if letter != "" then letter else "A");
    assert letter == "" ==> upper == "A" && ToUpper(letter) == "";
    if upper == "B" then 1 else if upper == "C" then 2 else if upper == "D" then 3 else 0
  }

  /** A row the upload accepts: text and at least two options. */
  predicate ValidRow(q: QuestionRow) {
    q.text != "" && |q.options| >= 2
  }

  /** The document built from a row at 1-based position `order`. */
  function DocOf(q: QuestionRow, quizId: Id, order: nat): QuestionDoc {
    QuestionDoc(quizId, q.text, q.options, CorrectIndexOf(q.letter), order)
  }

  /** The position of the first invalid row, or `|rows|` when all are valid. */
  function FirstInvalid(rows: seq<QuestionRow>): (k: nat)
    ensures k <= |rows|
    ensures forall j :: 0 <= j < k ==> ValidRow(rows[j])
    ensures k < |rows| ==> !ValidRow(rows[k])
  {
    if rows == [] || !ValidRow(rows[0]) then 0 else FirstInvalid(rows[1..]) + 1
  }

  /** The `map` over the rows: the documents of `rows`, numbered from 1, or
      the rejection of the first invalid row, which stops the upload. */
  function BuildDocs(rows: seq<QuestionRow>, quizId: Id): (r: Result<seq<QuestionDoc>>)
    ensures r.Ok? <==> forall k :: 0 <= k < |rows| ==> ValidRow(rows[k])
    ensures r.Err? ==> FirstInvalid(rows) < |rows| && r.error == InvalidRow(FirstInvalid(rows) + 1)
    ensures r.Ok? ==> |r.value| == |rows|
    ensures r.Ok? ==> forall k :: 0 <= k < |rows| ==> r.value[k] == DocOf(rows[k], quizId, k + 1)
  {
    var bad := FirstInvalid(rows);
    if bad < |rows| then Err(InvalidRow(bad + 1))
    else Ok(seq(|rows|, k requires 0 <= k < |rows| => DocOf(rows[k], quizId, k + 1)))
  }

  /** `importQuestions(quizId, csvContent)`, up to the insert. */
  function ImportQuestions(quizId: Id, content: string, parse: string -> Option<seq<Row>>)
    : (r: Result<seq<QuestionDoc>>)
    ensures IsBlank(content) ==> r == Err(CsvEmpty)
    ensures !IsBlank(content) && parse(content).None? ==> r == Err(CsvParseError)
    ensures !IsBlank(content) && parse(content).Some? && MeaningfulRows(parse(content).value) == []
            ==> r == Err(NoQuestionsFound)
    ensures !IsBlank(content) && parse(content).Some? && MeaningfulRows(parse(content).value) != []
            ==> r == BuildDocs(Extracted(MeaningfulRows(parse(content).value)), quizId)
  {
    TrimEmptyIffBlank(content);
    if Trim(content) == "" then Err(CsvEmpty)
    else match parse(content)
      case None => Err(CsvParseError)
      case Some(rows) =>
        if rows == [] then Err(NoQuestionsFound)
        else
          var kept := MeaningfulRows(rows);
          if kept == [] then Err(NoQuestionsFound) else BuildDocs(Extracted(kept), quizId)
  }

  /** Every document of an accepted upload has its position, its quiz,
      trimmed non-empty text, two to four options and a correct index in A–D. */
  lemma DocsShape(kept: seq<Row>, quizId: Id)
    requires BuildDocs(Extracted(kept), quizId).Ok?
    ensures var docs := BuildDocs(Extracted(kept), quizId).value;
      && |docs| == |kept|
      && forall k :: 0 <= k < |kept| ==>
           && docs[k].order == k + 1 && docs[k].quizId == quizId
           && docs[k].text != "" && docs[k].text == Trim(docs[k].text)
           && 2 <= |docs[k].options| <= 4 && docs[k].correctIndex <= 3
  {
    var rows := Extracted(kept);
    var docs := BuildDocs(rows, quizId).value;
    forall k | 0 <= k < |kept|
      ensures && docs[k].order == k + 1 && docs[k].quizId == quizId
              && docs[k].text != "" && docs[k].text == Trim(docs[k].text)
              && 2 <= |docs[k].options| <= 4 && docs[k].correctIndex <= 3
    {
      var q := RowOf(kept[k]);
      TrimIdempotent(EitherCell(kept[k], "Question", "question"));
      assert rows[k] == q && ValidRow(q);
      assert docs[k] == DocOf(q, quizId, k + 1);
    }
  }

  /** A question may record a correct option it does not have: a row with
      two options and correct letter D is accepted with index 3. */
  lemma CorrectIndexMayExceedOptions(q: QuestionRow, quizId: Id, order: nat)
    requires ValidRow(q) && |q.options| == 2 && q.letter == "D"
    ensures DocOf(q, quizId, order).correctIndex == 3 > |DocOf(q, quizId, order).options|
  {
    assert ToUpper("D") == "D";
  }

  // ---------------------------------------------------------------------------
  // Storing and listing

  /** `Question.insertMany(docs)`: each document is stored under a new id. */
  method InsertQuestions(st: Store, docs: seq<QuestionDoc>) returns (inserted: seq<Question>)
    requires st.Valid()
    modifies st
    ensures st.Valid()
    ensures |inserted| == |docs|
    ensures forall k :: 0 <= k < |docs| ==>
      && inserted[k].id !in old(st.usedIds)
      && inserted[k] == Question(inserted[k].id, docs[k].quizId, docs[k].text, docs[k].options,
                                 docs[k].correctIndex, docs[k].order)
    ensures st.Db() == old(st.Db()).(questions := old(st.questions) + inserted, usedIds := st.usedIds)
    ensures st.usedIds == old(st.usedIds) + set k | 0 <= k < |inserted| :: inserted[k].id
  {
    ghost var d := st.Db();
    inserted := [];
    for k := 0 to |docs|
      invariant |inserted| == k
      invariant forall j :: 0 <= j < k ==>
        && inserted[j].id !in d.usedIds
        && inserted[j] == Question(inserted[j].id, docs[j].quizId, docs[j].text, docs[j].options,
                                   docs[j].correctIndex, docs[j].order)
      invariant forall i, j :: 0 <= i < j < k ==> inserted[i].id != inserted[j].id
      invariant st.Db() == d.(questions := d.questions + inserted, usedIds := st.usedIds)
      invariant st.usedIds == d.usedIds + set j | 0 <= j < k :: inserted[j].id
    {
      ghost var used := st.usedIds;
      assert forall j :: 0 <= j < k ==> inserted[j].id in used;
      var id := st.FreshId();
      var q := Question(id, docs[k].quizId, docs[k].text, docs[k].options, docs[k].correctIndex, docs[k].order);
      st.questions := st.questions + [q];
      inserted := inserted + [q];
    }
    AppendQuestionsKeepValid(d, inserted);
  }

  /** `importQuestions(quizId, csvContent)` with its insert: a rejected upload
      stores nothing; an accepted one stores every document, in row order. */
  method UploadQuestions(st: Store, quizId: Id, content: string, parse: string -> Option<seq<Row>>)
    returns (r: Result<seq<Question>>)
    requires st.Valid()
    modifies st
    ensures st.Valid()
    ensures ImportQuestions(quizId, content, parse).Err? ==>
      r == Err(ImportQuestions(quizId, content, parse).error) && st.Db() == old(st.Db())
    ensures ImportQuestions(quizId, content, parse).Ok? ==>
      var docs := ImportQuestions(quizId, content, parse).value;
      && r.Ok? && |r.value| == |docs|
      && st.questions == old(st.questions) + r.value
      && forall k :: 0 <= k < |docs| ==>
           && r.value[k].id !in old(st.usedIds)
           && r.value[k] == Question(r.value[k].id, docs[k].quizId, docs[k].text, docs[k].options,
                                     docs[k].correctIndex, docs[k].order)
  {
    var built := ImportQuestions(quizId, content, parse);
    if built.Err? {
      return Err(built.error);
    }
    var inserted := InsertQuestions(st, built.value);
    r := Ok(inserted);
  }

  /** Storing questions under new, distinct ids keeps the store valid. */
  lemma AppendQuestionsKeepValid(d: DbState, added: seq<Question>)
    requires DbValid(d)
    requires forall j :: 0 <= j < |added| ==> added[j].id !in d.usedIds
    requires forall i, j :: 0 <= i < j < |added| ==> added[i].id != added[j].id
    ensures DbValid(d.(questions := d.questions + added, usedIds := d.usedIds + set j | 0 <= j < |added| :: added[j].id))
  {
    var qs := d.questions + added;
    forall i, j | 0 <= i < j < |qs| ensures qs[i].id != qs[j].id {
      if j >= |d.questions| {
        assert qs[j] == added[j - |d.questions|];
        if i >= |d.questions| {
          assert qs[i] == added[i - |d.questions|];
        }
      }
    }
  }

  /** Sorted by `order`, smallest first. */
  ghost predicate ByOrder(qs: seq<Question>) {
    forall i, j :: 0 <= i < j < |qs| ==> qs[i].order <= qs[j].order
  }

  /** Places `q` after every question of the sorted `qs` whose order is not
      larger (so equal orders keep their storage order). */
  function InsertByOrder(q: Question, qs: seq<Question>): (r: seq<Question>)
    requires ByOrder(qs)
    ensures ByOrder(r)
    ensures multiset(r) == multiset(qs) + multiset{q}
    ensures |r| == |qs| + 1
  {
    if qs == [] then [q]
    else if q.order < qs[0].order then
      assert forall k :: 0 <= k < |qs| ==> q.order <= qs[k].order by {
        assert forall k :: 0 < k < |qs| ==> qs[0].order <= qs[k].order;
      }
      ConsByOrder(q, qs);
      [q] + qs
    else
      var rest := InsertByOrder(q, qs[1..]);
      InsertBehindFirst(q, qs, rest);
      [qs[0]] + rest
  }

  /** The recursive step of `InsertByOrder`: the first question stays in
      front of the rest with `q` placed in it. */
  lemma InsertBehindFirst(q: Question, qs: seq<Question>, rest: seq<Question>)
    requires ByOrder(qs) && qs != [] && qs[0].order <= q.order
    requires ByOrder(rest) && multiset(rest) == multiset(qs[1..]) + multiset{q}
    ensures ByOrder([qs[0]] + rest)
    ensures multiset([qs[0]] + rest) == multiset(qs) + multiset{q}
  {
    assert multiset(qs) == multiset{qs[0]} + multiset(qs[1..]) by {
      assert qs == [qs[0]] + qs[1..];
    }
    forall k | 0 <= k < |rest| ensures qs[0].order <= rest[k].order {
      assert rest[k] in multiset(rest);
      if rest[k] != q {
        assert rest[k] in multiset(qs[1..]);
      }
    }
    ConsByOrder(qs[0], rest);
  }

  /** A question no later than every question of a sorted sequence can go in
      front of it. */
  lemma ConsByOrder(x: Question, s: seq<Question>)
    requires ByOrder(s) && forall k :: 0 <= k < |s| ==> x.order <= s[k].order
    ensures ByOrder([x] + s)
  {
    var r := [x] + s;
    forall i, j | 0 <= i < j < |r| ensures r[i].order <= r[j].order {
      assert r[j] == s[j - 1];
      if i > 0 {
        assert r[i] == s[i - 1];
      }
    }
  }

  /** The questions sorted by `order`: an insertion sort. */
  function SortByOrder(qs: seq<Question>): (r: seq<Question>)
    ensures ByOrder(r)
    ensures multiset(r) == multiset(qs)
    ensures |r| == |qs|
  {
    if qs == [] then []
    else
      assert qs == qs[..|qs| - 1] + [qs[|qs| - 1]];
      InsertByOrder(qs[|qs| - 1], SortByOrder(qs[..|qs| - 1]))
  }

  /** `listQuestions(quizId)`: the quiz's questions, every one exactly once,
      sorted by `order`. */
  function ListQuestions(st: Store, quizId: Id): (r: seq<Question>)
    reads st
    ensures ByOrder(r)
    ensures multiset(r) == multiset(QuestionsOf(st.questions, quizId))
    ensures forall k :: 0 <= k < |r| ==> r[k].quizId == quizId && r[k] in st.questions
  {
    var r := SortByOrder(QuestionsOf(st.questions, quizId));
    assert forall k :: 0 <= k < |r| ==> r[k] in multiset(QuestionsOf(st.questions, quizId));
    r
  }
}
