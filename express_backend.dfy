/**
 * The Express back end (api/getQuestions.js): every row the Sheets API
 * returns for the range A2:I becomes one record, cell by cell, with no
 * trimming and no filtering.
 *
 * The Sheets API call is not modelled: its `values` field is the input, None
 * when the API leaves it out (as it does for a range with no data).
 */
module ExpressBackend {
  import opened Wrappers
  import opened Text
  import FlaskBackend

  /** One row as the Sheets API returns it: trailing empty cells are left out, so rows may be short. */
  type Row = seq<string>

  /** A question record as this back end returns it; `questionType` is the source's `type` field. */
  datatype SheetRecord = SheetRecord(
    id: Option<string>,
    category: Option<string>,
    subCategory: Option<string>,
    detailCategory: Option<string>,
    question: Option<string>,
    answer: Option<string>,
    questionType: Option<string>,
    level: Option<string>,
    imageUrl: Option<string>)

  /** `row[k]` in JavaScript: the cell, or `undefined` (None) past the end of the row. */
  function Cell(row: Row, k: nat): Option<string> {
    if k < |row| then Some(row[k]) else None
  }

  /** The object literal built for one row. */
  function RowToRecord(row: Row): (r: SheetRecord)
    ensures forall k :: 0 <= k < 9 ==> Fields(r)[k] == Cell(row, k)
  {
    SheetRecord(Cell(row, 0), Cell(row, 1), Cell(row, 2), Cell(row, 3), Cell(row, 4),
                Cell(row, 5), Cell(row, 6), Cell(row, 7), Cell(row, 8))
  }

  /** The fields of a record in the order of the columns A..I they are read from. */
  function Fields(r: SheetRecord): (cells: seq<Option<string>>)
    ensures |cells| == 9
  {
    [r.id, r.category, r.subCategory, r.detailCategory, r.question, r.answer,
     r.questionType, r.level, r.imageUrl]
  }

  /** `values.map(row => ({...}))`. */
  function RowsToRecords(values: seq<Row>): (r: seq<SheetRecord>)
    ensures |r| == |values|
  {
    seq(|values|, i requires 0 <= i < |values| => RowToRecord(values[i]))
  }

  /** `getQuestions`: a missing `values` field makes `.map` throw, which the route turns into status 500. */
  function GetQuestions(values: Option<seq<Row>>): (r: Result<seq<SheetRecord>, string>)
    ensures r.Failure? <==> values == None
    ensures r.Success? ==> |r.value| == |values.value|
    ensures r.Success? ==> r.value == RowsToRecords(values.value)
  {
    match values
    case None => Failure("Cannot read properties of undefined (reading 'map')")
    case Some(rows) => Success(RowsToRecords(rows))
  }

  /** Field k of the record is cell k of its row: id, category, subCategory, detailCategory, question, answer, type, level, imageUrl. */
  lemma ColumnMapping(row: Row, k: nat)
    requires k < 9
    ensures Fields(RowToRecord(row))[k] == Cell(row, k)
    ensures Fields(RowToRecord(row))[k] == None <==> k >= |row|
  {
  }

  /** The i-th record is built from the i-th row, and from nothing else. */
  lemma RecordsFollowRows(values: seq<Row>, i: nat)
    requires i < |values|
    ensures RowsToRecords(values)[i] == RowToRecord(values[i])
  {
  }

  /** Mapping respects concatenation: the records of `a + b` are those of `a`, then those of `b`. */
  lemma RowsToRecordsAppend(a: seq<Row>, b: seq<Row>)
    ensures RowsToRecords(a + b) == RowsToRecords(a) + RowsToRecords(b)
  {
    var l, r := RowsToRecords(a + b), RowsToRecords(a) + RowsToRecords(b);
    forall i | 0 <= i < |l| ensures l[i] == r[i] {
      if i >= |a| {
        assert (a + b)[i] == b[i - |a|];
      }
    }
  }

  /** The cells read back from a list of fields: everything up to the first absent one. */
  function PresentPrefix(cells: seq<Option<string>>): (row: Row)
    ensures |row| <= |cells|
  {
    if cells == [] || cells[0].None? then [] else [cells[0].value] + PresentPrefix(cells[1..])
  }

  /** A list of fields that reads cell k of `row` at position k gives `row` back, when it is long enough. */
  lemma {:induction false} PresentPrefixOfCells(cells: seq<Option<string>>, row: Row)
    requires |row| <= |cells|
    requires forall k :: 0 <= k < |cells| ==> cells[k] == Cell(row, k)
    ensures PresentPrefix(cells) == row
    decreases |cells|
  {
    if row != [] {
      forall k | 0 <= k < |cells| - 1 ensures cells[1..][k] == Cell(row[1..], k) {
        assert cells[k + 1] == Cell(row, k + 1);
      }
      PresentPrefixOfCells(cells[1..], row[1..]);
    }
  }

  /** No cell is lost, moved or altered: a row of the range A..I is recovered from its record. */
  lemma RecordKeepsRow(row: Row)
    requires |row| <= 9
    ensures PresentPrefix(Fields(RowToRecord(row))) == row
  {
    PresentPrefixOfCells(Fields(RowToRecord(row)), row);
  }

  /**
   * The records the Flask back end would build from these: those whose
   * question and answer are present and not blank, each with its question,
   * answer and category stripped of outer whitespace.
   */
  function FlaskView(records: seq<SheetRecord>): (r: seq<FlaskBackend.Question>)
    ensures |r| <= |records|
  {
    if records == [] then []
    else
      var last := records[|records| - 1];
      FlaskView(records[..|records| - 1])
      + (if last.question.Some? && last.answer.Some?
            && Trim(Python, last.question.value) != "" && Trim(Python, last.answer.value) != ""
         then [FlaskBackend.Question(Trim(Python, last.question.value), Trim(Python, last.answer.value),
                                     Trim(Python, last.category.GetOr("")))]
         else [])
  }

  /**
   * The two back ends agree up to filtering and stripping: the Flask result for
   * a sheet is the Express result for its data rows, filtered and stripped.
   */
  lemma {:induction false} FlaskFiltersExpress(header: FlaskBackend.Row, data: seq<Row>)
    ensures FlaskBackend.SheetQuestions([header] + data) == FlaskView(RowsToRecords(data))
    decreases |data|
  {
    FlaskBackend.HeaderIgnored(header, header, data);
    if data != [] {
      var init, last := data[..|data| - 1], data[|data| - 1];
      FlaskFiltersExpress(header, init);
      FlaskBackend.HeaderIgnored(header, header, init);
      var recs := RowsToRecords(data);
      assert recs[..|recs| - 1] == RowsToRecords(init);
      assert recs[|recs| - 1] == RowToRecord(last);
    }
  }

  /** Unlike the Flask back end, a row with a blank question still gives a record here. */
  lemma BlankQuestionStillMapped()
    ensures var row := ["7", "地理", "", "", " ", "東京"];
            RowsToRecords([row]) == [RowToRecord(row)]
            && RowToRecord(row).question == Some(" ")
            && FlaskBackend.SheetQuestions([["id"], row]) == []
  {
    var row := ["7", "地理", "", "", " ", "東京"];
    assert Trim(Python, " ") == "" by {
      assert TrimStart(Python, " ") == TrimStart(Python, " "[1..]);
    }
    FlaskBackend.HeaderIgnored(["id"], ["id"], [row]);
    FlaskBackend.KeptRecordsOfOneRow(row);
  }
}
