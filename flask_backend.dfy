/**
 * The Flask back end (app.py): the spreadsheet rows become question records,
 * and an OCR request is checked and its base64 payload cut out of a data URL.
 *
 * The spreadsheet and the Vision service are not modelled: the sheet is the
 * list of rows `get_all_values()` returns, and the Vision service is a
 * function from the base64 payload to the text annotations it reports.
 */
module FlaskBackend {
  import opened Wrappers
  import opened Text

  /** One spreadsheet row: its cells, left to right, as strings. */
  type Row = seq<string>

  /** A question record as `/api/questions` returns it. */
  datatype Question = Question(question: string, answer: string, category: string)

  /** A data row is kept when it has at least six cells and its question (E) and answer (F) cells are not blank. */
  predicate KeepRow(row: Row)
    ensures KeepRow(row) <==> |row| >= 6 && !AllSpace(Python, row[4]) && !AllSpace(Python, row[5])
  {
    if |row| >= 6 then
      TrimEmptyIff(Python, row[4]);
      TrimEmptyIff(Python, row[5]);
      Trim(Python, row[4]) != "" && Trim(Python, row[5]) != ""
    else
      false
  }

  /** The record built from a kept row: columns E, F and B, each stripped of outer whitespace. */
  function RowRecord(row: Row): (q: Question)
    requires |row| >= 6
    ensures IsTrimOf(Python, q.question, row[4])
    ensures IsTrimOf(Python, q.answer, row[5])
    ensures IsTrimOf(Python, q.category, row[1])
  {
    TrimSpec(Python, row[4]);
    TrimSpec(Python, row[5]);
    TrimSpec(Python, row[1]);
    Question(Trim(Python, row[4]), Trim(Python, row[5]), Trim(Python, row[1]))
  }

  /** The records the loop of `get_questions_from_sheet` has appended after visiting `data`. */
  function KeptRecords(data: seq<Row>): (r: seq<Question>)
    ensures |r| <= |data|
    decreases |data|
  {
    if data == [] then []
    else
      var last := data[|data| - 1];
      KeptRecords(data[..|data| - 1]) + (if KeepRow(last) then [RowRecord(last)] else [])
  }

  /** What `get_questions_from_sheet` returns for the sheet `rows`: the first row is the header. */
  function SheetQuestions(rows: seq<Row>): (r: seq<Question>)
    ensures |rows| <= 1 ==> r == []
    ensures rows != [] ==> |r| <= |rows| - 1
  {
    if rows == [] then [] else KeptRecords(rows[1..])
  }

  /** `get_questions_from_sheet`, with the sheet's rows given instead of fetched. */
  method GetQuestionsFromSheet(rows: seq<Row>) returns (questions: seq<Question>)
    ensures questions == SheetQuestions(rows)
  {
    var data := if rows == [] then [] else rows[1..];
    questions := [];
    for i := 0 to |data|
      invariant questions == KeptRecords(data[..i])
    {
      var row := data[i];
      assert data[..i + 1][..i] == data[..i];
      if |row| >= 6 && Trim(Python, row[4]) != "" && Trim(Python, row[5]) != "" {
        questions := questions + [Question(Trim(Python, row[4]), Trim(Python, row[5]), Trim(Python, row[1]))];
      }
    }
    assert data[..|data|] == data;
  }

  /** Every record has a non-blank question and answer, and no field has outer whitespace. */
  lemma {:induction false} KeptRecordsWellFormed(data: seq<Row>)
    ensures forall q :: q in KeptRecords(data) ==>
              q.question != "" && q.answer != ""
              && Trimmed(Python, q.question) && Trimmed(Python, q.answer) && Trimmed(Python, q.category)
    decreases |data|
  {
    if data != [] {
      KeptRecordsWellFormed(data[..|data| - 1]);
    }
  }

  /** The header row never matters: only the rows after it decide the result. */
  lemma HeaderIgnored(header: Row, other: Row, data: seq<Row>)
    ensures SheetQuestions([header] + data) == SheetQuestions([other] + data)
    ensures SheetQuestions([header] + data) == KeptRecords(data)
  {
    assert ([header] + data)[1..] == data;
    assert ([other] + data)[1..] == data;
  }

  /** Rows are visited in order: the records of `a + b` are those of `a` followed by those of `b`. */
  lemma {:induction false} KeptRecordsAppend(a: seq<Row>, b: seq<Row>)
    ensures KeptRecords(a + b) == KeptRecords(a) + KeptRecords(b)
    decreases |b|
  {
    if b == [] {
      assert a + b == a;
    } else {
      var init, last := b[..|b| - 1], b[|b| - 1];
      var tail := if KeepRow(last) then [RowRecord(last)] else [];
      assert (a + b)[..|a + b| - 1] == a + init && (a + b)[|a + b| - 1] == last;
      assert KeptRecords(a + b) == KeptRecords(a + init) + tail;
      assert KeptRecords(b) == KeptRecords(init) + tail;
      KeptRecordsAppend(a, init);
    }
  }

  /** One row yields its record when it is kept and nothing otherwise. */
  lemma KeptRecordsOfOneRow(row: Row)
    ensures KeptRecords([row]) == if KeepRow(row) then [RowRecord(row)] else []
  {
    assert [row][..0] == [];
  }

  /** Every record in the output comes from a kept row of `data`. */
  lemma {:induction false} KeptRecordsSound(data: seq<Row>, q: Question)
    requires q in KeptRecords(data)
    ensures exists row :: row in data && KeepRow(row) && RowRecord(row) == q
    decreases |data|
  {
    var init, last := data[..|data| - 1], data[|data| - 1];
    assert data == init + [last];
    if q in KeptRecords(init) {
      KeptRecordsSound(init, q);
      var row :| row in init && KeepRow(row) && RowRecord(row) == q;
      assert row in data;
    } else {
      assert KeepRow(last) && RowRecord(last) == q;
    }
  }

  /** Every kept row of `data` contributes its record to the output. */
  lemma {:induction false} KeptRecordsComplete(data: seq<Row>, row: Row)
    requires row in data && KeepRow(row)
    ensures RowRecord(row) in KeptRecords(data)
    decreases |data|
  {
    var init, last := data[..|data| - 1], data[|data| - 1];
    assert data == init + [last];
    if row != last {
      assert row in init;
      KeptRecordsComplete(init, row);
    }
  }

  /** The message `vision_ocr` answers with when no image is sent. */
  const NoImageMessage := "No image provided"

  /** The two answers of `vision_ocr` that the model covers: status 400, or the recognised text. */
  datatype OcrReply = BadRequest(error: string) | Recognized(text: string)

  /** The text after the last comma of `image`, or all of it when it has no comma (`split(',')[-1]`). */
  function Base64Payload(image: string): (r: string)
    ensures ',' !in r
    ensures |r| <= |image| && image[|image| - |r|..] == r
    ensures |r| == |image| || image[|image| - |r| - 1] == ','
    decreases |image|
  {
    if image == [] then []
    else if image[|image| - 1] == ',' then []
    else
      var r := Base64Payload(image[..|image| - 1]);
      assert image[|image| - |r| - 1..] == image[..|image| - 1][|image| - 1 - |r|..] + [image[|image| - 1]];
      r + [image[|image| - 1]]
  }

  /**
   * `vision_ocr`: `image` is the request's `image` field (None when absent);
   * `detect` stands for decoding the payload and asking the Vision service,
   * and gives the text annotations it reports.
   */
  function VisionOcr(image: Option<string>, detect: string -> seq<string>): (r: OcrReply)
    ensures r.BadRequest? <==> image == None || image == Some("")
    ensures r.BadRequest? ==> r.error == NoImageMessage
    ensures r.Recognized? ==> Trimmed(Python, r.text)
    ensures r.Recognized? && detect(Base64Payload(image.value)) == [] ==> r.text == ""
    ensures r.Recognized? && detect(Base64Payload(image.value)) != [] ==>
              r.text == Trim(Python, detect(Base64Payload(image.value))[0])
  {
    if image == None || image == Some("") then
      BadRequest(NoImageMessage)
    else
      var texts := detect(Base64Payload(image.value));
      if texts != [] then Recognized(Trim(Python, texts[0])) else Recognized("")
  }

  /** The front end sends a PNG data URL; the payload handed on for decoding is exactly its base64 part. */
  lemma DataUrlPayload(b: string)
    requires ',' !in b
    ensures Base64Payload("data:image/png;base64," + b) == b
  {
    var prefix := "data:image/png;base64,";
    var s := prefix + b;
    var r := Base64Payload(s);
    assert s[|prefix| - 1] == ',';
    assert forall k :: 0 <= k < |r| ==> r[k] == s[|s| - |r| + k];
    assert forall k :: 0 <= k < |b| ==> s[|prefix| + k] == b[k];
    assert s[|s| - |b|..] == b;
  }
}
