/**
  The answer-file row format shared by every question type: `toCSV`, the two
  field decoders, and the checks every `fromCSV` starts with.

  A row is a list of fields, each written between double quotes, separated by
  commas and ended by one newline. The question field and every answer field
  carry a leading `'`; an absent answer is written as the bare text
  `Question Unanswered`. Quotes inside a field are written as they are
  (not doubled), so the decoders work on the field list after splitting.
*/
module CsvRow {
  import opened Wrappers
  import opened PyText

  /** One entry of `getAnswers()`: a string, or Python's `None`. */
  type Cell = Option<string>

  const UNANSWERED: string := "Question Unanswered"
  const MARKER: char := '\''

  /** The question field: marker, then the stripped question text. */
  function QuestionField(question: string): string {
    [MARKER] + Strip(question)
  }

  /** An answer field: the bare sentinel for `None` or `''`, else marker plus stripped text. */
  function AnswerField(answer: Cell): string {
    if answer == None || answer == Some("") then UNANSWERED
    else [MARKER] + Strip(answer.value)
  }

  /** The fields `toCSV` writes for a question text and its answers, in order. */
  function EncodeFields(question: string, answers: seq<Cell>): seq<string> {
    [QuestionField(question)] + seq(|answers|, i requires 0 <= i < |answers| => AnswerField(answers[i]))
  }

  /** The parts of an encoded row: the question field, then one field per answer. */
  lemma EncodeFieldsParts(question: string, answers: seq<Cell>)
    ensures var fields := EncodeFields(question, answers);
      && |fields| == |answers| + 1
      && fields[0] == QuestionField(question)
      && forall i :: 0 <= i < |answers| ==> fields[i + 1] == AnswerField(answers[i])
  {
  }

  function Quote(field: string): string {
    "\"" + field + "\""
  }

  /** Quoted fields separated by commas, with no trailing comma. */
  function Joined(fields: seq<string>): string {
    if |fields| == 0 then ""
    else if |fields| == 1 then Quote(fields[0])
    else Joined(fields[..|fields| - 1]) + "," + Quote(fields[|fields| - 1])
  }

  /** The text of one row: the joined fields and exactly one newline. */
  function RowText(question: string, answers: seq<Cell>): string {
    Joined(EncodeFields(question, answers)) + "\n"
  }

  /**
    `QuestionWidget.toCSV`: writes `"<field>",` for the question and for each
    answer, then replaces the final comma by a newline.
  */
  method ToCSV(question: string, answers: seq<Cell>) returns (row: string)
    ensures row == RowText(question, answers)
  {
    var fields := EncodeFields(question, answers);
    var csv := "\"" + [MARKER] + Strip(question) + "\",";
    assert fields[..1] == [fields[0]];
    for i := 0 to |answers|
      invariant csv == Joined(fields[..i + 1]) + ","
    {
      var answer := answers[i];
      var field := if answer == None || answer == Some("") then UNANSWERED else [MARKER] + Strip(answer.value);
      JoinedGrow(fields, i + 1);
      csv := csv + "\"" + field + "\",";
    }
    assert fields[..|answers| + 1] == fields;
    row := csv[..|csv| - 1] + "\n";
  }

  /** One more field: the joined text so far, the separator, and the quoted field. */
  lemma JoinedGrow(fields: seq<string>, k: nat)
    requires 1 <= k < |fields|
    ensures Joined(fields[..k + 1]) + "," == Joined(fields[..k]) + "," + "\"" + fields[k] + "\","
  {
    assert fields[..k + 1][..k] == fields[..k];
  }

  /**
    A row starts with a quote, ends with a closing quote and one newline, and
    has one field per answer after the question field.
  */
  lemma RowTextShape(question: string, answers: seq<Cell>)
    ensures var row := RowText(question, answers);
      |row| >= 3 && row[0] == '"' && row[|row| - 2] == '"' && row[|row| - 1] == '\n'
    ensures |EncodeFields(question, answers)| == |answers| + 1
  {
    var fields := EncodeFields(question, answers);
    JoinedShape(fields);
  }

  lemma {:induction false} JoinedShape(fields: seq<string>)
    requires |fields| >= 1
    ensures var j := Joined(fields); |j| >= 2 && j[0] == '"' && j[|j| - 1] == '"'
  {
    if |fields| > 1 {
      JoinedShape(fields[..|fields| - 1]);
    }
  }

  /** How `_checkQuestionCSVFormat` classifies the question field of a row. */
  datatype QuestionCheck = Matched | WrongFormat | Unmatched

  /**
    `_checkQuestionCSVFormat`: accepts the field only when it is the marker
    followed by exactly the current question text (which must be non-empty).
  */
  function CheckQuestionField(field: string, question: string): (r: QuestionCheck)
    ensures r == Matched <==> question != "" && field == [MARKER] + question
    ensures r == WrongFormat <==> |field| < 2 || field[0] != MARKER
  {
    if |field| < 2 then WrongFormat
    else if field[0] != MARKER then WrongFormat
    else if field[1..] != question then
      assert field != [MARKER] + question;
      Unmatched
    else Matched
  }

  /**
    `_checkAnswerCSVFormat`: the sentinel decodes to `""`, a marked field to
    its text after the marker; a field shorter than two characters or
    without the marker is rejected (`None`).
  */
  function CheckAnswerField(field: string): (r: Option<string>)
    ensures r == Some("") <==> field == UNANSWERED
    ensures r.Some? && r.value != "" ==> field == [MARKER] + r.value
    ensures r.None? <==> |field| < 2 || (field != UNANSWERED && field[0] != MARKER)
  {
    if |field| < 2 then None
    else if field == UNANSWERED then Some("")
    else if field[0] != MARKER then None
    else Some(field[1..])
  }

  /** Why a row was not loaded (the messages `fromCSV` prints). */
  datatype Mismatch =
    | FieldCount          // wrong number of fields
    | QuestionFormat      // "Wrong question CSV format"
    | QuestionUnmatched   // "Question unmatched"
    | AnswerFormat        // "Wrong answer CSV format"
    | AnswerUnmatched     // "Answer unmatched"
    | TooManyAnswers      // multiple choice: more answers than choices

  /**
    The outcome of `fromCSV`: `True`, `False` with its reason, or the
    ValueError `int()` raises on a non-numeric slider or rating answer.
  */
  datatype LoadResult = Loaded | Rejected(why: Mismatch) | NotANumber

  function QuestionMismatch(c: QuestionCheck): Mismatch
    requires c != Matched
  {
    if c == WrongFormat then QuestionFormat else QuestionUnmatched
  }

  /**
    The checks every one-answer `fromCSV` makes before using the answer:
    exactly two fields, a matching question field, a well-formed answer field.
  */
  function DecodeRow(data: seq<string>, question: string): (r: Result<string, Mismatch>)
    ensures r.Ok? <==>
      |data| == 2 && CheckQuestionField(data[0], question) == Matched && CheckAnswerField(data[1]).Some?
    ensures r.Ok? ==> r.value == CheckAnswerField(data[1]).value
    ensures r == Err(FieldCount) <==> |data| != 2
  {
    if |data| != 2 then Err(FieldCount)
    else
      var q := CheckQuestionField(data[0], question);
      if q != Matched then Err(QuestionMismatch(q))
      else match CheckAnswerField(data[1])
        case None => Err(AnswerFormat)
        case Some(a) => Ok(a)
  }

  /** A question text `toCSV` writes in a form `fromCSV` accepts back. */
  predicate RestorableText(question: string) {
    question != "" && Unpadded(question)
  }

  /** What an answer cell reads back as: `None` becomes `""`. */
  function Decoded(answer: Cell): string {
    if answer.None? then "" else answer.value
  }

  /** The question field of a row matches the question it was written from. */
  lemma QuestionFieldRoundTrip(question: string)
    requires RestorableText(question)
    ensures CheckQuestionField(QuestionField(question), question) == Matched
  {
  }

  /**
    A question whose text has surrounding whitespace never matches its own
    saved row: the row holds the stripped text, the check compares the raw one.
  */
  lemma PaddedQuestionNeverMatches(question: string)
    requires Strip(question) != question
    ensures CheckQuestionField(QuestionField(question), question) != Matched
  {
  }

  /**
    An answer without surrounding whitespace reads back as itself; `None` and
    `""` read back as `""`.
  */
  lemma AnswerFieldRoundTrip(answer: Cell)
    requires answer.Some? ==> Unpadded(answer.value)
    ensures CheckAnswerField(AnswerField(answer)) == Some(Decoded(answer))
  {
    if answer.Some? && answer.value != "" {
      AnswerFieldReadBack(answer.value);
      assert Strip(answer.value) == answer.value;
    }
  }

  /**
    Any answer reads back as its stripped text, except a non-empty blank
    answer, whose field is the lone marker and is rejected.
  */
  lemma AnswerFieldReadBack(answer: string)
    ensures answer != "" && Strip(answer) == "" ==> CheckAnswerField(AnswerField(Some(answer))) == None
    ensures Strip(answer) != "" ==> CheckAnswerField(AnswerField(Some(answer))) == Some(Strip(answer))
  {
    var f := AnswerField(Some(answer));
    if answer != "" {
      assert f == [MARKER] + Strip(answer);
      assert f[0] == MARKER && f != UNANSWERED;
    }
  }

  /** A one-answer row written by `toCSV` passes the checks of `fromCSV`. */
  lemma DecodeEncodedRow(question: string, answer: Cell)
    requires RestorableText(question)
    requires answer.Some? ==> Unpadded(answer.value)
    ensures DecodeRow(EncodeFields(question, [answer]), question) == Ok(Decoded(answer))
  {
    var fields := EncodeFields(question, [answer]);
    assert fields == [QuestionField(question), AnswerField(answer)];
    QuestionFieldRoundTrip(question);
    AnswerFieldRoundTrip(answer);
  }
}
