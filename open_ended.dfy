/**
  `OpenEndedQuestion`: a free-text answer box.

  The box's plain text is the whole state that answers depend on; the
  question has no choices.
*/
module OpenEnded {
  import opened Wrappers
  import opened PyText
  import opened CsvRow

  /** The state of an open question; `text` is the answer box's plain text. */
  datatype State = State(num: int, question: string, images: seq<string>, text: string)

  /** A new question: an empty answer box. */
  function Initial(num: int, question: string, images: seq<string>): (s: State)
    ensures Answers(s) == [Some("")] && s.question == question
  {
    State(num, question, images, "")
  }

  /** `getAnswers`: always one answer, the box's text (possibly empty, never `None`). */
  function Answers(s: State): (r: seq<Cell>)
    ensures |r| == 1 && r[0].Some?
  {
    [Some(s.text)]
  }

  /**
    `fromCSV`: the shared row checks; an accepted answer replaces the box's
    text, the sentinel clearing it.
  */
  function LoadRow(s: State, data: seq<string>): (r: (LoadResult, State))
    ensures r.0 != NotANumber
    ensures r.0 == Loaded <==> DecodeRow(data, s.question).Ok?
    ensures r.0 == Loaded ==> r.1 == s.(text := DecodeRow(data, s.question).value)
    ensures r.0 != Loaded ==> r.1 == s
  {
    match DecodeRow(data, s.question)
    case Err(e) => (Rejected(e), s)
    case Ok(answer) => (Loaded, s.(text := answer))
  }

  /** The saved form of an answer text: what loading its row puts back in the box. */
  function Saved(text: string): Result<string, Mismatch> {
    if text != "" && Strip(text) == "" then Err(AnswerFormat) else Ok(Strip(text))
  }

  /**
    Loading the row `toCSV` writes restores the stripped text, except that a
    non-empty blank answer is written as a lone marker and rejected.
  */
  lemma RoundTrip(s: State)
    requires RestorableText(s.question)
    ensures var r := LoadRow(s, EncodeFields(s.question, Answers(s)));
      match Saved(s.text)
      case Ok(t) => r == (Loaded, s.(text := t))
      case Err(e) => r == (Rejected(e), s)
  {
    var fields := EncodeFields(s.question, Answers(s));
    assert fields == [QuestionField(s.question), AnswerField(Some(s.text))];
    QuestionFieldRoundTrip(s.question);
    AnswerFieldReadBack(s.text);
    if s.text == "" {
      assert CheckAnswerField(fields[1]) == Some("");
    }
  }

  /** A text without surrounding whitespace survives a save and a load unchanged. */
  lemma UnpaddedRoundTrip(s: State)
    requires RestorableText(s.question) && Unpadded(s.text)
    ensures LoadRow(s, EncodeFields(s.question, Answers(s))) == (Loaded, s)
  {
    RoundTrip(s);
    if s.text != "" {
      assert s.text[0] in s.text;
    }
  }

  /** What one save and load leaves is itself saved and loaded unchanged. */
  lemma RoundTripSettles(s: State)
    requires RestorableText(s.question)
    requires LoadRow(s, EncodeFields(s.question, Answers(s))).0 == Loaded
    ensures var s' := LoadRow(s, EncodeFields(s.question, Answers(s))).1;
      LoadRow(s', EncodeFields(s'.question, Answers(s'))) == (Loaded, s')
  {
    RoundTrip(s);
    var s' := LoadRow(s, EncodeFields(s.question, Answers(s))).1;
    UnpaddedRoundTrip(s');
  }

  /** A blank answer of at least one character cannot be loaded back. */
  lemma BlankAnswerRejected(s: State)
    requires RestorableText(s.question)
    requires s.text != "" && forall i :: 0 <= i < |s.text| ==> IsSpace(s.text[i])
    ensures LoadRow(s, EncodeFields(s.question, Answers(s))) == (Rejected(AnswerFormat), s)
  {
    StripBlank(s.text);
    RoundTrip(s);
  }

  class OpenEndedQuestion {
    var num: int
    var question: string
    var images: seq<string>
    var text: string      // the answer box's plain text

    function Value(): State
      reads this
    {
      State(num, question, images, text)
    }

    constructor (num: int, question: string, images: seq<string>)
      ensures Value() == Initial(num, question, images)
    {
      this.num, this.question, this.images := num, question, images;
      text := "";
    }

    method GetAnswers() returns (answers: seq<Cell>)
      ensures answers == Answers(Value())
    {
      answers := [Some(text)];
    }

    /** `setAnswer`: the box shows the given text; always succeeds. */
    method SetAnswer(answer: string) returns (ok: bool)
      modifies this
      ensures ok && Value() == old(Value()).(text := answer)
    {
      text := answer;
      ok := true;
    }

    method FromCSV(data: seq<string>) returns (r: LoadResult)
      modifies this
      ensures (r, Value()) == LoadRow(old(Value()), data)
    {
      if |data| != 2 {
        return Rejected(FieldCount);
      }
      var q := CheckQuestionField(data[0], question);
      if q != Matched {
        return Rejected(QuestionMismatch(q));
      }
      var answer := CheckAnswerField(data[1]);
      if answer.None? {
        return Rejected(AnswerFormat);
      }
      var _ := SetAnswer(answer.value);
      return Loaded;
    }
  }
}
