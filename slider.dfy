/**
  `SliderQuestion`: an integer picked on a slider between two bounds.

  `slid` records whether the slider has been moved (its value-changed
  signal has fired) or the answer was confirmed or loaded; an unmoved slider
  has no answer. The question's `choices` list is always `[leftBound,
  rightBound]`.
*/
module Slider {
  import opened Wrappers
  import opened PyText
  import opened CsvRow

  /** The state of a slider question. */
  datatype State = State(
    num: int, question: string, images: seq<string>,
    leftBound: int, rightBound: int, value: int, slid: bool)

  /** The question's `choices` list. */
  function Choices(s: State): seq<int> {
    [s.leftBound, s.rightBound]
  }

  /**
    A new question: the slider placed at the left bound, not moved yet.
    `setMinimum(left)` then `setMaximum(right)` leave `QSlider` the range
    `[left, right]`, or `[right, right]` when `left > right`; placing the
    slider at `left` is clamped into that range.
  */
  function Initial(num: int, question: string, images: seq<string>, left: int, right: int): (s: State)
    ensures Answers(s) == [None] && Choices(s) == [left, right]
    ensures left <= right ==> s.value == left
    ensures right < left ==> s.value == right
  {
    State(num, question, images, left, right, if left <= right then left else right, false)
  }

  /** `getAnswers`: `[None]` until the slider was moved, then the value's decimal text. */
  function Answers(s: State): (r: seq<Cell>)
    ensures |r| == 1
    ensures r == [None] <==> !s.slid
    ensures r[0].Some? ==> ParseInt(r[0].value) == Some(s.value)
  {
    if !s.slid then [None]
    else
      ParseIntToString(s.value);
      [Some(IntToString(s.value))]
  }

  /**
    `setAnswer`: refuses a value outside the bounds; otherwise moves the
    slider there, which counts as sliding only when the value changes
    (the value-changed signal does not fire otherwise).
  */
  function Place(s: State, answer: int): (r: (bool, State))
    ensures r.0 <==> s.leftBound <= answer <= s.rightBound
    ensures r.0 ==> r.1.value == answer && r.1.slid == (s.slid || answer != s.value)
    ensures !r.0 ==> r.1 == s
    ensures r.1.(value := s.value, slid := s.slid) == s
  {
    if !(s.leftBound <= answer <= s.rightBound) then (false, s)
    else (true, s.(value := answer, slid := s.slid || answer != s.value))
  }

  /** `setLeftBound`: the first choice becomes the new bound. */
  function WithLeftBound(s: State, left: int): (r: State)
    ensures Choices(r) == [left, s.rightBound] && r.(leftBound := s.leftBound) == s
  {
    s.(leftBound := left)
  }

  /** `setRightBound`: the second choice becomes the new bound. */
  function WithRightBound(s: State, right: int): (r: State)
    ensures Choices(r) == [s.leftBound, right] && r.(rightBound := s.rightBound) == s
  {
    s.(rightBound := right)
  }

  /** `setChoices`: a two-element list sets both bounds; any other list is ignored. */
  function WithChoices(s: State, cs: seq<int>): (r: State)
    ensures |cs| == 2 ==> Choices(r) == cs && r.(leftBound := s.leftBound, rightBound := s.rightBound) == s
    ensures |cs| != 2 ==> r == s
  {
    if |cs| == 2 then WithRightBound(WithLeftBound(s, cs[0]), cs[1]) else s
  }

  /**
    `fromCSV`: the shared row checks; the sentinel marks the slider as not
    moved; any other answer goes through `int()` (which may raise) and must
    pass `setAnswer`, after which the slider counts as moved.
  */
  function LoadRow(s: State, data: seq<string>): (r: (LoadResult, State))
    ensures r.0 != Loaded ==> r.1 == s
    ensures r.0 == NotANumber <==>
      DecodeRow(data, s.question).Ok? && DecodeRow(data, s.question).value != "" &&
      ParseInt(DecodeRow(data, s.question).value).None?
    ensures r.0 == Loaded ==> r.1.(value := s.value, slid := s.slid) == s
    ensures r.0 == Loaded ==>
      DecodeRow(data, s.question).Ok? && (r.1.slid <==> DecodeRow(data, s.question).value != "")
    ensures DecodeRow(data, s.question) == Ok("") ==> r == (Loaded, s.(slid := false))
    ensures var d := DecodeRow(data, s.question);
      d.Ok? && ParseInt(d.value).Some? ==>
        (r.0 == Loaded <==> s.leftBound <= ParseInt(d.value).value <= s.rightBound)
    ensures var d := DecodeRow(data, s.question);
      r.0 == Loaded && d.value != "" ==> r.1 == s.(value := ParseInt(d.value).value, slid := true)
  {
    match DecodeRow(data, s.question)
    case Err(e) => (Rejected(e), s)
    case Ok(answer) =>
      if answer == "" then (Loaded, s.(slid := false))
      else match ParseInt(answer)
        case None => (NotANumber, s)
        case Some(v) =>
          var (ok, s') := Place(s, v);
          if ok then (Loaded, s'.(slid := true)) else (Rejected(AnswerUnmatched), s)
  }

  /** The states whose saved row reads back unchanged. */
  predicate RoundTrips(s: State) {
    && RestorableText(s.question)
    && (s.slid ==> s.leftBound <= s.value <= s.rightBound)
  }

  /** Loading the row `toCSV` writes accepts it and leaves the question as it was. */
  lemma RoundTrip(s: State)
    requires RoundTrips(s)
    ensures LoadRow(s, EncodeFields(s.question, Answers(s))) == (Loaded, s)
  {
    DecodeEncodedRow(s.question, Answers(s)[0]);
  }

  /** A moved slider whose value lies outside the bounds is saved but cannot be loaded back. */
  lemma OutOfBoundsRejected(s: State)
    requires RestorableText(s.question) && s.slid
    requires !(s.leftBound <= s.value <= s.rightBound)
    ensures LoadRow(s, EncodeFields(s.question, Answers(s))) == (Rejected(AnswerUnmatched), s)
  {
    DecodeEncodedRow(s.question, Answers(s)[0]);
  }

  class SliderQuestion {
    var num: int
    var question: string
    var images: seq<string>
    var leftBound: int
    var rightBound: int
    var value: int         // the slider position
    var slid: bool         // moved, confirmed or loaded

    function Value(): State
      reads this
    {
      State(num, question, images, leftBound, rightBound, value, slid)
    }

    constructor (num: int, question: string, images: seq<string>, left: int, right: int)
      ensures Value() == Initial(num, question, images, left, right)
    {
      this.num, this.question, this.images := num, question, images;
      leftBound, rightBound, slid := left, right, false;
      value := if left <= right then left else right;    // clamped by QSlider
    }

    method GetAnswers() returns (answers: seq<Cell>)
      ensures answers == Answers(Value())
    {
      if !slid {
        return [None];
      }
      answers := [Some(IntToString(value))];
    }

    method SetAnswer(answer: int) returns (ok: bool)
      modifies this
      ensures (ok, Value()) == Place(old(Value()), answer)
    {
      if !(leftBound <= answer <= rightBound) {
        return false;
      }
      if answer != value {
        value := answer;
        slid := true;      // the value-changed signal
      }
      return true;
    }

    method SetLeftBound(left: int)
      modifies this
      ensures Value() == WithLeftBound(old(Value()), left)
    {
      leftBound := left;
    }

    method SetRightBound(right: int)
      modifies this
      ensures Value() == WithRightBound(old(Value()), right)
    {
      rightBound := right;
    }

    method SetChoices(cs: seq<int>)
      modifies this
      ensures Value() == WithChoices(old(Value()), cs)
    {
      if |cs| == 2 {
        SetLeftBound(cs[0]);
        SetRightBound(cs[1]);
      }
    }

    method FromCSV(data: seq<string>) returns (r: LoadResult)
      modifies this
      ensures (r, Value()) == LoadRow(old(Value()), data)
    {
      if |data| != 2 {
        return Rejected(FieldCount);
      }
      var q := CheckQuestionField(data[0], question);
      if q != Matched {
        return Rejected(QuestionMismatch(q));
      }
      var answer := CheckAnswerField(data[1]);
      if answer.None? {
        return Rejected(AnswerFormat);
      } else if answer.value == "" {
        slid := false;
        return Loaded;
      }
      var number := ParseInt(answer.value);
      if number.None? {
        return NotANumber;
      }
      var ok := SetAnswer(number.value);
      if !ok {
        return Rejected(AnswerUnmatched);
      }
      slid := true;
      return Loaded;
    }
  }
}
