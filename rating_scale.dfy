/**
  `RatingScaleQuestion`: one of a row of exclusive push buttons labelled
  `str(i)` for `i in range(leftBound, rightBound + 1, step)`.

  Changing a bound or the step rebuilds the row of buttons, which drops any
  checked button. The question's `choices` list is always `[leftBound,
  rightBound, step]`.
*/
module RatingScale {
  import opened Wrappers
  import opened PyText
  import opened PyList
  import opened CsvRow

  /** The button texts for a list of values. */
  function Labels(values: seq<int>): (r: seq<string>)
    ensures |r| == |values| && forall i :: 0 <= i < |values| ==> r[i] == IntToString(values[i])
  {
    seq(|values|, i requires 0 <= i < |values| => IntToString(values[i]))
  }

  /** The values of the buttons: `range(left, right + 1, step)`. */
  function Scale(left: int, right: int, step: int): seq<int>
    requires step != 0
  {
    PyRange(left, right + 1, step)
  }

  /** The state of a rating question; `checked` is the checked button, if any. */
  datatype State = State(
    num: int, question: string, images: seq<string>,
    leftBound: int, rightBound: int, step: int,
    buttons: seq<string>, checked: Option<nat>)
  {
    predicate Valid() {
      && step != 0
      && buttons == Labels(Scale(leftBound, rightBound, step))
      && (checked.Some? ==> checked.value < |buttons|)
    }
  }

  /** The question's `choices` list. */
  function Choices(s: State): seq<int> {
    [s.leftBound, s.rightBound, s.step]
  }

  /** A new question: one button per scale value, none checked. */
  function Initial(num: int, question: string, images: seq<string>, left: int, right: int, step: int): (s: State)
    requires step != 0
    ensures s.Valid() && Answers(s) == [None] && Choices(s) == [left, right, step]
  {
    State(num, question, images, left, right, step, Labels(Scale(left, right, step)), None)
  }

  /** `getAnswers`: the checked button's text, or `[None]`. */
  function Answers(s: State): (r: seq<Cell>)
    requires s.Valid()
    ensures |r| == 1
    ensures r == [None] <==> s.checked.None?
  {
    if s.checked.Some? then [Some(s.buttons[s.checked.value])] else [None]
  }

  /** What `int()` makes of each button text. */
  function Readings(buttons: seq<string>): (r: seq<Option<int>>)
    ensures |r| == |buttons|
  {
    seq(|buttons|, j requires 0 <= j < |buttons| => ParseInt(buttons[j]))
  }

  /** The first button whose text `int()` reads as `answer`. */
  function FirstRating(buttons: seq<string>, answer: int): Option<nat> {
    FirstIndex(Readings(buttons), Some(answer))
  }

  /** `int()` reads every label back as its value. */
  lemma ReadingsOfLabels(values: seq<int>)
    ensures forall j :: 0 <= j < |values| ==> Readings(Labels(values))[j] == Some(values[j])
  {
    forall j | 0 <= j < |values| ensures Readings(Labels(values))[j] == Some(values[j]) {
      ParseIntToString(values[j]);
    }
  }

  /** Over labelled values, looking a rating up by button text is looking it up by value. */
  lemma FirstRatingOfLabels(values: seq<int>, answer: int)
    ensures FirstRating(Labels(values), answer) == FirstIndex(values, answer)
  {
    var readings := Readings(Labels(values));
    ReadingsOfLabels(values);
    match FirstIndex(values, answer)
    case Some(i) =>
      FirstIndexIs(readings, Some(answer), i);
    case None =>
      assert Some(answer) !in readings;
  }

  /**
    `setAnswer`: refuses a value outside the bounds, and a value that no
    button shows; otherwise checks the first button showing it.
  */
  function Rate(s: State, answer: int): (r: (bool, State))
    requires s.Valid()
    ensures r.1.Valid()
    ensures !r.0 ==> r.1 == s
    ensures r.1.(checked := s.checked) == s
    ensures r.0 ==> Answers(r.1) == [Some(IntToString(answer))]
  {
    if !(s.leftBound <= answer <= s.rightBound) then (false, s)
    else match FirstRating(s.buttons, answer)
      case None => (false, s)
      case Some(k) =>
        FirstRatingOfLabels(Scale(s.leftBound, s.rightBound, s.step), answer);
        (true, s.(checked := Some(k)))
  }

  /**
    With a positive step, a rating is accepted exactly when it lies within
    the bounds on the lattice `leftBound + k * step`.
  */
  lemma RateAccepts(s: State, answer: int)
    requires s.Valid() && s.step > 0
    ensures Rate(s, answer).0 <==>
      s.leftBound <= answer <= s.rightBound && (answer - s.leftBound) % s.step == 0
  {
    var values := Scale(s.leftBound, s.rightBound, s.step);
    FirstRatingOfLabels(values, answer);
    PyRangeLattice(s.leftBound, s.rightBound + 1, s.step, answer);
    assert FirstRating(s.buttons, answer).Some? <==> answer in values;
  }

  /**
    With a negative step the buttons count down from `leftBound` to above
    `rightBound + 1`, so no button lies within `leftBound <= v <= rightBound`
    and `setAnswer` accepts nothing.
  */
  lemma DescendingScaleRejectsEveryAnswer(s: State, answer: int)
    requires s.Valid() && s.step < 0
    ensures !Rate(s, answer).0
  {
    var values := Scale(s.leftBound, s.rightBound, s.step);
    FirstRatingOfLabels(values, answer);
    PyRangeDown(s.leftBound, s.rightBound + 1, s.step);
    if s.leftBound <= answer <= s.rightBound {
      assert answer !in values;
    }
  }

  /** Rebuilding the buttons for new bounds or step: the check is dropped. */
  function Rebuilt(s: State, left: int, right: int, step: int): (r: State)
    requires step != 0
    ensures r.Valid() && Answers(r) == [None] && Choices(r) == [left, right, step]
    ensures r.num == s.num && r.question == s.question && r.images == s.images
  {
    s.(leftBound := left, rightBound := right, step := step,
       buttons := Labels(Scale(left, right, step)), checked := None)
  }

  /** `setChoices`: a three-element list sets the left bound, the right bound and the step in turn. */
  function WithChoices(s: State, cs: seq<int>): (r: State)
    requires s.Valid() && (|cs| == 3 ==> cs[2] != 0)
    ensures r.Valid()
    ensures |cs| == 3 ==> r == Rebuilt(s, cs[0], cs[1], cs[2])
    ensures |cs| != 3 ==> r == s
  {
    if |cs| == 3 then
      Rebuilt(Rebuilt(Rebuilt(s, cs[0], s.rightBound, s.step), cs[0], cs[1], s.step), cs[0], cs[1], cs[2])
    else s
  }

  /**
    `fromCSV`: the shared row checks; the sentinel loads nothing and keeps
    any checked button; any other answer goes through `int()` (which may
    raise) and must pass `setAnswer`.
  */
  function LoadRow(s: State, data: seq<string>): (r: (LoadResult, State))
    requires s.Valid()
    ensures r.1.Valid()
    ensures r.0 != Loaded ==> r.1 == s
    ensures r.0 == NotANumber <==>
      DecodeRow(data, s.question).Ok? && DecodeRow(data, s.question).value != "" &&
      ParseInt(DecodeRow(data, s.question).value).None?
    ensures r.0 == Loaded ==> DecodeRow(data, s.question).Ok?
    ensures DecodeRow(data, s.question) == Ok("") ==> r == (Loaded, s)
    ensures var d := DecodeRow(data, s.question);
      d.Ok? && ParseInt(d.value).Some? ==>
        && (r.0 == Loaded <==> Rate(s, ParseInt(d.value).value).0)
        && (r.0 == Loaded ==> r.1 == Rate(s, ParseInt(d.value).value).1)
        && (r.0 == Loaded ==> Answers(r.1) == [Some(IntToString(ParseInt(d.value).value))])
  {
    match DecodeRow(data, s.question)
    case Err(e) => (Rejected(e), s)
    case Ok(answer) =>
      if answer == "" then (Loaded, s)
      else match ParseInt(answer)
        case None => (NotANumber, s)
        case Some(v) =>
          var (ok, s') := Rate(s, v);
          if ok then (Loaded, s') else (Rejected(AnswerUnmatched), s)
  }

  /** The states whose saved row reads back unchanged. */
  predicate RoundTrips(s: State) {
    s.Valid() && s.step > 0 && RestorableText(s.question)
  }

  /** Loading the row `toCSV` writes accepts it and leaves the question as it was. */
  lemma RoundTrip(s: State)
    requires RoundTrips(s)
    ensures LoadRow(s, EncodeFields(s.question, Answers(s))) == (Loaded, s)
  {
    DecodeEncodedRow(s.question, Answers(s)[0]);
    if s.checked.Some? {
      var v := Scale(s.leftBound, s.rightBound, s.step)[s.checked.value];
      ParseIntToString(v);
      CheckedRatingReadsBack(s);
    }
  }

  /** The value of the checked button is accepted again and checks that same button. */
  lemma CheckedRatingReadsBack(s: State)
    requires RoundTrips(s) && s.checked.Some?
    ensures var values := Scale(s.leftBound, s.rightBound, s.step);
      s.buttons[s.checked.value] == IntToString(values[s.checked.value]) &&
      Rate(s, values[s.checked.value]) == (true, s)
  {
    var values := Scale(s.leftBound, s.rightBound, s.step);
    var k := s.checked.value;
    PyRangeUp(s.leftBound, s.rightBound + 1, s.step);
    assert Distinct(values);
    FirstIndexDistinct(values, k);
    FirstRatingOfLabels(values, values[k]);
  }

  /** An unanswered row loaded over a checked button leaves that button checked. */
  lemma SentinelKeepsRating(s: State)
    requires s.Valid() && RestorableText(s.question)
    ensures LoadRow(s, EncodeFields(s.question, [None])) == (Loaded, s)
  {
    DecodeEncodedRow(s.question, None);
  }

  /** The loop of `_formatSelfLayout`: one button label per value of the range. */
  method RangeLabels(start: int, stop: int, step: int) returns (labels: seq<string>)
    requires step != 0
    ensures labels == Labels(PyRange(start, stop, step))
  {
    labels := [];
    var i := start;
    while (step > 0 && i < stop) || (step < 0 && i > stop)
      invariant labels + Labels(PyRange(i, stop, step)) == Labels(PyRange(start, stop, step))
      decreases if step > 0 then stop - i else i - stop
    {
      assert Labels(PyRange(i, stop, step)) == [IntToString(i)] + Labels(PyRange(i + step, stop, step));
      labels := labels + [IntToString(i)];
      i := i + step;
    }
  }

  /** The loop of `setAnswer` over the buttons: the first whose text reads as `answer`. */
  method FindRating(buttons: seq<string>, answer: int) returns (r: Option<nat>)
    ensures r == FirstRating(buttons, answer)
  {
    ghost var readings := Readings(buttons);
    for i := 0 to |buttons|
      invariant forall j :: 0 <= j < i ==> readings[j] != Some(answer)
    {
      if ParseInt(buttons[i]) == Some(answer) {
        FirstIndexIs(readings, Some(answer), i);
        return Some(i);
      }
    }
    assert Some(answer) !in readings;
    return None;
  }

  class RatingScaleQuestion {
    var num: int
    var question: string
    var images: seq<string>
    var leftBound: int
    var rightBound: int
    var step: int
    var buttons: seq<string>     // texts of the push buttons, in order
    var checked: Option<nat>     // the checked button, if any

    function Value(): State
      reads this
    {
      State(num, question, images, leftBound, rightBound, step, buttons, checked)
    }

    ghost predicate Valid()
      reads this
    {
      Value().Valid()
    }

    constructor (num: int, question: string, images: seq<string>, left: int, right: int, step: int)
      requires step != 0
      ensures Valid() && Value() == Initial(num, question, images, left, right, step)
    {
      this.num, this.question, this.images := num, question, images;
      leftBound, rightBound, this.step := left, right, step;
      var labels := RangeLabels(left, right + 1, step);
      buttons, checked := labels, None;
    }

    /** `_formatSelfLayout(False)`: a fresh row of unchecked buttons for the current range. */
    method Rebuild()
      requires step != 0
      modifies this
      ensures Valid()
      ensures Value() == old(Value()).(buttons := Labels(Scale(leftBound, rightBound, step)), checked := None)
    {
      buttons := RangeLabels(leftBound, rightBound + 1, step);
      checked := None;
    }

    method GetAnswers() returns (answers: seq<Cell>)
      requires Valid()
      ensures answers == Answers(Value())
    {
      answers := if checked.Some? then [Some(buttons[checked.value])] else [None];
    }

    method SetAnswer(answer: int) returns (ok: bool)
      requires Valid()
      modifies this
      ensures Valid() && (ok, Value()) == Rate(old(Value()), answer)
    {
      if !(leftBound <= answer <= rightBound) {
        return false;
      }
      var found := FindRating(buttons, answer);
      if found.None? {
        return false;
      }
      checked := found;
      return true;
    }

    method SetLeftBound(left: int)
      requires Valid()
      modifies this
      ensures Valid() && Value() == Rebuilt(old(Value()), left, old(rightBound), old(step))
    {
      leftBound := left;
      Rebuild();
    }

    method SetRightBound(right: int)
      requires Valid()
      modifies this
      ensures Valid() && Value() == Rebuilt(old(Value()), old(leftBound), right, old(step))
    {
      rightBound := right;
      Rebuild();
    }

    method SetStep(newStep: int)
      requires Valid() && newStep != 0
      modifies this
      ensures Valid() && Value() == Rebuilt(old(Value()), old(leftBound), old(rightBound), newStep)
    {
      step := newStep;
      Rebuild();
    }

    method SetChoices(cs: seq<int>)
      requires Valid() && (|cs| == 3 ==> cs[2] != 0)
      modifies this
      ensures Valid() && Value() == WithChoices(old(Value()), cs)
    {
      if |cs| == 3 {
        SetLeftBound(cs[0]);
        SetRightBound(cs[1]);
        SetStep(cs[2]);
      }
    }

    method FromCSV(data: seq<string>) returns (r: LoadResult)
      requires Valid()
      modifies this
      ensures Valid() && (r, Value()) == LoadRow(old(Value()), data)
    {
      if |data| != 2 {
        return Rejected(FieldCount);
      }
      var q := CheckQuestionField(data[0], question);
      if q != Matched {
        return Rejected(QuestionMismatch(q));
      }
      var answer := CheckAnswerField(data[1]);
      if answer.None? {
        return Rejected(AnswerFormat);
      } else if answer.value == "" {
        return Loaded;
      }
      var number := ParseInt(answer.value);
      if number.None? {
        return NotANumber;
      }
      var ok := SetAnswer(number.value);
      return if ok then Loaded else Rejected(AnswerUnmatched);
    }
  }
}
