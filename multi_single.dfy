/**
  `MultiSingleQuestion`: one answer chosen among radio buttons.

  `choices` is the list the question was built from and never changes;
  `labels` are the button texts, which `setChoices` may rewrite. `setAnswer`
  checks the answer against `choices` but selects by button text, and
  `getAnswers` reports the button text.
*/
module MultiSingle {
  import opened Wrappers
  import opened PyText
  import opened PyList
  import opened CsvRow

  /** The state of a single-choice question; `checked` is the checked radio button. */
  datatype State = State(
    num: int, question: string, images: seq<string>,
    choices: seq<string>, labels: seq<string>, checked: Option<nat>)
  {
    predicate Valid() {
      |labels| == |choices| && (checked.Some? ==> checked.value < |labels|)
    }
  }

  /** A new question: one button per choice, none checked. */
  function Initial(num: int, question: string, images: seq<string>, choices: seq<string>): (s: State)
    ensures s.Valid() && Answers(s) == [None]
  {
    State(num, question, images, choices, choices, None)
  }

  /** `getAnswers`: the checked button's text, or `[None]`. */
  function Answers(s: State): (r: seq<Cell>)
    requires s.Valid()
    ensures |r| == 1
    ensures r == [None] <==> s.checked.None?
  {
    if s.checked.Some? then [Some(s.labels[s.checked.value])] else [None]
  }

  /**
    `setAnswer`: rejects an answer that is not one of `choices`; otherwise
    checks the (last) button showing that text, or changes nothing when the
    answer is already the checked text or no button shows it.
  */
  function Select(s: State, answer: string): (r: (bool, State))
    requires s.Valid()
    ensures r.1.Valid()
    ensures r.0 <==> answer in s.choices
    ensures r.1.(checked := s.checked) == s
    ensures answer !in s.choices || answer !in s.labels ==> r.1 == s
    ensures r.0 && answer in s.labels ==> Answers(r.1) == [Some(answer)]
    ensures r.0 && Answers(s) == [Some(answer)] ==> r.1 == s
    ensures r.0 && answer in s.labels && Answers(s) != [Some(answer)] ==> r.1.checked == LastIndex(s.labels, answer)
  {
    if answer !in s.choices then (false, s)
    else if Some(answer) == Answers(s)[0] then (true, s)
    else match LastIndex(s.labels, answer)
      case None => (true, s)
      case Some(i) => (true, s.(checked := Some(i)))
  }

  /** Selecting the same answer twice has the effect of selecting it once. */
  lemma SelectIdempotent(s: State, answer: string)
    requires s.Valid()
    ensures Select(Select(s, answer).1, answer) == Select(s, answer)
  {
  }

  /**
    `setChoices`: a list of a different length is refused; otherwise the
    button texts become the new list, `choices` and the selection stay.
  */
  function Relabel(s: State, newLabels: seq<string>): (r: (bool, State))
    requires s.Valid()
    ensures r.1.Valid()
    ensures r.0 <==> |newLabels| == |s.labels|
    ensures r.1 == if r.0 then s.(labels := newLabels) else s
  {
    if |newLabels| != |s.labels| then (false, s) else (true, s.(labels := newLabels))
  }

  /** After relabelling, the checked button reports its new text. */
  lemma RelabelRenamesAnswer(s: State, newLabels: seq<string>)
    requires s.Valid() && |newLabels| == |s.labels| && s.checked.Some?
    ensures Answers(Relabel(s, newLabels).1) == [Some(newLabels[s.checked.value])]
  {
  }

  /**
    `fromCSV`: the shared row checks, then `""` (the sentinel) loads nothing
    and any other answer must pass `setAnswer`.
  */
  function LoadRow(s: State, data: seq<string>): (r: (LoadResult, State))
    requires s.Valid()
    ensures r.1.Valid()
    ensures r.0 != Loaded ==> r.1 == s
    ensures r.0 != NotANumber
    ensures r.0 == Loaded <==>
      (DecodeRow(data, s.question).Ok? &&
       (DecodeRow(data, s.question).value == "" || DecodeRow(data, s.question).value in s.choices))
    ensures DecodeRow(data, s.question) == Ok("") ==> r == (Loaded, s)
    ensures var d := DecodeRow(data, s.question);
      r.0 == Loaded && d.value != "" ==> r.1 == Select(s, d.value).1
    ensures var d := DecodeRow(data, s.question);
      r.0 == Loaded && d.value != "" && d.value in s.labels ==> Answers(r.1) == [Some(d.value)]
  {
    match DecodeRow(data, s.question)
    case Err(e) => (Rejected(e), s)
    case Ok(answer) =>
      if answer == "" then (Loaded, s)
      else
        var (ok, s') := Select(s, answer);
        if ok then (Loaded, s') else (Rejected(AnswerUnmatched), s)
  }

  /** The states whose saved row reads back unchanged. */
  predicate RoundTrips(s: State) {
    && s.Valid()
    && s.labels == s.choices
    && RestorableText(s.question)
    && (s.checked.Some? ==> Unpadded(s.labels[s.checked.value]))
  }

  /** Loading the row `toCSV` writes accepts it and leaves the question as it was. */
  lemma RoundTrip(s: State)
    requires RoundTrips(s)
    ensures LoadRow(s, EncodeFields(s.question, Answers(s))) == (Loaded, s)
  {
    DecodeEncodedRow(s.question, Answers(s)[0]);
  }

  class MultiSingleQuestion {
    var num: int
    var question: string
    var images: seq<string>
    var choices: seq<string>
    var labels: seq<string>      // texts of the radio buttons
    var checked: Option<nat>     // the checked radio button, if any

    function Value(): State
      reads this
    {
      State(num, question, images, choices, labels, checked)
    }

    ghost predicate Valid()
      reads this
    {
      Value().Valid()
    }

    constructor (num: int, question: string, images: seq<string>, choices: seq<string>)
      ensures Valid() && Value() == Initial(num, question, images, choices)
    {
      this.num, this.question, this.images, this.choices := num, question, images, choices;
      labels, checked := choices, None;
    }

    method GetAnswers() returns (answers: seq<Cell>)
      requires Valid()
      ensures answers == Answers(Value())
    {
      answers := if checked.Some? then [Some(labels[checked.value])] else [None];
    }

    method SetAnswer(answer: string) returns (ok: bool)
      requires Valid()
      modifies this
      ensures Valid() && (ok, Value()) == Select(old(Value()), answer)
    {
      if answer !in choices {
        return false;
      }
      var current := GetAnswers();
      if Some(answer) == current[0] {
        return true;
      }
      var pick := checked;
      for i := 0 to |labels|
        invariant unchanged(this)
        invariant pick == match LastIndex(labels[..i], answer)
                          case None => checked
                          case Some(j) => Some(j)
      {
        assert labels[..i + 1] == labels[..i] + [labels[i]];
        if labels[i] == answer {
          pick := Some(i);
        }
      }
      assert labels[..|labels|] == labels;
      checked := pick;
      return true;
    }

    method SetChoices(newLabels: seq<string>) returns (ok: bool)
      requires Valid()
      modifies this
      ensures Valid() && (ok, Value()) == Relabel(old(Value()), newLabels)
    {
      if |newLabels| != |labels| {
        return false;
      }
      for i := 0 to |labels|
        invariant |labels| == |newLabels|
        invariant forall j :: 0 <= j < i ==> labels[j] == newLabels[j]
        invariant forall j :: i <= j < |labels| ==> labels[j] == old(labels)[j]
        invariant num == old(num) && question == old(question) && images == old(images)
        invariant choices == old(choices) && checked == old(checked)
      {
        labels := labels[i := newLabels[i]];
      }
      assert labels == newLabels;
      return true;
    }

    method FromCSV(data: seq<string>) returns (r: LoadResult)
      requires Valid()
      modifies this
      ensures Valid() && (r, Value()) == LoadRow(old(Value()), data)
    {
      if |data| != 2 {
        return Rejected(FieldCount);
      }
      var q := CheckQuestionField(data[0], question);
      if q != Matched {
        return Rejected(QuestionMismatch(q));
      }
      var answer := CheckAnswerField(data[1]);
      if answer.None? {
        return Rejected(AnswerFormat);
      } else if answer.value == "" {
        return Loaded;
      }
      var ok := SetAnswer(answer.value);
      if !ok {
        return Rejected(AnswerUnmatched);
      }
      return Loaded;
    }
  }
}
