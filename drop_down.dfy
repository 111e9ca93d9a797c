/**
  `DropDownQuestion`: one answer picked from a combo box whose first item is
  the sentinel `Question Unanswered`.

  `choices` is the list the question was built from with the sentinel put in
  front; it never changes. `items` are the combo box texts, which
  `setChoices` may rewrite, and `current` is the combo box's current index.
*/
module DropDown {
  import opened Wrappers
  import opened PyText
  import opened PyList
  import opened CsvRow

  /** The state of a drop-down question. */
  datatype State = State(
    num: int, question: string, images: seq<string>,
    choices: seq<string>, items: seq<string>, current: nat)
  {
    predicate Valid() {
      && |choices| >= 1 && choices[0] == UNANSWERED
      && |items| == |choices|
      && current < |items|
    }
  }

  /** A new question: the sentinel, then the given choices; the sentinel is current. */
  function Initial(num: int, question: string, images: seq<string>, given: seq<string>): (s: State)
    ensures s.Valid() && Answers(s) == [None]
    ensures s.choices[1..] == given
  {
    var choices := [UNANSWERED] + given;
    State(num, question, images, choices, choices, 0)
  }

  /** `getAnswers`: the current text, or `[None]` while it is the sentinel. */
  function Answers(s: State): (r: seq<Cell>)
    requires s.Valid()
    ensures |r| == 1
    ensures r == [None] <==> s.items[s.current] == UNANSWERED
  {
    var text := s.items[s.current];
    if text != UNANSWERED then [Some(text)] else [None]
  }

  /**
    `setAnswer`: rejects an answer that is not one of `choices`; otherwise
    the combo box moves to the first item showing that text, and stays where
    it is when no item shows it.
  */
  function Select(s: State, answer: string): (r: (bool, State))
    requires s.Valid()
    ensures r.1.Valid()
    ensures r.0 <==> answer in s.choices
    ensures r.1.(current := s.current) == s
    ensures answer !in s.choices || answer !in s.items ==> r.1 == s
    ensures r.0 && answer in s.items ==>
      r.1.items[r.1.current] == answer && forall j :: 0 <= j < r.1.current ==> s.items[j] != answer
  {
    if answer !in s.choices then (false, s)
    else match FirstIndex(s.items, answer)
      case None => (true, s)
      case Some(i) => (true, s.(current := i))
  }

  /** A choice that labels an item is reported back by `getAnswers` once selected. */
  lemma SelectThenAnswers(s: State, answer: string)
    requires s.Valid() && answer in s.choices && answer in s.items
    ensures Answers(Select(s, answer).1) == if answer == UNANSWERED then [None] else [Some(answer)]
  {
  }

  /** Selecting the same answer twice has the effect of selecting it once. */
  lemma SelectIdempotent(s: State, answer: string)
    requires s.Valid()
    ensures Select(Select(s, answer).1, answer) == Select(s, answer)
  {
  }

  /** `setChoices`: a list of a different length than the combo box is refused. */
  function Relabel(s: State, newItems: seq<string>): (r: (bool, State))
    requires s.Valid()
    ensures r.1.Valid()
    ensures r.0 <==> |newItems| == |s.items|
    ensures r.1 == if r.0 then s.(items := newItems) else s
  {
    if |newItems| != |s.items| then (false, s) else (true, s.(items := newItems))
  }

  /**
    `fromCSV`: the shared row checks; the sentinel selects the sentinel
    item, any other answer must pass `setAnswer`.
  */
  function LoadRow(s: State, data: seq<string>): (r: (LoadResult, State))
    requires s.Valid()
    ensures r.1.Valid()
    ensures r.0 != Loaded ==> r.1 == s
    ensures r.0 != NotANumber
    ensures r.0 == Loaded <==>
      (DecodeRow(data, s.question).Ok? &&
       (DecodeRow(data, s.question).value == "" || DecodeRow(data, s.question).value in s.choices))
    ensures DecodeRow(data, s.question) == Ok("") ==>
      r == (Loaded, Select(s, UNANSWERED).1) && (UNANSWERED in s.items ==> Answers(r.1) == [None])
    ensures var d := DecodeRow(data, s.question);
      r.0 == Loaded && d.value != "" ==> r.1 == Select(s, d.value).1
    ensures var d := DecodeRow(data, s.question);
      r.0 == Loaded && d.value != "" && d.value in s.items ==>
        Answers(r.1) == if d.value == UNANSWERED then [None] else [Some(d.value)]
  {
    match DecodeRow(data, s.question)
    case Err(e) => (Rejected(e), s)
    case Ok(answer) =>
      if answer == "" then (Loaded, Select(s, UNANSWERED).1)
      else
        var (ok, s') := Select(s, answer);
        if ok then (Loaded, s') else (Rejected(AnswerUnmatched), s)
  }

  /** The states whose saved row reads back unchanged. */
  predicate RoundTrips(s: State) {
    && s.Valid()
    && s.items == s.choices
    && RestorableText(s.question)
    && s.items[s.current] != ""
    && Unpadded(s.items[s.current])
    && FirstIndex(s.items, s.items[s.current]) == Some(s.current)
  }

  /** Loading the row `toCSV` writes accepts it and leaves the question as it was. */
  lemma RoundTrip(s: State)
    requires RoundTrips(s)
    ensures LoadRow(s, EncodeFields(s.question, Answers(s))) == (Loaded, s)
  {
    DecodeEncodedRow(s.question, Answers(s)[0]);
  }

  /** With distinct items every position qualifies for the round trip's first-match condition. */
  lemma DistinctItemsRoundTrip(s: State)
    requires s.Valid() && s.items == s.choices && Distinct(s.items)
    requires RestorableText(s.question) && s.items[s.current] != "" && Unpadded(s.items[s.current])
    ensures LoadRow(s, EncodeFields(s.question, Answers(s))) == (Loaded, s)
  {
    FirstIndexDistinct(s.items, s.current);
    RoundTrip(s);
  }

  /**
    An empty choice text is saved like no answer at all: once it is current,
    loading its row moves the combo box back to the sentinel.
  */
  lemma EmptyChoiceReadsUnanswered(s: State)
    requires s.Valid() && s.items == s.choices && RestorableText(s.question)
    requires s.current > 0 && s.items[s.current] == ""
    ensures LoadRow(s, EncodeFields(s.question, Answers(s))) == (Loaded, s.(current := 0))
  {
    DecodeEncodedRow(s.question, Answers(s)[0]);
    assert FirstIndex(s.items, UNANSWERED) == Some(0);
  }

  class DropDownQuestion {
    var num: int
    var question: string
    var images: seq<string>
    var choices: seq<string>    // the sentinel, then the given choices
    var items: seq<string>      // texts of the combo box items
    var current: nat            // the combo box's current index

    function Value(): State
      reads this
    {
      State(num, question, images, choices, items, current)
    }

    ghost predicate Valid()
      reads this
    {
      Value().Valid()
    }

    constructor (num: int, question: string, images: seq<string>, given: seq<string>)
      ensures Valid() && Value() == Initial(num, question, images, given)
    {
      this.num, this.question, this.images := num, question, images;
      choices := [UNANSWERED] + given;
      items := [UNANSWERED] + given;
      current := 0;
    }

    method GetAnswers() returns (answers: seq<Cell>)
      requires Valid()
      ensures answers == Answers(Value())
    {
      var text := items[current];
      answers := if text != UNANSWERED then [Some(text)] else [None];
    }

    method SetAnswer(answer: string) returns (ok: bool)
      requires Valid()
      modifies this
      ensures Valid() && (ok, Value()) == Select(old(Value()), answer)
    {
      if answer !in choices {
        return false;
      }
      var found := FirstIndex(items, answer);
      if found.Some? {
        current := found.value;
      }
      return true;
    }

    method SetChoices(newItems: seq<string>) returns (ok: bool)
      requires Valid()
      modifies this
      ensures Valid() && (ok, Value()) == Relabel(old(Value()), newItems)
    {
      if |newItems| != |items| {
        return false;
      }
      for i := 0 to |newItems|
        invariant |items| == |newItems|
        invariant forall j :: 0 <= j < i ==> items[j] == newItems[j]
        invariant forall j :: i <= j < |items| ==> items[j] == old(items)[j]
        invariant num == old(num) && question == old(question) && images == old(images)
        invariant choices == old(choices) && current == old(current)
      {
        items := items[i := newItems[i]];
      }
      assert items == newItems;
      return true;
    }

    method FromCSV(data: seq<string>) returns (r: LoadResult)
      requires Valid()
      modifies this
      ensures Valid() && (r, Value()) == LoadRow(old(Value()), data)
    {
      if |data| != 2 {
        return Rejected(FieldCount);
      }
      var q := CheckQuestionField(data[0], question);
      if q != Matched {
        return Rejected(QuestionMismatch(q));
      }
      var answer := CheckAnswerField(data[1]);
      if answer.None? {
        return Rejected(AnswerFormat);
      } else if answer.value == "" {
        var _ := SetAnswer(UNANSWERED);
        return Loaded;
      }
      var ok := SetAnswer(answer.value);
      return if ok then Loaded else Rejected(AnswerUnmatched);
    }
  }
}
