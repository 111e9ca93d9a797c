/**
  `MultiMultiQuestion`: any number of answers, one check box per choice.

  Check box `k` carries the id `k` it was given at construction, so the boxes
  stay aligned with `choices`, which never changes; `labels` are the box
  texts that `setChoices` may rewrite.
*/
module MultiMulti {
  import opened Wrappers
  import opened PyText
  import opened PyList
  import opened CsvRow

  /** The state of a multiple-choice question; `checked[k]` is box `k`'s tick. */
  datatype State = State(
    num: int, question: string, images: seq<string>,
    choices: seq<string>, labels: seq<string>, checked: seq<bool>)
  {
    predicate Valid() {
      |labels| == |choices| && |checked| == |choices|
    }
  }

  /** A new question: one unticked box per choice. */
  function Initial(num: int, question: string, images: seq<string>, choices: seq<string>): (s: State)
    ensures s.Valid() && Answers(s) == [None]
  {
    State(num, question, images, choices, choices, seq(|choices|, _ => false))
  }

  /** The texts of the ticked boxes, in box order. */
  function Selected(labels: seq<string>, checked: seq<bool>): (r: seq<string>)
    requires |labels| == |checked|
    ensures |r| <= |labels|
    ensures forall x :: x in r ==> x in labels
    ensures r == [] <==> forall k :: 0 <= k < |checked| ==> !checked[k]
  {
    if |labels| == 0 then []
    else
      var n := |labels| - 1;
      Selected(labels[..n], checked[..n]) + (if checked[n] then [labels[n]] else [])
  }

  function Wrap(xs: seq<string>): (r: seq<Cell>)
    ensures |r| == |xs| && forall i :: 0 <= i < |xs| ==> r[i] == Some(xs[i])
  {
    seq(|xs|, i requires 0 <= i < |xs| => Some(xs[i]))
  }

  /** `getAnswers`: the ticked texts, or `[None]` when no box is ticked. */
  function Answers(s: State): (r: seq<Cell>)
    requires s.Valid()
    ensures r == [None] <==> forall k :: 0 <= k < |s.checked| ==> !s.checked[k]
  {
    var sel := Selected(s.labels, s.checked);
    if sel == [] then [None]
    else
      assert Wrap(sel)[0] == Some(sel[0]);
      Wrap(sel)
  }

  /** The boxes `setAnswer` ticks: those whose id is `choices.index(a)` for an answer `a`. */
  function Chosen(choices: seq<string>, answers: seq<string>): (c: seq<bool>)
    ensures |c| == |choices|
  {
    seq(|choices|, k requires 0 <= k < |choices| =>
      exists j :: 0 <= j < |answers| && FirstIndex(choices, answers[j]) == Some(k))
  }

  /** With distinct choices, box `k` is ticked exactly when its choice is among the answers. */
  lemma ChosenDistinct(choices: seq<string>, answers: seq<string>, k: nat)
    requires Distinct(choices) && k < |choices|
    ensures Chosen(choices, answers)[k] <==> choices[k] in answers
  {
    FirstIndexDistinct(choices, k);
    var c := Chosen(choices, answers);
    assert c[k] == exists j :: 0 <= j < |answers| && FirstIndex(choices, answers[j]) == Some(k);
    if choices[k] in answers {
      var j :| 0 <= j < |answers| && answers[j] == choices[k];
      assert FirstIndex(choices, answers[j]) == Some(k);
    }
  }

  /**
    `setAnswer`: refuses more answers than choices or any answer that is not
    a choice; otherwise the ticked boxes become exactly those of the answers,
    replacing the previous selection.
  */
  function Accept(s: State, answers: seq<string>): (r: (bool, State))
    requires s.Valid()
    ensures r.1.Valid()
    ensures r.0 <==> |answers| <= |s.choices| && forall a :: a in answers ==> a in s.choices
    ensures r.1 == if r.0 then s.(checked := Chosen(s.choices, answers)) else s
  {
    if |answers| > |s.choices| then (false, s)
    else if exists a :: a in answers && a !in s.choices then (false, s)
    else (true, s.(checked := Chosen(s.choices, answers)))
  }

  /**
    With distinct choices that label their own boxes, an accepted answer list
    ticks exactly its own choices: the selection is replaced, not added to.
  */
  lemma AcceptReplaces(s: State, answers: seq<string>)
    requires s.Valid() && Distinct(s.choices) && Accept(s, answers).0
    ensures forall k :: 0 <= k < |s.choices| ==> (Accept(s, answers).1.checked[k] <==> s.choices[k] in answers)
  {
    forall k | 0 <= k < |s.choices|
      ensures Accept(s, answers).1.checked[k] <==> s.choices[k] in answers
    {
      ChosenDistinct(s.choices, answers, k);
    }
  }

  /** `setChoices`: rewrites the box texts when the list has as many entries as boxes. */
  function Relabel(s: State, newLabels: seq<string>): (r: (bool, State))
    requires s.Valid()
    ensures r.1.Valid()
    ensures r.0 <==> |newLabels| == |s.labels|
    ensures r.1 == if r.0 then s.(labels := newLabels) else s
  {
    if |newLabels| != |s.labels| then (false, s) else (true, s.(labels := newLabels))
  }

  /** How the answer fields of a row decode. */
  datatype Decoding =
    | Stop                          // the sentinel: `fromCSV` returns True at once
    | Fail(why: Mismatch)           // a bad or unknown answer: `fromCSV` returns False
    | Found(answers: seq<string>)   // every field was a known answer

  function Prefixed(p: seq<string>, d: Decoding): Decoding {
    if d.Found? then Found(p + d.answers) else d
  }

  /** The loop of `fromCSV` over the answer fields, stopping at the first that is not a known answer. */
  /** A field naming one of the choices: well formed, not the sentinel, and known. */
  predicate Known(field: string, choices: seq<string>) {
    CheckAnswerField(field).Some? && CheckAnswerField(field).value != "" && CheckAnswerField(field).value in choices
  }

  function DecodeAnswers(fields: seq<string>, choices: seq<string>): (d: Decoding)
    ensures d.Found? ==> |d.answers| == |fields| && forall a :: a in d.answers ==> a in choices
  {
    if |fields| == 0 then Found([])
    else match CheckAnswerField(fields[0])
      case None => Fail(AnswerFormat)
      case Some(a) =>
        if a == "" then Stop
        else if a !in choices then Fail(AnswerUnmatched)
        else Prefixed([a], DecodeAnswers(fields[1..], choices))
  }

  /**
    The loop over the answer fields runs to the end iff every field names a
    choice, collecting each field's decoded answer; it stops at the first
    sentinel or fails at the first other bad field, whichever comes first.
  */
  lemma {:induction false} DecodeAnswersFields(fields: seq<string>, choices: seq<string>)
    ensures var d := DecodeAnswers(fields, choices);
      && (d.Found? <==> forall i :: 0 <= i < |fields| ==> Known(fields[i], choices))
      && (d.Found? ==> forall i :: 0 <= i < |fields| ==> CheckAnswerField(fields[i]) == Some(d.answers[i]))
      && (d.Stop? ==> exists i :: (0 <= i < |fields| && CheckAnswerField(fields[i]) == Some("") &&
                                   forall k :: 0 <= k < i ==> Known(fields[k], choices)))
      && (d.Fail? ==> exists i :: (0 <= i < |fields| && !Known(fields[i], choices) &&
                                   CheckAnswerField(fields[i]) != Some("") &&
                                   forall k :: 0 <= k < i ==> Known(fields[k], choices)))
  {
    if |fields| > 0 {
      DecodeAnswersFields(fields[1..], choices);
      assert forall i :: 1 <= i < |fields| ==> fields[i] == fields[1..][i - 1];
      var d := DecodeAnswers(fields, choices);
      var e := DecodeAnswers(fields[1..], choices);
      if Known(fields[0], choices) {
        if e.Stop? {
          var i :| 0 <= i < |fields[1..]| && CheckAnswerField(fields[1..][i]) == Some("") &&
                   forall k :: 0 <= k < i ==> Known(fields[1..][k], choices);
          assert CheckAnswerField(fields[i + 1]) == Some("");
        } else if e.Fail? {
          var i :| 0 <= i < |fields[1..]| && !Known(fields[1..][i], choices) &&
                   CheckAnswerField(fields[1..][i]) != Some("") &&
                   forall k :: 0 <= k < i ==> Known(fields[1..][k], choices);
          assert !Known(fields[i + 1], choices);
        }
      } else {
        assert !(forall i :: 0 <= i < |fields| ==> Known(fields[i], choices));
        if d.Stop? {
          assert CheckAnswerField(fields[0]) == Some("");
        }
      }
    }
  }

  /**
    `fromCSV`: at least two fields and a matching question field; then the
    answers are decoded in order, the sentinel loading nothing; the decoded
    list must pass `setAnswer`.
  */
  function LoadRow(s: State, data: seq<string>): (r: (LoadResult, State))
    requires s.Valid()
    ensures r.1.Valid()
    ensures r.0 != Loaded ==> r.1 == s
    ensures r.0 != NotANumber
    ensures |data| < 2 ==> r.0 == Rejected(FieldCount)
    ensures |data| >= 2 && CheckQuestionField(data[0], s.question) != Matched ==> r.0.Rejected?
    ensures |data| >= 2 && CheckQuestionField(data[0], s.question) == Matched ==>
      var d := DecodeAnswers(data[1..], s.choices);
      && (d.Fail? ==> r.0.Rejected?)
      && (d.Stop? ==> r == (Loaded, s))
      && (d.Found? ==> (r.0 == Loaded <==> Accept(s, d.answers).0))
      && (d.Found? && r.0 == Loaded ==> r.1 == Accept(s, d.answers).1)
  {
    if |data| < 2 then (Rejected(FieldCount), s)
    else
      var q := CheckQuestionField(data[0], s.question);
      if q != Matched then (Rejected(QuestionMismatch(q)), s)
      else match DecodeAnswers(data[1..], s.choices)
        case Stop => (Loaded, s)
        case Fail(e) => (Rejected(e), s)
        case Found(answers) =>
          var (ok, s') := Accept(s, answers);
          if ok then (Loaded, s') else (Rejected(TooManyAnswers), s)
  }

  function AnswerFields(xs: seq<string>): seq<string> {
    seq(|xs|, i requires 0 <= i < |xs| => AnswerField(Some(xs[i])))
  }

  /** The answer fields `toCSV` writes for known answers decode back to them (or stop at an empty one). */
  lemma {:induction false} DecodeEncodedAnswers(xs: seq<string>, choices: seq<string>)
    requires forall i :: 0 <= i < |xs| ==> xs[i] in choices && Unpadded(xs[i])
    ensures DecodeAnswers(AnswerFields(xs), choices) == if "" in xs then Stop else Found(xs)
  {
    if |xs| > 0 {
      var fields := AnswerFields(xs);
      assert fields[1..] == AnswerFields(xs[1..]);
      AnswerFieldRoundTrip(Some(xs[0]));
      DecodeEncodedAnswers(xs[1..], choices);
      assert "" in xs <==> xs[0] == "" || "" in xs[1..] by {
        assert xs == [xs[0]] + xs[1..];
      }
      assert xs == [xs[0]] + xs[1..];
    }
  }

  /** With distinct labels, a label is among the ticked texts exactly when its box is ticked. */
  lemma {:induction false} SelectedDistinct(labels: seq<string>, checked: seq<bool>, k: nat)
    requires |labels| == |checked| && Distinct(labels) && k < |labels|
    ensures labels[k] in Selected(labels, checked) <==> checked[k]
  {
    var n := |labels| - 1;
    if k < n {
      SelectedDistinct(labels[..n], checked[..n], k);
    } else {
      assert labels[k] !in labels[..n];
    }
  }

  /** The states whose saved row reads back unchanged. */
  predicate RoundTrips(s: State) {
    && s.Valid()
    && s.labels == s.choices
    && Distinct(s.choices)
    && RestorableText(s.question)
    && forall k :: 0 <= k < |s.labels| ==> Unpadded(s.labels[k])
  }

  /** Loading the row `toCSV` writes accepts it and leaves the question as it was. */
  lemma RoundTrip(s: State)
    requires RoundTrips(s)
    ensures LoadRow(s, EncodeFields(s.question, Answers(s))) == (Loaded, s)
  {
    var sel := Selected(s.labels, s.checked);
    var data := EncodeFields(s.question, Answers(s));
    QuestionFieldRoundTrip(s.question);
    assert CheckQuestionField(data[0], s.question) == Matched;
    EncodeFieldsParts(s.question, Answers(s));
    if sel == [] {
      assert data[1] == AnswerField(None) == UNANSWERED;
      assert data[1..] == [UNANSWERED];
      assert CheckAnswerField(UNANSWERED) == Some("");
      assert DecodeAnswers(data[1..], s.choices) == Stop;
    } else {
      assert data[1..] == AnswerFields(sel);
      DecodeEncodedAnswers(sel, s.choices);
      if "" !in sel {
        SelectionReadsBack(s);
        assert DecodeAnswers(data[1..], s.choices) == Found(sel);
      } else {
        assert DecodeAnswers(data[1..], s.choices) == Stop;
      }
    }
  }

  /** With distinct choices, accepting the ticked texts ticks the same boxes again. */
  lemma SelectionReadsBack(s: State)
    requires RoundTrips(s)
    ensures Accept(s, Selected(s.labels, s.checked)) == (true, s)
  {
    var sel := Selected(s.labels, s.checked);
    forall k | 0 <= k < |s.choices| ensures Chosen(s.choices, sel)[k] == s.checked[k] {
      SelectedDistinct(s.labels, s.checked, k);
      ChosenDistinct(s.choices, sel, k);
    }
    assert Chosen(s.choices, sel) == s.checked;
  }

  /**
    Without distinct choices the round trip fails: two ticked boxes both
    labelled `a` are saved as two `'a` answers, and loading them ticks only
    the first box, since both answers map to `choices.index("a")`.
  */
  lemma DuplicateChoicesLoseTicks()
    ensures var s := State(1, "Q", [], ["a", "a"], ["a", "a"], [true, true]);
      var r := LoadRow(s, EncodeFields(s.question, Answers(s)));
      r.0 == Loaded && Answers(r.1) == [Some("a")] && Answers(s) == [Some("a"), Some("a")]
  {
    var s := State(1, "Q", [], ["a", "a"], ["a", "a"], [true, true]);
    var data := EncodeFields(s.question, Answers(s));
    DuplicatesSaved(s);
    QuestionFieldRoundTrip(s.question);
    AcceptFirstOfDuplicates(s);
    var t := s.(checked := [true, false]);
    assert LoadRow(s, data) == (Loaded, t);
    assert t.checked[..1] == [true];
    assert Selected(t.labels, t.checked) == ["a"];
  }

  /**
    In general, of two boxes with the same label only the earlier can be
    ticked from answers: `choices.index` never returns the later one.
  */
  lemma DuplicateNeverChosen(choices: seq<string>, answers: seq<string>, i: nat, j: nat)
    requires i < j < |choices| && choices[i] == choices[j]
    ensures !Chosen(choices, answers)[j]
  {
    forall n | 0 <= n < |answers|
      ensures FirstIndex(choices, answers[n]) != Some(j)
    {
      assert FirstIndex(choices, answers[n]).Some? ==> choices[FirstIndex(choices, answers[n]).value] != choices[i] || FirstIndex(choices, answers[n]).value <= i;
    }
  }

  /** A row that changes the question never leaves the later of two same-labelled boxes ticked. */
  lemma DuplicateNeverLoaded(s: State, data: seq<string>, i: nat, j: nat)
    requires s.Valid()
    requires i < j < |s.choices| && s.choices[i] == s.choices[j]
    ensures LoadRow(s, data).1 == s || !LoadRow(s, data).1.checked[j]
  {
    var r := LoadRow(s, data);
    if r.1 != s {
      var answers := DecodeAnswers(data[1..], s.choices).answers;
      assert r.1 == Accept(s, answers).1;
      DuplicateNeverChosen(s.choices, answers, i, j);
    }
  }

  /** The row saved for two ticked boxes labelled `a` holds the answer `a` twice. */
  lemma DuplicatesSaved(s: State)
    requires s == State(1, "Q", [], ["a", "a"], ["a", "a"], [true, true])
    ensures Answers(s) == [Some("a"), Some("a")]
    ensures DecodeAnswers(EncodeFields(s.question, Answers(s))[1..], s.choices) == Found(["a", "a"])
  {
    DuplicatesTicked(s);
    var data := EncodeFields(s.question, Answers(s));
    EncodeFieldsParts(s.question, Answers(s));
    assert data[1..] == AnswerFields(["a", "a"]);
    TwiceDecodes();
  }

  lemma DuplicatesTicked(s: State)
    requires s == State(1, "Q", [], ["a", "a"], ["a", "a"], [true, true])
    ensures Answers(s) == [Some("a"), Some("a")]
  {
    assert s.labels[..1] == ["a"] && s.checked[..1] == [true];
    assert Selected(s.labels, s.checked) == ["a", "a"];
  }

  lemma TwiceDecodes()
    ensures DecodeAnswers(AnswerFields(["a", "a"]), ["a", "a"]) == Found(["a", "a"])
  {
    var sel := ["a", "a"];
    assert "a"[0] == 'a' && !IsSpace('a');
    assert forall i :: 0 <= i < |sel| ==> sel[i] == "a";
    DecodeEncodedAnswers(sel, ["a", "a"]);
  }

  lemma AcceptFirstOfDuplicates(s: State)
    requires s == State(1, "Q", [], ["a", "a"], ["a", "a"], [true, true])
    ensures Accept(s, ["a", "a"]) == (true, s.(checked := [true, false]))
  {
    var c := Chosen(s.choices, ["a", "a"]);
    assert FirstIndex(s.choices, "a") == Some(0);
    assert c[0];
    assert !c[1];
    assert c == [true, false];
  }

  /** The boxes of the indices `setAnswer` collects are the boxes `Chosen` ticks. */
  lemma ChosenByIndices(choices: seq<string>, answers: seq<string>, indices: seq<nat>, k: nat)
    requires |indices| == |answers| && k < |choices|
    requires forall j :: 0 <= j < |answers| ==> FirstIndex(choices, answers[j]) == Some(indices[j])
    ensures Chosen(choices, answers)[k] <==> k in indices
  {
    if k in indices {
      var j :| 0 <= j < |indices| && indices[j] == k;
      assert FirstIndex(choices, answers[j]) == Some(k);
    }
  }

  /**
    The first loop of `setAnswer`: the index of each answer among the
    choices, stopping at the first answer that is not a choice.
  */
  method AnswerIndices(choices: seq<string>, answers: seq<string>) returns (indices: Option<seq<nat>>)
    ensures indices.None? <==> exists a :: a in answers && a !in choices
    ensures indices.Some? ==> |indices.value| == |answers|
    ensures indices.Some? ==> forall j :: 0 <= j < |answers| ==> FirstIndex(choices, answers[j]) == Some(indices.value[j])
  {
    var found: seq<nat> := [];
    for i := 0 to |answers|
      invariant |found| == i
      invariant forall j :: 0 <= j < i ==> answers[j] in choices
      invariant forall j :: 0 <= j < i ==> FirstIndex(choices, answers[j]) == Some(found[j])
    {
      var index := FirstIndex(choices, answers[i]);
      if index.None? {
        assert answers[i] in answers && answers[i] !in choices;
        return None;
      }
      found := found + [index.value];
    }
    return Some(found);
  }

  class MultiMultiQuestion {
    var num: int
    var question: string
    var images: seq<string>
    var choices: seq<string>
    var labels: seq<string>     // texts of the check boxes, box k has id k
    var checked: seq<bool>      // whether box k is ticked

    function Value(): State
      reads this
    {
      State(num, question, images, choices, labels, checked)
    }

    ghost predicate Valid()
      reads this
    {
      Value().Valid()
    }

    constructor (num: int, question: string, images: seq<string>, choices: seq<string>)
      ensures Valid() && Value() == Initial(num, question, images, choices)
    {
      this.num, this.question, this.images, this.choices := num, question, images, choices;
      labels, checked := choices, seq(|choices|, _ => false);
    }

    method GetAnswers() returns (answers: seq<Cell>)
      requires Valid()
      ensures answers == Answers(Value())
    {
      answers := [];
      ghost var sel: seq<string> := [];
      for i := 0 to |labels|
        invariant sel == Selected(labels[..i], checked[..i]) && answers == Wrap(sel)
      {
        assert labels[..i + 1][..i] == labels[..i] && checked[..i + 1][..i] == checked[..i];
        if checked[i] {
          answers := answers + [Some(labels[i])];
          sel := sel + [labels[i]];
        }
      }
      assert labels[..|labels|] == labels && checked[..|checked|] == checked;
      if |answers| == 0 {
        answers := [None];
      }
    }

    method SetAnswer(answers: seq<string>) returns (ok: bool)
      requires Valid()
      modifies this
      ensures Valid() && (ok, Value()) == Accept(old(Value()), answers)
    {
      if |answers| > |choices| {
        return false;
      }
      var indices := AnswerIndices(choices, answers);
      if indices.None? {
        return false;
      }
      ghost var chosen := Chosen(choices, answers);
      for k := 0 to |checked|
        invariant |checked| == |chosen|
        invariant forall j :: 0 <= j < k ==> checked[j] == chosen[j]
        invariant num == old(num) && question == old(question) && images == old(images)
        invariant choices == old(choices) && labels == old(labels)
      {
        ChosenByIndices(choices, answers, indices.value, k);
        checked := checked[k := k in indices.value];
      }
      assert checked == chosen;
      return true;
    }

    method SetChoices(newLabels: seq<string>) returns (ok: bool)
      requires Valid()
      modifies this
      ensures Valid() && (ok, Value()) == Relabel(old(Value()), newLabels)
    {
      if |newLabels| != |labels| {
        return false;
      }
      for i := 0 to |labels|
        invariant |labels| == |newLabels|
        invariant forall j :: 0 <= j < i ==> labels[j] == newLabels[j]
        invariant forall j :: i <= j < |labels| ==> labels[j] == old(labels)[j]
        invariant num == old(num) && question == old(question) && images == old(images)
        invariant choices == old(choices) && checked == old(checked)
      {
        labels := labels[i := newLabels[i]];
      }
      assert labels == newLabels;
      return true;
    }

    method FromCSV(data: seq<string>) returns (r: LoadResult)
      requires Valid()
      modifies this
      ensures Valid() && (r, Value()) == LoadRow(old(Value()), data)
    {
      if |data| < 2 {
        return Rejected(FieldCount);
      }
      var q := CheckQuestionField(data[0], question);
      if q != Matched {
        return Rejected(QuestionMismatch(q));
      }
      var answers: seq<string> := [];
      for i := 1 to |data|
        invariant DecodeAnswers(data[1..], choices) == Prefixed(answers, DecodeAnswers(data[i..], choices))
      {
        assert data[i..][1..] == data[i + 1..];
        var answer := CheckAnswerField(data[i]);
        if answer.None? {
          return Rejected(AnswerFormat);
        } else if answer.value == "" {
          return Loaded;
        } else if answer.value !in choices {
          return Rejected(AnswerUnmatched);
        }
        answers := answers + [answer.value];
      }
      assert DecodeAnswers(data[1..], choices) == Found(answers);
      var ok := SetAnswer(answers);
      return if ok then Loaded else Rejected(TooManyAnswers);
    }
  }
}
