/**
  `SurveyQuestionnaire`: the survey shown one question at a time.

  It builds one widget per survey item, moves between questions with four
  buttons and a question selector, warns when the question being left has
  no answer, writes every question's row to an answer file and loads such
  a file back row by row.
*/
module Questionnaire {
  import opened Wrappers
  import opened CsvRow
  import opened Widgets
  import PyText

  // ---------------------------------------------------------------- building

  /** Why the survey cannot be opened. */
  datatype OpenError =
    | NoQuestions                           // the survey file lists no question
    | BadItem(index: nat, why: CreateError) // item `index` (0-based) cannot be built

  /**
    The loop of `_generateQuestions` over the first items, for any widget
    factory `make`: question `i + 1` from item `i`, stopping at the first
    item that cannot be built.
  */
  function Build<V>(make: (int, SurveyItem) -> Result<V, CreateError>, items: seq<SurveyItem>): (r: Result<seq<V>, OpenError>)
    ensures r.Err? ==> r.error.BadItem?
  {
    if |items| == 0 then Ok([])
    else
      var n := |items| - 1;
      var prefix := Build(make, items[..n]);
      if prefix.Err? then prefix
      else match make(n + 1, items[n])
        case Err(e) => Err(BadItem(n, e))
        case Ok(v) => Ok(prefix.value + [v])
  }

  /** Building succeeds exactly when every item builds, and then question `i + 1` is item `i`'s. */
  lemma {:induction false} BuildEach<V>(make: (int, SurveyItem) -> Result<V, CreateError>, items: seq<SurveyItem>)
    ensures Build(make, items).Ok? <==> forall i :: 0 <= i < |items| ==> make(i + 1, items[i]).Ok?
    ensures Build(make, items).Ok? ==>
      |Build(make, items).value| == |items| &&
      forall i :: 0 <= i < |items| ==> Build(make, items).value[i] == make(i + 1, items[i]).value
  {
    if |items| > 0 {
      var n := |items| - 1;
      BuildEach(make, items[..n]);
      assert forall i :: 0 <= i < n ==> items[..n][i] == items[i];
    }
  }

  /** A failed build names the first item that cannot be built, and why. */
  lemma {:induction false} BuildReportsFirst<V>(make: (int, SurveyItem) -> Result<V, CreateError>, items: seq<SurveyItem>)
    requires Build(make, items).Err?
    ensures var e := Build(make, items).error;
      && e.index < |items| && make(e.index + 1, items[e.index]) == Err(e.why)
      && forall i :: 0 <= i < e.index ==> make(i + 1, items[i]).Ok?
  {
    var n := |items| - 1;
    assert forall i :: 0 <= i < n ==> items[..n][i] == items[i];
    if Build(make, items[..n]).Err? {
      BuildReportsFirst(make, items[..n]);
    } else {
      BuildEach(make, items[..n]);
    }
  }

  /** Once the building loop fails, the rest of the items do not matter. */
  lemma {:induction false} BuildStops<V>(make: (int, SurveyItem) -> Result<V, CreateError>, items: seq<SurveyItem>, j: nat)
    requires j <= |items| && Build(make, items[..j]).Err?
    ensures Build(make, items) == Build(make, items[..j])
    decreases |items|
  {
    if j < |items| {
      var n := |items| - 1;
      assert items[..n][..j] == items[..j];
      BuildStops(make, items[..n], j);
    } else {
      assert items[..j] == items;
    }
  }

  /** `_generateQuestions`: the survey's widgets, in their initial states. */
  function Generated(items: seq<SurveyItem>): Result<seq<WidgetValue>, OpenError> {
    Build(InitialValue, items)
  }

  /** Opening a survey: it needs at least one item, and every item must build. */
  function Generate(items: seq<SurveyItem>): (r: Result<seq<WidgetValue>, OpenError>)
    ensures r == Err(NoQuestions) <==> |items| == 0
    ensures r.Ok? ==> |r.value| >= 1
  {
    if |items| == 0 then Err(NoQuestions)
    else
      BuildEach(InitialValue, items);
      Generated(items)
  }

  // ---------------------------------------------------------------- navigation

  /** Whether the To First, Prev, Next and To Last buttons are enabled. */
  datatype Buttons = Buttons(toFirst: bool, prev: bool, next: bool, toLast: bool)

  /** `_setNavigationButtonStatus`: backwards off on the first question, forwards off on the last. */
  function ButtonsFor(current: nat, count: nat): (b: Buttons)
    ensures b.toFirst == b.prev && b.next == b.toLast
  {
    Buttons(current != 0, current != 0, current != count - 1, current != count - 1)
  }

  /** An enabled Prev or Next button leads to a question that exists, and each is enabled whenever one does. */
  lemma NavigationStaysInRange(current: nat, count: nat)
    requires current < count
    ensures ButtonsFor(current, count).prev <==> current - 1 >= 0
    ensures ButtonsFor(current, count).next <==> current + 1 < count
  {
  }

  /** The buttons as `_formatNavigations` first sets them: only the backward pair is disabled. */
  function InitialButtons(count: nat): (b: Buttons)
    ensures !b.toFirst && !b.prev
  {
    Buttons(false, false, true, true)
  }

  /** With at least two questions the first buttons agree with the status rule. */
  lemma InitialButtonsAgree(count: nat)
    requires count >= 2
    ensures InitialButtons(count) == ButtonsFor(0, count)
  {
  }

  /**
    With a single question the first buttons enable Next on the last
    question: pressing it asks for question index 1 of a one-question list.
  */
  lemma SingleQuestionNextEnabled()
    ensures InitialButtons(1).next && !(0 + 1 < 1)
    ensures InitialButtons(1) != ButtonsFor(0, 1)
  {
  }

  // ---------------------------------------------------------------- leaving a question

  /** What `_checkCurrentQuestionUnanswered` shows. */
  datatype Notice =
    | Quiet              // nothing
    | SliderPrompt       // the dialog asking to confirm an unmoved slider
    | UnansweredNotice   // the "Question Not Answered" dialog

  /**
    `_checkCurrentQuestionUnanswered` on the question being left; `accepted`
    is the user's reply to the slider dialog. Confirming an unmoved slider
    marks it as moved.
  */
  function Gate(v: WidgetValue, accepted: bool): (r: (Notice, WidgetValue))
    requires v.Valid()
    ensures r.1.Valid() && v.SameKind(r.1)
    ensures r.1 != v ==> v.SliderV? && accepted && r.1 == SliderV(v.slider.(slid := true))
  {
    if v.SliderV? then
      if !v.slider.slid then (SliderPrompt, if accepted then SliderV(v.slider.(slid := true)) else v)
      else (Quiet, v)
    else if Answers(v) == [None] then (UnansweredNotice, v)
    else if v.DropDownV? then (if Answers(v) == [Some(UNANSWERED)] then UnansweredNotice else Quiet, v)
    else if v.OpenV? then (if Answers(v) == [Some("")] then UnansweredNotice else Quiet, v)
    else (Quiet, v)
  }

  /** A question the user has not answered, by type, stated on the widget state. */
  predicate Unanswered(v: WidgetValue)
    requires v.Valid()
  {
    match v
    case SingleV(s) => s.checked.None?
    case MultiV(s) => forall k :: 0 <= k < |s.checked| ==> !s.checked[k]
    case OpenV(s) => s.text == ""
    case DropDownV(s) => s.items[s.current] == UNANSWERED
    case SliderV(s) => !s.slid
    case RatingV(s) => s.checked.None?
  }

  /**
    Leaving a question shows a dialog exactly when it is unanswered, the
    slider dialog exactly for an unmoved slider; after a confirmed slider
    dialog the slider counts as answered.
  */
  lemma GateNotifiesUnanswered(v: WidgetValue, accepted: bool)
    requires v.Valid()
    ensures Gate(v, accepted).0 != Quiet <==> Unanswered(v)
    ensures Gate(v, accepted).0 == SliderPrompt <==> v.SliderV? && !v.slider.slid
    ensures v.SliderV? && accepted ==> !Unanswered(Gate(v, accepted).1)
  {
    match v
    case SingleV(s) =>
    case MultiV(s) =>
    case OpenV(s) =>
    case DropDownV(s) =>
    case SliderV(s) =>
    case RatingV(s) =>
  }

  /** A drop-down never reports the sentinel as an answer, so its own sentinel test never fires. */
  lemma DropDownSentinelTestUnreachable(v: WidgetValue)
    requires v.Valid() && v.DropDownV?
    ensures Answers(v) != [Some(UNANSWERED)]
  {
  }

  /** A question fresh from the survey file is unanswered. */
  lemma NewQuestionUnanswered(num: int, item: SurveyItem)
    requires InitialValue(num, item).Ok?
    ensures Unanswered(InitialValue(num, item).value)
  {
    var v := InitialValue(num, item).value;
    InitialUnanswered(num, item);
    if v.MultiV? {
      GateNotifiesUnanswered(v, false);
    }
  }

  // ---------------------------------------------------------------- saving

  /** The anonymity rule of `_saveSurveyProgress`: question 2's first answer is `yes`. */
  predicate Anonymous(vs: seq<WidgetValue>)
    requires |vs| >= 2 && vs[1].Valid()
  {
    Answers(vs[1])[0] == Some("yes")
  }

  /** The rows of questions `from` up to `to`. */
  function RowsBetween(vs: seq<WidgetValue>, from: nat, to: nat): (rows: seq<seq<string>>)
    requires from <= to <= |vs| && forall i :: 0 <= i < |vs| ==> vs[i].Valid()
    ensures |rows| == to - from && forall i :: 0 <= i < to - from ==> rows[i] == Row(vs[from + i])
  {
    seq(to - from, i requires 0 <= i < to - from => Row(vs[from + i]))
  }

  /** The rows `_saveSurveyProgress` writes: every question's, the first left out for an anonymous answer. */
  function SavedRows(vs: seq<WidgetValue>): seq<seq<string>>
    requires |vs| >= 2 && forall i :: 0 <= i < |vs| ==> vs[i].Valid()
  {
    RowsBetween(vs, if Anonymous(vs) then 1 else 0, |vs|)
  }

  /** The text of a file of rows: each row's joined fields and a newline. */
  function Lines(rows: seq<seq<string>>): string {
    if |rows| == 0 then ""
    else Lines(rows[..|rows| - 1]) + Joined(rows[|rows| - 1]) + "\n"
  }

  lemma LinesGrow(rows: seq<seq<string>>, row: seq<string>)
    ensures Lines(rows + [row]) == Lines(rows) + (Joined(row) + "\n")
  {
    assert (rows + [row])[..|rows|] == rows;
  }

  lemma RowsBetweenGrow(vs: seq<WidgetValue>, from: nat, to: nat)
    requires from <= to < |vs| && forall i :: 0 <= i < |vs| ==> vs[i].Valid()
    ensures RowsBetween(vs, from, to + 1) == RowsBetween(vs, from, to) + [Row(vs[to])]
  {
  }

  /** What a save writes, or `None` where it raises (fewer than two questions). */
  function SaveText(vs: seq<WidgetValue>): (r: Option<string>)
    requires forall i :: 0 <= i < |vs| ==> vs[i].Valid()
    ensures r.None? <==> |vs| < 2
  {
    if |vs| < 2 then None else Some(Lines(SavedRows(vs)))
  }

  // ---------------------------------------------------------------- restoring

  /** Why a restore stops before the end of the file (an exception in the loop). */
  datatype Failure =
    | TooManyRows(row: nat)    // row `row` (1-based) has no question: index error
    | NotANumberIn(row: nat)   // `int()` raised on row `row`

  /** Where a restore stands: the question states, the rows reported unmatched, and any failure. */
  datatype Progress<V> = Progress(values: seq<V>, unmatched: seq<nat>, failure: Option<Failure>)

  /** `fromCSV` as a function of the state: defined on the `valid` states and keeping them valid. */
  ghost predicate Loader<V(!new)>(valid: V -> bool, load: (V, seq<string>) --> (LoadResult, V)) {
    forall v, row :: valid(v) ==> load.requires(v, row) && valid(load(v, row).1)
  }

  /**
    The loop of `_resumeSurveyProgress` over the rows read so far, for any
    row loader: row `k + 1` goes to question `k`; a row that is not loaded
    is reported with its 1-based number; an exception ends the loop and
    keeps what was loaded before.
  */
  function Restore<V(!new)>(valid: V -> bool, load: (V, seq<string>) --> (LoadResult, V),
                      vs: seq<V>, rows: seq<seq<string>>): (p: Progress<V>)
    requires Loader(valid, load) && forall i :: 0 <= i < |vs| ==> valid(vs[i])
    ensures |p.values| == |vs| && forall i :: 0 <= i < |vs| ==> valid(p.values[i])
    ensures forall n :: n in p.unmatched ==> 1 <= n <= |rows|
    decreases |rows|
  {
    if |rows| == 0 then Progress(vs, [], None)
    else
      var p := Restore(valid, load, vs, rows[..|rows| - 1]);
      var k := |rows| - 1;
      if p.failure.Some? then p
      else if k >= |vs| then p.(failure := Some(TooManyRows(k + 1)))
      else
        var (r, v) := load(p.values[k], rows[k]);
        if r == NotANumber then p.(failure := Some(NotANumberIn(k + 1)))
        else if r == Loaded then p.(values := p.values[k := v])
        else p.(unmatched := p.unmatched + [k + 1])
  }

  /** Validity of a question state, as a function value. */
  function IsValid(v: WidgetValue): bool {
    v.Valid()
  }

  /** Every widget's `fromCSV` is a row loader on valid states. */
  lemma LoadRowLoader()
    ensures Loader(IsValid, LoadRow)
  {
    forall v, row | IsValid(v) ensures LoadRow.requires(v, row) && IsValid(LoadRow(v, row).1) {
      var r := LoadRow(v, row);
    }
  }

  /** `_resumeSurveyProgress` on the survey's questions. */
  function Resume(vs: seq<WidgetValue>, rows: seq<seq<string>>): (p: Progress<WidgetValue>)
    requires forall i :: 0 <= i < |vs| ==> vs[i].Valid()
    ensures |p.values| == |vs| && forall i :: 0 <= i < |vs| ==> p.values[i].Valid()
  {
    LoadRowLoader();
    Restore(IsValid, LoadRow, vs, rows)
  }

  /**
    Row by row: when no row raises, question `k` ends as loading row `k + 1`
    into it leaves it, later questions are untouched, and a row is reported
    exactly when it was not loaded.
  */
  lemma {:induction false} RestoreRowwise<V(!new)>(valid: V -> bool, load: (V, seq<string>) --> (LoadResult, V),
                                             vs: seq<V>, rows: seq<seq<string>>)
    requires Loader(valid, load) && forall i :: 0 <= i < |vs| ==> valid(vs[i])
    requires |rows| <= |vs|
    requires forall k :: 0 <= k < |rows| ==> load(vs[k], rows[k]).0 != NotANumber
    ensures Restore(valid, load, vs, rows).failure == None
    ensures forall k :: 0 <= k < |vs| ==>
      Restore(valid, load, vs, rows).values[k] ==
        if k < |rows| && load(vs[k], rows[k]).0 == Loaded then load(vs[k], rows[k]).1 else vs[k]
    ensures forall n :: n in Restore(valid, load, vs, rows).unmatched <==>
      1 <= n <= |rows| && load(vs[n - 1], rows[n - 1]).0 != Loaded
    ensures Restore(valid, load, vs, rows).unmatched == [] <==>
      forall k :: 0 <= k < |rows| ==> load(vs[k], rows[k]).0 == Loaded
    decreases |rows|
  {
    if |rows| > 0 {
      var k := |rows| - 1;
      RestoreRowwise(valid, load, vs, rows[..k]);
      var p := Restore(valid, load, vs, rows[..k]);
      assert p.values[k] == vs[k];
    }
  }

  /** A row beyond the last question stops the restore with an index error. */
  lemma {:induction false} RestoreTooManyRows<V(!new)>(valid: V -> bool, load: (V, seq<string>) --> (LoadResult, V),
                                                 vs: seq<V>, rows: seq<seq<string>>)
    requires Loader(valid, load) && forall i :: 0 <= i < |vs| ==> valid(vs[i])
    requires |rows| > |vs|
    requires forall k :: 0 <= k < |vs| ==> load(vs[k], rows[k]).0 != NotANumber
    ensures Restore(valid, load, vs, rows).failure == Some(TooManyRows(|vs| + 1))
    decreases |rows|
  {
    var k := |rows| - 1;
    if k == |vs| {
      RestoreRowwise(valid, load, vs, rows[..k]);
    } else {
      RestoreTooManyRows(valid, load, vs, rows[..k]);
    }
  }

  /** Reading more rows only adds to the list of reported rows. */
  lemma {:induction false} RestoreReportsGrow<V(!new)>(valid: V -> bool, load: (V, seq<string>) --> (LoadResult, V),
                                                 vs: seq<V>, rows: seq<seq<string>>, j: nat)
    requires Loader(valid, load) && forall i :: 0 <= i < |vs| ==> valid(vs[i])
    requires j <= |rows|
    ensures Restore(valid, load, vs, rows[..j]).unmatched <= Restore(valid, load, vs, rows).unmatched
    decreases |rows|
  {
    if j < |rows| {
      var k := |rows| - 1;
      RestoreReportsGrow(valid, load, vs, rows[..k], j);
      assert rows[..k][..j] == rows[..j];
    } else {
      assert rows[..j] == rows;
    }
  }

  /** Once a restore has failed, the rows after do not matter. */
  lemma {:induction false} RestoreStops<V(!new)>(valid: V -> bool, load: (V, seq<string>) --> (LoadResult, V),
                                           vs: seq<V>, rows: seq<seq<string>>, j: nat)
    requires Loader(valid, load) && forall i :: 0 <= i < |vs| ==> valid(vs[i])
    requires j <= |rows| && Restore(valid, load, vs, rows[..j]).failure.Some?
    ensures Restore(valid, load, vs, rows) == Restore(valid, load, vs, rows[..j])
    decreases |rows|
  {
    if j < |rows| {
      var n := |rows| - 1;
      assert rows[..n][..j] == rows[..j];
      RestoreStops(valid, load, vs, rows[..n], j);
    } else {
      assert rows[..j] == rows;
    }
  }

  /**
    Saving then restoring: when no answer is withheld for anonymity and
    every question's row reads back, restoring the saved rows reports
    nothing and changes nothing.
  */
  lemma SaveThenResume(vs: seq<WidgetValue>)
    requires |vs| >= 2 && forall i :: 0 <= i < |vs| ==> vs[i].Valid() && RoundTrips(vs[i])
    requires !Anonymous(vs)
    ensures Resume(vs, SavedRows(vs)) == Progress(vs, [], None)
  {
    var rows := SavedRows(vs);
    forall k | 0 <= k < |rows| ensures LoadRow(vs[k], rows[k]) == (Loaded, vs[k]) {
      RoundTrip(vs[k]);
    }
    LoadRowLoader();
    RestoreRowwise(IsValid, LoadRow, vs, rows);
    var p := Resume(vs, rows);
    assert p.values == vs;
  }

  /**
    An anonymous save leaves out question 1's row, but a restore still
    gives the first row to question 1: unless its text is question 2's,
    row 1 is reported unmatched.
  */
  lemma AnonymousSaveMisaligns(vs: seq<WidgetValue>)
    requires |vs| >= 2 && forall i :: 0 <= i < |vs| ==> vs[i].Valid()
    requires Anonymous(vs)
    requires vs[0].Question() != PyText.Strip(vs[1].Question())
    ensures |Resume(vs, SavedRows(vs)).unmatched| >= 1
    ensures Resume(vs, SavedRows(vs)).unmatched[0] == 1
  {
    var rows := SavedRows(vs);
    EncodeFieldsParts(vs[1].Question(), Answers(vs[1]));
    assert rows[0] == Row(vs[1]);
    assert CheckQuestionField(rows[0][0], vs[0].Question()) != Matched;
    assert LoadRow(vs[0], rows[0]).0.Rejected? by {
      assert |rows[0]| >= 2;
    }
    LoadRowLoader();
    assert rows[..1][..0] == [];
    assert Restore(IsValid, LoadRow, vs, rows[..1]).unmatched == [1];
    RestoreReportsGrow(IsValid, LoadRow, vs, rows, 1);
  }

  // ---------------------------------------------------------------- the survey object

  /**
    The survey window. The questions are held as the states of their
    widgets; each widget class is proved against the same state functions.
  */
  class SurveyQuestionnaire {
    var questions: seq<WidgetValue>   // the state of each question widget, in order
    var currentNum: nat               // index of the question on screen
    var buttons: Buttons

    ghost predicate Valid()
      reads this
    {
      && |questions| >= 1
      && currentNum < |questions|
      && buttons == ButtonsFor(currentNum, |questions|)
      && forall i :: 0 <= i < |questions| ==> questions[i].Valid()
    }

    constructor (qs: seq<WidgetValue>)
      requires |qs| >= 1 && forall i :: 0 <= i < |qs| ==> qs[i].Valid()
      ensures Valid() && questions == qs && currentNum == 0
    {
      questions := qs;
      currentNum := 0;
      buttons := ButtonsFor(0, |qs|);
    }

    /** Opening the survey: one question per item, numbered from 1; the first question is current. */
    static method Open(items: seq<SurveyItem>) returns (r: Result<SurveyQuestionnaire, OpenError>)
      ensures r.Ok? <==> Generate(items).Ok?
      ensures r.Err? ==> r.error == Generate(items).error
      ensures r.Ok? ==> fresh(r.value) && r.value.Valid()
      ensures r.Ok? ==> r.value.questions == Generate(items).value && r.value.currentNum == 0
    {
      if |items| == 0 {
        return Err(NoQuestions);
      }
      var qs: seq<WidgetValue> := [];
      for i := 0 to |items|
        invariant Generated(items[..i]) == Ok(qs)
        invariant forall j :: 0 <= j < |qs| ==> qs[j].Valid()
      {
        assert items[..i + 1][..i] == items[..i] && items[..i + 1][i] == items[i];
        var q := InitialValue(i + 1, items[i]);
        assert Generated(items[..i + 1]) == if q.Err? then Err(BadItem(i, q.error)) else Ok(qs + [q.value]);
        if q.Err? {
          BuildStops(InitialValue, items, i + 1);
          return Err(BadItem(i, q.error));
        }
        qs := qs + [q.value];
      }
      assert items[..|items|] == items;
      var survey := new SurveyQuestionnaire(qs);
      return Ok(survey);
    }

    /** `_setNavigationButtonStatus`. */
    method SetNavigationButtonStatus()
      modifies this`buttons
      ensures buttons == ButtonsFor(currentNum, |questions|)
    {
      var back := currentNum != 0;
      var forward := currentNum != |questions| - 1;
      buttons := Buttons(back, back, forward, forward);
    }

    /** `_checkCurrentQuestionUnanswered`: the notice for the current question, confirming a slider if accepted. */
    method CheckCurrentQuestionUnanswered(accepted: bool) returns (notice: Notice)
      requires Valid()
      modifies this`questions
      ensures Valid()
      ensures (notice, questions[currentNum]) == Gate(old(questions)[currentNum], accepted)
      ensures questions == old(questions)[currentNum := Gate(old(questions)[currentNum], accepted).1]
    {
      var q := questions[currentNum];
      if q.SliderV? {
        if !q.slider.slid {
          notice := SliderPrompt;
          if accepted {
            questions := questions[currentNum := SliderV(q.slider.(slid := true))];
          }
        } else {
          notice := Quiet;
        }
      } else {
        var answers := Answers(q);
        if answers == [None] {
          notice := UnansweredNotice;
        } else if q.DropDownV? && answers == [Some(UNANSWERED)] {
          notice := UnansweredNotice;
        } else if q.OpenV? && answers == [Some("")] {
          notice := UnansweredNotice;
        } else {
          notice := Quiet;
        }
      }
    }

    /** `toQuestion(k)`: check the question being left, then make question `k` current. */
    method ToQuestion(k: nat, accepted: bool) returns (notice: Notice)
      requires Valid() && k < |questions|
      modifies this
      ensures Valid() && currentNum == k
      ensures questions == old(questions)[old(currentNum) := Gate(old(questions)[old(currentNum)], accepted).1]
      ensures notice == Gate(old(questions)[old(currentNum)], accepted).0
    {
      notice := CheckCurrentQuestionUnanswered(accepted);
      currentNum := k;
      SetNavigationButtonStatus();
    }

    method ToFirstQuestion(accepted: bool) returns (notice: Notice)
      requires Valid()
      modifies this
      ensures Valid() && currentNum == 0 && !buttons.prev && !buttons.toFirst
      ensures questions == old(questions)[old(currentNum) := Gate(old(questions)[old(currentNum)], accepted).1]
      ensures notice == Gate(old(questions)[old(currentNum)], accepted).0
    {
      notice := ToQuestion(0, accepted);
    }

    method ToLastQuestion(accepted: bool) returns (notice: Notice)
      requires Valid()
      modifies this
      ensures Valid() && currentNum == |questions| - 1 && !buttons.next && !buttons.toLast
      ensures questions == old(questions)[old(currentNum) := Gate(old(questions)[old(currentNum)], accepted).1]
      ensures notice == Gate(old(questions)[old(currentNum)], accepted).0
    {
      notice := ToQuestion(|questions| - 1, accepted);
    }

    /** The Prev button, which is enabled only past the first question. */
    method ToPrevQuestion(accepted: bool) returns (notice: Notice)
      requires Valid() && buttons.prev
      modifies this
      ensures Valid() && currentNum == old(currentNum) - 1
      ensures questions == old(questions)[old(currentNum) := Gate(old(questions)[old(currentNum)], accepted).1]
      ensures notice == Gate(old(questions)[old(currentNum)], accepted).0
    {
      notice := ToQuestion(currentNum - 1, accepted);
    }

    /** The Next button, which is enabled only before the last question. */
    method ToNextQuestion(accepted: bool) returns (notice: Notice)
      requires Valid() && buttons.next
      modifies this
      ensures Valid() && currentNum == old(currentNum) + 1
      ensures questions == old(questions)[old(currentNum) := Gate(old(questions)[old(currentNum)], accepted).1]
      ensures notice == Gate(old(questions)[old(currentNum)], accepted).0
    {
      notice := ToQuestion(currentNum + 1, accepted);
    }

    /** `_saveSurveyProgress`: the text written to the chosen file. */
    method SaveProgress() returns (text: Option<string>)
      requires Valid()
      ensures text == SaveText(questions)
    {
      if |questions| < 2 {
        return None;     // the anonymity test at index 0 reads question 2
      }
      var second := Answers(questions[1]);
      var from := if second[0] == Some("yes") then 1 else 0;
      var s := "";
      for idx := from to |questions|
        invariant s == Lines(RowsBetween(questions, from, idx))
      {
        var q := questions[idx];
        var row := CsvRow.ToCSV(q.Question(), Answers(q));
        RowsBetweenGrow(questions, from, idx);
        LinesGrow(RowsBetween(questions, from, idx), Row(q));
        s := s + row;
      }
      return Some(s);
    }

    /** `_resumeSurveyProgress`: the rows of the chosen file, in order, loaded into the questions. */
    method ResumeProgress(rows: seq<seq<string>>) returns (unmatched: seq<nat>, failure: Option<Failure>)
      requires Valid()
      modifies this`questions
      ensures Valid()
      ensures Resume(old(questions), rows) == Progress(questions, unmatched, failure)
    {
      LoadRowLoader();
      var p := LoadRows(IsValid, LoadRow, questions, rows);
      questions, unmatched, failure := p.values, p.unmatched, p.failure;
    }
  }

  /**
    The loop of `_resumeSurveyProgress`, with each question's `fromCSV`
    given as `load`: one row after the other until the rows run out or a
    row raises.
  */
  method LoadRows<V(!new)>(valid: V -> bool, load: (V, seq<string>) --> (LoadResult, V),
                           vs: seq<V>, rows: seq<seq<string>>) returns (p: Progress<V>)
    requires Loader(valid, load) && forall i :: 0 <= i < |vs| ==> valid(vs[i])
    ensures p == Restore(valid, load, vs, rows)
  {
    var values: seq<V>, unmatched: seq<nat> := vs, [];
    for counter := 0 to |rows|
      invariant Restore(valid, load, vs, rows[..counter]) == Progress(values, unmatched, None)
    {
      assert rows[..counter + 1][..counter] == rows[..counter];
      if counter >= |values| {
        p := Progress(values, unmatched, Some(TooManyRows(counter + 1)));
        RestoreStops(valid, load, vs, rows, counter + 1);
        return;
      }
      var (r, v) := load(values[counter], rows[counter]);
      if r == NotANumber {
        p := Progress(values, unmatched, Some(NotANumberIn(counter + 1)));
        RestoreStops(valid, load, vs, rows, counter + 1);
        return;
      } else if r == Loaded {
        values := values[counter := v];
      } else {
        unmatched := unmatched + [counter + 1];
      }
    }
    assert rows[..|rows|] == rows;
    p := Progress(values, unmatched, None);
  }
}
