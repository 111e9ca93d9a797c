/**
  The six question widgets seen together: the survey keeps one list of
  widgets of mixed types and calls `getAnswers`, `toCSV` and `fromCSV` on
  each without knowing which type it is.

  `Widget` holds one widget object; `WidgetValue` is the value of its
  state. The survey file gives each question as a `SurveyItem`, from
  which `createQuestionWidget` builds the widget.
*/
module Widgets {
  import opened Wrappers
  import opened CsvRow
  import MultiSingle
  import MultiMulti
  import OpenEnded
  import DropDown
  import Slider
  import RatingScale

  /** The state of one question, whatever its type. */
  datatype WidgetValue =
    | SingleV(single: MultiSingle.State)
    | MultiV(multi: MultiMulti.State)
    | OpenV(open: OpenEnded.State)
    | DropDownV(dropDown: DropDown.State)
    | SliderV(slider: Slider.State)
    | RatingV(rating: RatingScale.State)
  {
    predicate Valid() {
      match this
      case SingleV(s) => s.Valid()
      case MultiV(s) => s.Valid()
      case OpenV(_) => true
      case DropDownV(s) => s.Valid()
      case SliderV(_) => true
      case RatingV(s) => s.Valid()
    }

    /** Whether two values are states of the same widget type. */
    predicate SameKind(other: WidgetValue) {
      match this
      case SingleV(_) => other.SingleV?
      case MultiV(_) => other.MultiV?
      case OpenV(_) => other.OpenV?
      case DropDownV(_) => other.DropDownV?
      case SliderV(_) => other.SliderV?
      case RatingV(_) => other.RatingV?
    }

    function Question(): string {
      match this
      case SingleV(s) => s.question
      case MultiV(s) => s.question
      case OpenV(s) => s.question
      case DropDownV(s) => s.question
      case SliderV(s) => s.question
      case RatingV(s) => s.question
    }

    function Number(): int {
      match this
      case SingleV(s) => s.num
      case MultiV(s) => s.num
      case OpenV(s) => s.num
      case DropDownV(s) => s.num
      case SliderV(s) => s.num
      case RatingV(s) => s.num
    }
  }

  /** `getAnswers()` of any widget: never empty. */
  function Answers(v: WidgetValue): (r: seq<Cell>)
    requires v.Valid()
    ensures |r| >= 1
    ensures !v.MultiV? ==> |r| == 1
  {
    match v
    case SingleV(s) => MultiSingle.Answers(s)
    case MultiV(s) =>
      var a := MultiMulti.Answers(s);
      assert a == [None] || |a| >= 1;
      a
    case OpenV(s) => OpenEnded.Answers(s)
    case DropDownV(s) => DropDown.Answers(s)
    case SliderV(s) => Slider.Answers(s)
    case RatingV(s) => RatingScale.Answers(s)
  }

  /** The fields of the row `toCSV()` writes for a widget. */
  function Row(v: WidgetValue): seq<string>
    requires v.Valid()
  {
    EncodeFields(v.Question(), Answers(v))
  }

  /**
    `fromCSV(data)` of any widget: the widget keeps its type and question,
    and changes only when the row is loaded.
  */
  function LoadRow(v: WidgetValue, data: seq<string>): (r: (LoadResult, WidgetValue))
    requires v.Valid()
    ensures r.1.Valid() && v.SameKind(r.1)
    ensures r.1.Question() == v.Question() && r.1.Number() == v.Number()
    ensures r.0 != Loaded ==> r.1 == v
  {
    match v
    case SingleV(s) => var (res, s') := MultiSingle.LoadRow(s, data); (res, SingleV(s'))
    case MultiV(s) => var (res, s') := MultiMulti.LoadRow(s, data); (res, MultiV(s'))
    case OpenV(s) => var (res, s') := OpenEnded.LoadRow(s, data); (res, OpenV(s'))
    case DropDownV(s) => var (res, s') := DropDown.LoadRow(s, data); (res, DropDownV(s'))
    case SliderV(s) => var (res, s') := Slider.LoadRow(s, data); (res, SliderV(s'))
    case RatingV(s) => var (res, s') := RatingScale.LoadRow(s, data); (res, RatingV(s'))
  }

  /** A question of the text-answer kinds never raises while loading; only sliders and ratings call `int()`. */
  lemma OnlyNumbersRaise(v: WidgetValue, data: seq<string>)
    requires v.Valid() && !v.SliderV? && !v.RatingV?
    ensures LoadRow(v, data).0 != NotANumber
  {
  }

  /** The widgets whose saved row reads back unchanged, type by type. */
  predicate RoundTrips(v: WidgetValue) {
    match v
    case SingleV(s) => MultiSingle.RoundTrips(s)
    case MultiV(s) => MultiMulti.RoundTrips(s)
    case OpenV(s) => RestorableText(s.question) && PyText.Unpadded(s.text)
    case DropDownV(s) => DropDown.RoundTrips(s)
    case SliderV(s) => Slider.RoundTrips(s)
    case RatingV(s) => RatingScale.RoundTrips(s)
  }

  /** Loading the row a widget writes accepts it and leaves the widget as it was. */
  lemma RoundTrip(v: WidgetValue)
    requires v.Valid() && RoundTrips(v)
    ensures LoadRow(v, Row(v)) == (Loaded, v)
  {
    match v
    case SingleV(s) => MultiSingle.RoundTrip(s);
    case MultiV(s) => MultiMulti.RoundTrip(s);
    case OpenV(s) => OpenEnded.UnpaddedRoundTrip(s);
    case DropDownV(s) => DropDown.RoundTrip(s);
    case SliderV(s) => Slider.RoundTrip(s);
    case RatingV(s) => RatingScale.RoundTrip(s);
  }

  /** One widget object of the survey, of one of the six types. */
  datatype Widget =
    | SingleW(single: MultiSingle.MultiSingleQuestion)
    | MultiW(multi: MultiMulti.MultiMultiQuestion)
    | OpenW(open: OpenEnded.OpenEndedQuestion)
    | DropDownW(dropDown: DropDown.DropDownQuestion)
    | SliderW(slider: Slider.SliderQuestion)
    | RatingW(rating: RatingScale.RatingScaleQuestion)
  {
    function Obj(): object {
      match this
      case SingleW(o) => o
      case MultiW(o) => o
      case OpenW(o) => o
      case DropDownW(o) => o
      case SliderW(o) => o
      case RatingW(o) => o
    }

    ghost predicate Valid()
      reads Obj()
    {
      match this
      case SingleW(o) => o.Valid()
      case MultiW(o) => o.Valid()
      case OpenW(_) => true
      case DropDownW(o) => o.Valid()
      case SliderW(_) => true
      case RatingW(o) => o.Valid()
    }

    function Value(): (v: WidgetValue)
      reads Obj()
    {
      match this
      case SingleW(o) => SingleV(o.Value())
      case MultiW(o) => MultiV(o.Value())
      case OpenW(o) => OpenV(o.Value())
      case DropDownW(o) => DropDownV(o.Value())
      case SliderW(o) => SliderV(o.Value())
      case RatingW(o) => RatingV(o.Value())
    }
  }

  /** A valid widget object has a valid state. */
  lemma ValidValue(w: Widget)
    requires w.Valid()
    ensures w.Value().Valid()
  {
  }

  method GetAnswers(w: Widget) returns (answers: seq<Cell>)
    requires w.Valid()
    ensures w.Value().Valid() && answers == Answers(w.Value())
  {
    match w
    case SingleW(o) => answers := o.GetAnswers();
    case MultiW(o) => answers := o.GetAnswers();
    case OpenW(o) => answers := o.GetAnswers();
    case DropDownW(o) => answers := o.GetAnswers();
    case SliderW(o) => answers := o.GetAnswers();
    case RatingW(o) => answers := o.GetAnswers();
  }

  /** `toCSV()`: the widget's row, written from its current answers. */
  method ToCSV(w: Widget) returns (row: string)
    requires w.Valid()
    ensures w.Value().Valid() && row == RowText(w.Value().Question(), Answers(w.Value()))
  {
    var answers := GetAnswers(w);
    var question := match w
      case SingleW(o) => o.question
      case MultiW(o) => o.question
      case OpenW(o) => o.question
      case DropDownW(o) => o.question
      case SliderW(o) => o.question
      case RatingW(o) => o.question;
    row := CsvRow.ToCSV(question, answers);
  }

  method FromCSV(w: Widget, data: seq<string>) returns (r: LoadResult)
    requires w.Valid()
    modifies w.Obj()
    ensures w.Valid() && old(w.Value()).Valid()
    ensures (r, w.Value()) == LoadRow(old(w.Value()), data)
  {
    match w
    case SingleW(o) => r := o.FromCSV(data);
    case MultiW(o) => r := o.FromCSV(data);
    case OpenW(o) => r := o.FromCSV(data);
    case DropDownW(o) => r := o.FromCSV(data);
    case SliderW(o) => r := o.FromCSV(data);
    case RatingW(o) => r := o.FromCSV(data);
  }

  /** A value in the survey file's `choices` column: a text or an integer. */
  datatype Choice = Text(text: string) | Int(n: int)

  /** One row of the survey file: question text, type name, image names and choices. */
  datatype SurveyItem = SurveyItem(text: string, kind: string, images: seq<string>, choices: seq<Choice>)

  /** Why `createQuestionWidget` raises. */
  datatype CreateError =
    | UnsupportedType(kind: string)   // a type name none of the six
    | MalformedChoices                // too few choices, or of the wrong kind
    | ZeroStep                        // a rating step of 0: `range` rejects it

  predicate AllTexts(cs: seq<Choice>) {
    forall i :: 0 <= i < |cs| ==> cs[i].Text?
  }

  function Texts(cs: seq<Choice>): (r: seq<string>)
    requires AllTexts(cs)
    ensures |r| == |cs| && forall i :: 0 <= i < |cs| ==> r[i] == cs[i].text
  {
    seq(|cs|, i requires 0 <= i < |cs| => cs[i].text)
  }

  /**
    `createQuestionWidget(num, item)`: the new widget's state, chosen by the
    item's type name, or the reason construction fails.
  */
  function InitialValue(num: int, item: SurveyItem): (r: Result<WidgetValue, CreateError>)
    ensures r.Ok? ==> r.value.Valid() && r.value.Question() == item.text && r.value.Number() == num
    ensures r == Err(UnsupportedType(item.kind)) <==>
      item.kind !in {"multi_multi", "multi_single", "open", "dropdown", "slider", "rating"}
    ensures item.kind == "multi_multi" ==>
      && (r.Ok? <==> AllTexts(item.choices))
      && (r.Ok? ==> r.value.MultiV? && r.value.multi.choices == Texts(item.choices) &&
                    MultiMulti.Answers(r.value.multi) == [None])
    ensures item.kind == "multi_single" ==>
      && (r.Ok? <==> AllTexts(item.choices))
      && (r.Ok? ==> r.value.SingleV? && r.value.single.choices == Texts(item.choices) &&
                    MultiSingle.Answers(r.value.single) == [None])
    ensures item.kind == "open" ==>
      r.Ok? && r.value.OpenV? && OpenEnded.Answers(r.value.open) == [Some("")]
    ensures item.kind == "dropdown" ==>
      && (r.Ok? <==> AllTexts(item.choices))
      && (r.Ok? ==> r.value.DropDownV? && r.value.dropDown.choices == [UNANSWERED] + Texts(item.choices) &&
                    DropDown.Answers(r.value.dropDown) == [None])
    ensures item.kind == "slider" ==>
      && (r.Ok? <==> |item.choices| >= 2 && item.choices[0].Int? && item.choices[1].Int?)
      && (r.Ok? ==> r.value.SliderV? &&
                    Slider.Choices(r.value.slider) == [item.choices[0].n, item.choices[1].n] &&
                    Slider.Answers(r.value.slider) == [None])
    ensures item.kind == "rating" ==>
      && (r.Ok? <==> |item.choices| >= 3 && item.choices[0].Int? && item.choices[1].Int? &&
                     item.choices[2].Int? && item.choices[2].n != 0)
      && (r == Err(ZeroStep) <==> |item.choices| >= 3 && item.choices[0].Int? && item.choices[1].Int? &&
                                  item.choices[2] == Int(0))
      && (r.Ok? ==> r.value.RatingV? &&
                    RatingScale.Choices(r.value.rating) ==
                      [item.choices[0].n, item.choices[1].n, item.choices[2].n] &&
                    RatingScale.Answers(r.value.rating) == [None])
  {
    var cs := item.choices;
    if item.kind == "multi_multi" then
      if AllTexts(cs) then Ok(MultiV(MultiMulti.Initial(num, item.text, item.images, Texts(cs))))
      else Err(MalformedChoices)
    else if item.kind == "multi_single" then
      if AllTexts(cs) then Ok(SingleV(MultiSingle.Initial(num, item.text, item.images, Texts(cs))))
      else Err(MalformedChoices)
    else if item.kind == "open" then
      Ok(OpenV(OpenEnded.Initial(num, item.text, item.images)))
    else if item.kind == "dropdown" then
      if AllTexts(cs) then Ok(DropDownV(DropDown.Initial(num, item.text, item.images, Texts(cs))))
      else Err(MalformedChoices)
    else if item.kind == "slider" then
      if |cs| >= 2 && cs[0].Int? && cs[1].Int? then
        Ok(SliderV(Slider.Initial(num, item.text, item.images, cs[0].n, cs[1].n)))
      else Err(MalformedChoices)
    else if item.kind == "rating" then
      if |cs| >= 3 && cs[0].Int? && cs[1].Int? && cs[2].Int? then
        if cs[2].n == 0 then Err(ZeroStep)
        else Ok(RatingV(RatingScale.Initial(num, item.text, item.images, cs[0].n, cs[1].n, cs[2].n)))
      else Err(MalformedChoices)
    else Err(UnsupportedType(item.kind))
  }

  /** A freshly built question has no answer yet: `[None]`, or an empty text for an open question. */
  lemma InitialUnanswered(num: int, item: SurveyItem)
    requires InitialValue(num, item).Ok?
    ensures Answers(InitialValue(num, item).value) == if item.kind == "open" then [Some("")] else [None]
  {
  }

  method CreateQuestionWidget(num: int, item: SurveyItem) returns (r: Result<Widget, CreateError>)
    ensures r.Ok? <==> InitialValue(num, item).Ok?
    ensures r.Err? ==> r.error == InitialValue(num, item).error
    ensures r.Ok? ==> fresh(r.value.Obj()) && r.value.Valid() && r.value.Value() == InitialValue(num, item).value
  {
    var cs := item.choices;
    if item.kind == "multi_multi" {
      if !AllTexts(cs) {
        return Err(MalformedChoices);
      }
      var o := new MultiMulti.MultiMultiQuestion(num, item.text, item.images, Texts(cs));
      return Ok(MultiW(o));
    } else if item.kind == "multi_single" {
      if !AllTexts(cs) {
        return Err(MalformedChoices);
      }
      var o := new MultiSingle.MultiSingleQuestion(num, item.text, item.images, Texts(cs));
      return Ok(SingleW(o));
    } else if item.kind == "open" {
      var o := new OpenEnded.OpenEndedQuestion(num, item.text, item.images);
      return Ok(OpenW(o));
    } else if item.kind == "dropdown" {
      if !AllTexts(cs) {
        return Err(MalformedChoices);
      }
      var o := new DropDown.DropDownQuestion(num, item.text, item.images, Texts(cs));
      return Ok(DropDownW(o));
    } else if item.kind == "slider" {
      if !(|cs| >= 2 && cs[0].Int? && cs[1].Int?) {
        return Err(MalformedChoices);
      }
      var o := new Slider.SliderQuestion(num, item.text, item.images, cs[0].n, cs[1].n);
      return Ok(SliderW(o));
    } else if item.kind == "rating" {
      if !(|cs| >= 3 && cs[0].Int? && cs[1].Int? && cs[2].Int?) {
        return Err(MalformedChoices);
      } else if cs[2].n == 0 {
        return Err(ZeroStep);
      }
      var o := new RatingScale.RatingScaleQuestion(num, item.text, item.images, cs[0].n, cs[1].n, cs[2].n);
      return Ok(RatingW(o));
    }
    return Err(UnsupportedType(item.kind));
  }
}
