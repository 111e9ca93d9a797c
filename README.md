# Qualitative survey: question widgets, answer rows, navigation and progress files

This project models the core of the SlicerSurvey qualitative-survey module in
Dafny. The survey reads a questionnaire in which every question has a text, a
type, images and choices. It shows one question widget at a time, with four
navigation buttons (To First, Prev, Next, To Last). It can save the answers to
a CSV progress file and load them back.

The model covers two parts of the module.

**The six question widgets** (`SurveyUI.py`):
- single choice;
- multiple choice;
- open-ended;
- drop-down;
- slider;
- rating scale.

Each widget is a Dafny `class` whose fields are the widget's state: the
question, its choices, the button labels, which button is checked, the slider
position and whether it was moved, and so on. Each class also has a value
`datatype State`.

Pure functions on `State` specify `getAnswers`, `setAnswer`, `setChoices` and
`fromCSV`. Every method of the class is proved to leave `Value()` equal to
that function applied to the old state. The properties (round trips,
idempotence, what loading accepts and rejects) are lemmas about these
functions.

The row format shared by all widgets is in `CsvRow`:
- `toCSV`: one quoted field for the question, then one per answer, with a
  leading `'` on each, and `Question Unanswered` for a missing answer;
- the two field checks that every `fromCSV` starts with.

**The questionnaire** (`SurveyQuestionnaire.py`):
- building the widgets from the questionnaire's items;
- the navigation buttons and moving between questions;
- the "question not answered" check made before leaving a question;
- saving progress, which skips the name question when question 2 is answered
  "yes";
- resuming progress, row by row, and reporting the rows that do not match.

`SurveyQuestionnaire` is a class over the list of question states, the
current index and the four button flags.

Saving and resuming are specified by `SaveText` and `Resume`. `Resume` is an
instance of the generic row-by-row loader `Restore`. Two lemmas tie them
together:
- `SaveThenResume`: loading what was saved restores every question;
- `AnonymousSaveMisaligns`: an anonymous save shifts every row by one.

Python's `str.strip`, `str(int)`, `int(str)`, `list.index` and `range` are
modelled in `PyText` and `PyList`, with the properties the survey relies on.
For example, `int(str(n)) == n`, and which values `range` produces.

Some Qt behaviour is assumed rather than modelled:
- Assigning `currentText` to the non-editable drop-down selects the first item
  that shows that text, and does nothing when no item does.
- Checking a radio button in the exclusive group unchecks the others, so the
  last matching button stays checked.
- A slider's value-changed signal fires only when the value really changes.
  Only the signal sets `slid`.

## Model

| member | source | states |
|---|---|---|
| PyText.Strip | QualitativeSurvey/SurveyLoader/Resources/Lib/SurveyUI.py:64 | `strip()` leaves no whitespace at either end and changes nothing in a text that has none |
| PyText.StripSlice | QualitativeSurvey/SurveyLoader/Resources/Lib/SurveyUI.py:71 | what `strip()` keeps is a contiguous slice of the input with only whitespace cut off around it |
| PyText.StripBlank | QualitativeSurvey/SurveyLoader/Resources/Lib/SurveyUI.py:71 | a text made only of whitespace strips to the empty text |
| PyText.IntToString | QualitativeSurvey/SurveyLoader/Resources/Lib/SurveyUI.py:395 | `str(n)` is non-empty, unpadded, and starts with `-` exactly when `n` is negative |
| PyText.ParseIntToString | QualitativeSurvey/SurveyLoader/Resources/Lib/SurveyUI.py:438 | `int(str(n)) == n` for every integer |
| PyText.ParseIntNeedsDigits | QualitativeSurvey/SurveyLoader/Resources/Lib/SurveyUI.py:438 | `int()` raises on a text that contains no digit |
| PyList.FirstIndex | QualitativeSurvey/SurveyLoader/Resources/Lib/SurveyUI.py:208 | `list.index`: absent exactly when the value is not in the list; otherwise a position holding it with no earlier one |
| PyList.LastIndex | QualitativeSurvey/SurveyLoader/Resources/Lib/SurveyUI.py:132-134 | the position a loop over every match leaves: absent exactly when the value is missing, otherwise the last position holding it |
| PyList.FirstIndexIs | QualitativeSurvey/SurveyLoader/Resources/Lib/SurveyUI.py:208 | a position holding the value with no earlier match is what `list.index` returns |
| PyList.FirstIndexDistinct | QualitativeSurvey/SurveyLoader/Resources/Lib/SurveyUI.py:208 | in a list without repeats, `index` of the element at `k` is `k` |
| PyList.PyRangeUp | QualitativeSurvey/SurveyLoader/Resources/Lib/SurveyUI.py:472 | with a positive step, `range` counts up from `start` by `step`, strictly increasing and below `stop` |
| PyList.PyRangeLattice | QualitativeSurvey/SurveyLoader/Resources/Lib/SurveyUI.py:472 | with a positive step, `v` is in `range(start, stop, step)` iff `start <= v < stop` and `v - start` is a multiple of `step` |
| PyList.PyRangeDown | QualitativeSurvey/SurveyLoader/Resources/Lib/SurveyUI.py:472 | with a negative step, every element of the range lies in `(stop, start]` |
| CsvRow.ToCSV | QualitativeSurvey/SurveyLoader/Resources/Lib/SurveyUI.py:63-73 | the row written is the quoted fields joined by commas, with the trailing comma dropped and one newline added |
| CsvRow.EncodeFieldsParts | QualitativeSurvey/SurveyLoader/Resources/Lib/SurveyUI.py:64-72 | the first field is the marker plus the stripped question; the answer fields are the sentinel for `None` or `''`, else the marker plus the stripped answer |
| CsvRow.RowTextShape | QualitativeSurvey/SurveyLoader/Resources/Lib/SurveyUI.py:73 | a row is the joined fields plus exactly one newline, with one field per answer after the question field |
| CsvRow.JoinedShape | QualitativeSurvey/SurveyLoader/Resources/Lib/SurveyUI.py:65-73 | the joined fields start and end with a double quote: dropping the last comma leaves no separator behind |
| CsvRow.CheckQuestionField | QualitativeSurvey/SurveyLoader/Resources/Lib/SurveyUI.py:75-83 | the question field matches iff the question is non-empty and the field is the marker plus the question; it is malformed iff shorter than 2 or unmarked |
| CsvRow.CheckAnswerField | QualitativeSurvey/SurveyLoader/Resources/Lib/SurveyUI.py:85-93 | the sentinel reads as `""`; a field shorter than 2, or neither the sentinel nor marked, is rejected; any other field is the marker plus its answer |
| CsvRow.DecodeRow | QualitativeSurvey/SurveyLoader/Resources/Lib/SurveyUI.py:148-156 | a row is accepted iff it has two fields, its question matches and its answer field is well formed; a wrong field count is reported as such |
| CsvRow.QuestionFieldRoundTrip | QualitativeSurvey/SurveyLoader/Resources/Lib/SurveyUI.py:64-83 | the question field written for a non-empty, unpadded question matches that question when read back |
| CsvRow.PaddedQuestionNeverMatches | QualitativeSurvey/SurveyLoader/Resources/Lib/SurveyUI.py:64-81 | a question with whitespace at either end is written stripped but compared unstripped, so its rows never load |
| CsvRow.AnswerFieldRoundTrip | QualitativeSurvey/SurveyLoader/Resources/Lib/SurveyUI.py:67-93 | an unpadded answer, `None` or `''` reads back as the answer, or as `""` for the last two |
| CsvRow.AnswerFieldReadBack | QualitativeSurvey/SurveyLoader/Resources/Lib/SurveyUI.py:71-93 | a non-empty answer reads back as its stripped text, except that a blank one is written as a lone marker and rejected |
| CsvRow.DecodeEncodedRow | QualitativeSurvey/SurveyLoader/Resources/Lib/SurveyUI.py:63-93 | a one-answer row written by `toCSV` passes the checks of `fromCSV` and yields the answer written |
| MultiSingle.Initial | QualitativeSurvey/SurveyLoader/Resources/Lib/SurveyUI.py:101-120 | a new single-choice question has one button per choice and no answer |
| MultiSingle.Answers | QualitativeSurvey/SurveyLoader/Resources/Lib/SurveyUI.py:122-124 | one entry, which is `None` exactly when no button is checked |
| MultiSingle.Select | QualitativeSurvey/SurveyLoader/Resources/Lib/SurveyUI.py:126-135 | accepted iff the answer is a choice; only the checked button changes; a choice no button shows changes nothing; an accepted shown answer is what `getAnswers` reports; re-selecting the current answer changes nothing, and otherwise the last button showing the answer becomes checked |
| MultiSingle.SelectIdempotent | QualitativeSurvey/SurveyLoader/Resources/Lib/SurveyUI.py:126-135 | setting the same answer twice has the effect of setting it once |
| MultiSingle.Relabel | QualitativeSurvey/SurveyLoader/Resources/Lib/SurveyUI.py:137-145 | accepted iff the new list has one label per button; then exactly the labels change, otherwise nothing |
| MultiSingle.RelabelRenamesAnswer | QualitativeSurvey/SurveyLoader/Resources/Lib/SurveyUI.py:122-145 | after relabelling, the checked button reports its new label |
| MultiSingle.LoadRow | QualitativeSurvey/SurveyLoader/Resources/Lib/SurveyUI.py:147-163 | a row loads iff it decodes and its answer is the sentinel or a choice; the sentinel leaves the state as it is; a loaded answer is selected as `setAnswer` does, and a shown one is then what `getAnswers` reports; a row that does not load changes nothing |
| MultiSingle.RoundTrip | QualitativeSurvey/SurveyLoader/Resources/Lib/SurveyUI.py:147-163 | loading the row `toCSV` writes is accepted and restores the state |
| MultiSingle.MultiSingleQuestion.constructor | QualitativeSurvey/SurveyLoader/Resources/Lib/SurveyUI.py:101-103 | the new widget is in the initial state |
| MultiSingle.MultiSingleQuestion.GetAnswers | QualitativeSurvey/SurveyLoader/Resources/Lib/SurveyUI.py:122-124 | returns `Answers` of the state |
| MultiSingle.MultiSingleQuestion.SetAnswer | QualitativeSurvey/SurveyLoader/Resources/Lib/SurveyUI.py:126-135 | the button loop leaves the state and the result that `Select` gives |
| MultiSingle.MultiSingleQuestion.SetChoices | QualitativeSurvey/SurveyLoader/Resources/Lib/SurveyUI.py:137-145 | the relabelling loop leaves the state and the result that `Relabel` gives |
| MultiSingle.MultiSingleQuestion.FromCSV | QualitativeSurvey/SurveyLoader/Resources/Lib/SurveyUI.py:147-163 | the state and result are those of `LoadRow` |
| MultiMulti.Initial | QualitativeSurvey/SurveyLoader/Resources/Lib/SurveyUI.py:167-189 | a new multiple-choice question has one unticked box per choice and no answer |
| MultiMulti.Selected | QualitativeSurvey/SurveyLoader/Resources/Lib/SurveyUI.py:191-197 | the ticked labels: no more than there are boxes, all of them labels, and empty iff no box is ticked |
| MultiMulti.Answers | QualitativeSurvey/SurveyLoader/Resources/Lib/SurveyUI.py:191-197 | `[None]` exactly when no box is ticked |
| MultiMulti.SelectedDistinct | QualitativeSurvey/SurveyLoader/Resources/Lib/SurveyUI.py:191-197 | with distinct labels, a label is reported iff its box is ticked |
| MultiMulti.Chosen | QualitativeSurvey/SurveyLoader/Resources/Lib/SurveyUI.py:203-211 | one tick per box |
| MultiMulti.ChosenDistinct | QualitativeSurvey/SurveyLoader/Resources/Lib/SurveyUI.py:203-211 | with distinct choices, box `k` is ticked iff its choice is among the answers |
| MultiMulti.Accept | QualitativeSurvey/SurveyLoader/Resources/Lib/SurveyUI.py:199-212 | accepted iff there are no more answers than choices and every answer is a choice; then the ticks are replaced, otherwise nothing changes |
| MultiMulti.AcceptReplaces | QualitativeSurvey/SurveyLoader/Resources/Lib/SurveyUI.py:199-212 | with distinct choices, an accepted answer list ticks exactly the boxes of its answers, clearing the others |
| MultiMulti.AcceptFirstOfDuplicates | QualitativeSurvey/SurveyLoader/Resources/Lib/SurveyUI.py:208-211 | with two choices both `a`, the answers `[a, a]` tick only the first box |
| MultiMulti.DuplicateNeverChosen | QualitativeSurvey/SurveyLoader/Resources/Lib/SurveyUI.py:208-211 | of two boxes with the same label, answers never tick the later one, since `choices.index` finds the earlier |
| MultiMulti.DuplicateNeverLoaded | QualitativeSurvey/SurveyLoader/Resources/Lib/SurveyUI.py:224-245 | a row that changes the question never leaves the later of two same-labelled boxes ticked |
| MultiMulti.ChosenByIndices | QualitativeSurvey/SurveyLoader/Resources/Lib/SurveyUI.py:208-211 | ticking the boxes whose id is among the collected indices ticks the boxes `Chosen` describes |
| MultiMulti.AnswerIndices | QualitativeSurvey/SurveyLoader/Resources/Lib/SurveyUI.py:203-208 | the index loop fails iff some answer is not a choice; otherwise it collects `choices.index(a)` for each answer, in order |
| MultiMulti.Relabel | QualitativeSurvey/SurveyLoader/Resources/Lib/SurveyUI.py:214-222 | accepted iff the new list has one label per box; then exactly the labels change |
| MultiMulti.DecodeAnswers | QualitativeSurvey/SurveyLoader/Resources/Lib/SurveyUI.py:232-243 | if the loop over the answer fields completes, it collects one known choice per field |
| MultiMulti.DecodeAnswersFields | QualitativeSurvey/SurveyLoader/Resources/Lib/SurveyUI.py:232-243 | the loop completes iff every field is a well-formed known choice, and then each collected answer is its field decoded; it stops at the sentinel only when every earlier field is known, and fails only at a field that is neither known nor the sentinel, after known ones |
| MultiMulti.LoadRow | QualitativeSurvey/SurveyLoader/Resources/Lib/SurveyUI.py:224-245 | fewer than two fields or a mismatched question is rejected; for a matched question a bad answer field rejects, the sentinel loads and changes nothing, and a full list of answers loads iff `setAnswer` accepts it, with `setAnswer`'s state; a row that does not load changes nothing; `int()` is never involved |
| MultiMulti.DecodeEncodedAnswers | QualitativeSurvey/SurveyLoader/Resources/Lib/SurveyUI.py:232-243 | the answer fields written for known, unpadded answers decode back to those answers, or stop at an empty one |
| MultiMulti.RoundTrip | QualitativeSurvey/SurveyLoader/Resources/Lib/SurveyUI.py:224-245 | with distinct choices equal to the labels, loading the row `toCSV` writes restores the ticks |
| MultiMulti.SelectionReadsBack | QualitativeSurvey/SurveyLoader/Resources/Lib/SurveyUI.py:191-212 | `setAnswer(getAnswers())` is accepted and ticks the same boxes again |
| MultiMulti.DuplicateChoicesLoseTicks | QualitativeSurvey/SurveyLoader/Resources/Lib/SurveyUI.py:203-245 | with duplicate choices, two ticked boxes save as two answers and load back as one tick |
| MultiMulti.DuplicatesSaved | QualitativeSurvey/SurveyLoader/Resources/Lib/SurveyUI.py:191-197 | two ticked boxes both labelled `a` are reported, and decoded from their row, as `a` twice |
| MultiMulti.MultiMultiQuestion.constructor | QualitativeSurvey/SurveyLoader/Resources/Lib/SurveyUI.py:167-169 | the new widget is in the initial state |
| MultiMulti.MultiMultiQuestion.GetAnswers | QualitativeSurvey/SurveyLoader/Resources/Lib/SurveyUI.py:191-197 | the loop over the boxes returns `Answers` of the state |
| MultiMulti.MultiMultiQuestion.SetAnswer | QualitativeSurvey/SurveyLoader/Resources/Lib/SurveyUI.py:199-212 | the two loops leave the state and the result that `Accept` gives |
| MultiMulti.MultiMultiQuestion.SetChoices | QualitativeSurvey/SurveyLoader/Resources/Lib/SurveyUI.py:214-222 | the relabelling loop leaves the state and the result that `Relabel` gives |
| MultiMulti.MultiMultiQuestion.FromCSV | QualitativeSurvey/SurveyLoader/Resources/Lib/SurveyUI.py:224-245 | the state and result are those of `LoadRow` |
| OpenEnded.Initial | QualitativeSurvey/SurveyLoader/Resources/Lib/SurveyUI.py:249-264 | a new open question has an empty answer box, reported as `['']` |
| OpenEnded.Answers | QualitativeSurvey/SurveyLoader/Resources/Lib/SurveyUI.py:266-267 | always one answer, never `None` |
| OpenEnded.LoadRow | QualitativeSurvey/SurveyLoader/Resources/Lib/SurveyUI.py:276-288 | a row loads iff it decodes; the box then holds the decoded answer (`""` for the sentinel); otherwise nothing changes |
| OpenEnded.RoundTrip | QualitativeSurvey/SurveyLoader/Resources/Lib/SurveyUI.py:276-288 | loading the saved row puts the stripped text back, or rejects a blank text that was written as a lone marker |
| OpenEnded.UnpaddedRoundTrip | QualitativeSurvey/SurveyLoader/Resources/Lib/SurveyUI.py:276-288 | a text without surrounding whitespace survives a save and a load unchanged |
| OpenEnded.RoundTripSettles | QualitativeSurvey/SurveyLoader/Resources/Lib/SurveyUI.py:276-288 | after one save and load, saving and loading again changes nothing |
| OpenEnded.BlankAnswerRejected | QualitativeSurvey/SurveyLoader/Resources/Lib/SurveyUI.py:284-286 | a non-empty, all-whitespace answer is saved but refused on loading |
| OpenEnded.OpenEndedQuestion.constructor | QualitativeSurvey/SurveyLoader/Resources/Lib/SurveyUI.py:249-251 | the new widget is in the initial state |
| OpenEnded.OpenEndedQuestion.GetAnswers | QualitativeSurvey/SurveyLoader/Resources/Lib/SurveyUI.py:266-267 | returns `Answers` of the state |
| OpenEnded.OpenEndedQuestion.SetAnswer | QualitativeSurvey/SurveyLoader/Resources/Lib/SurveyUI.py:269-271 | always succeeds; the box holds the given text and nothing else changes |
| OpenEnded.OpenEndedQuestion.FromCSV | QualitativeSurvey/SurveyLoader/Resources/Lib/SurveyUI.py:276-288 | the state and result are those of `LoadRow` |
| DropDown.Initial | QualitativeSurvey/SurveyLoader/Resources/Lib/SurveyUI.py:292-312 | the choices are the sentinel followed by the given ones; the sentinel is current and there is no answer |
| DropDown.Answers | QualitativeSurvey/SurveyLoader/Resources/Lib/SurveyUI.py:314-316 | one entry, which is `None` exactly when the current text is the sentinel |
| DropDown.Select | QualitativeSurvey/SurveyLoader/Resources/Lib/SurveyUI.py:318-322 | accepted iff the answer is a choice; only the current index changes, to the first item showing the answer |
| DropDown.SelectThenAnswers | QualitativeSurvey/SurveyLoader/Resources/Lib/SurveyUI.py:314-322 | a selected choice that labels an item is what `getAnswers` reports, with the sentinel reported as `None` |
| DropDown.SelectIdempotent | QualitativeSurvey/SurveyLoader/Resources/Lib/SurveyUI.py:318-322 | selecting the same answer twice has the effect of selecting it once |
| DropDown.Relabel | QualitativeSurvey/SurveyLoader/Resources/Lib/SurveyUI.py:324-331 | accepted iff there are as many texts as items; then exactly the item texts change |
| DropDown.LoadRow | QualitativeSurvey/SurveyLoader/Resources/Lib/SurveyUI.py:333-350 | a row loads iff it decodes to the sentinel or a choice; the sentinel selects the unanswered item; a loaded answer is selected as `setAnswer` does and is what `getAnswers` then reports (`None` for the unanswered item); a row that does not load changes nothing |
| DropDown.RoundTrip | QualitativeSurvey/SurveyLoader/Resources/Lib/SurveyUI.py:333-350 | loading the saved row restores a current item that is the first showing its text |
| DropDown.DistinctItemsRoundTrip | QualitativeSurvey/SurveyLoader/Resources/Lib/SurveyUI.py:333-350 | with distinct items, every non-empty, unpadded current item round-trips |
| DropDown.EmptyChoiceReadsUnanswered | QualitativeSurvey/SurveyLoader/Resources/Lib/SurveyUI.py:341-346 | a current empty choice is saved as the sentinel and loads back as the sentinel item |
| DropDown.DropDownQuestion.constructor | QualitativeSurvey/SurveyLoader/Resources/Lib/SurveyUI.py:292-295 | the new widget is in the initial state |
| DropDown.DropDownQuestion.GetAnswers | QualitativeSurvey/SurveyLoader/Resources/Lib/SurveyUI.py:314-316 | returns `Answers` of the state |
| DropDown.DropDownQuestion.SetAnswer | QualitativeSurvey/SurveyLoader/Resources/Lib/SurveyUI.py:318-322 | the state and result are those of `Select` |
| DropDown.DropDownQuestion.SetChoices | QualitativeSurvey/SurveyLoader/Resources/Lib/SurveyUI.py:324-331 | the item-text loop leaves the state and the result that `Relabel` gives |
| DropDown.DropDownQuestion.FromCSV | QualitativeSurvey/SurveyLoader/Resources/Lib/SurveyUI.py:333-350 | the state and result are those of `LoadRow` |
| Slider.Initial | QualitativeSurvey/SurveyLoader/Resources/Lib/SurveyUI.py:354-382 | a new slider has no answer and the choices `[left, right]`; it sits at `left`, or at `right` when `QSlider` has collapsed the range because `left > right` (lines 379-381) |
| Slider.Answers | QualitativeSurvey/SurveyLoader/Resources/Lib/SurveyUI.py:392-395 | `[None]` exactly while the slider is unmoved; otherwise one text that `int()` reads as the value |
| Slider.Place | QualitativeSurvey/SurveyLoader/Resources/Lib/SurveyUI.py:397-401 | accepted iff the value lies within the bounds; then the slider moves there and counts as moved if it was already moved or the value changed; otherwise nothing changes |
| Slider.WithLeftBound | QualitativeSurvey/SurveyLoader/Resources/Lib/SurveyUI.py:407-411 | the first choice becomes the new bound and nothing else changes |
| Slider.WithRightBound | QualitativeSurvey/SurveyLoader/Resources/Lib/SurveyUI.py:413-417 | the second choice becomes the new bound and nothing else changes |
| Slider.WithChoices | QualitativeSurvey/SurveyLoader/Resources/Lib/SurveyUI.py:419-422 | a two-element list replaces both bounds; any other list changes nothing |
| Slider.LoadRow | QualitativeSurvey/SurveyLoader/Resources/Lib/SurveyUI.py:424-442 | `int()` raises exactly when the decoded answer is neither the sentinel nor a number; the sentinel loads and marks the slider unmoved; a number loads iff it lies within the bounds, and then the slider holds it and counts as moved; a row that does not load changes nothing |
| Slider.RoundTrip | QualitativeSurvey/SurveyLoader/Resources/Lib/SurveyUI.py:424-442 | loading the saved row restores a slider whose value lies within its bounds |
| Slider.OutOfBoundsRejected | QualitativeSurvey/SurveyLoader/Resources/Lib/SurveyUI.py:438-440 | a moved slider whose value lies outside the bounds is saved but refused on loading |
| Slider.SliderQuestion.constructor | QualitativeSurvey/SurveyLoader/Resources/Lib/SurveyUI.py:354-382 | the new widget is in the initial state: at the left bound, or at the right one when the range has collapsed |
| Slider.SliderQuestion.GetAnswers | QualitativeSurvey/SurveyLoader/Resources/Lib/SurveyUI.py:392-395 | returns `Answers` of the state |
| Slider.SliderQuestion.SetAnswer | QualitativeSurvey/SurveyLoader/Resources/Lib/SurveyUI.py:397-401 | the state and result are those of `Place` |
| Slider.SliderQuestion.SetLeftBound | QualitativeSurvey/SurveyLoader/Resources/Lib/SurveyUI.py:407-411 | the state becomes `WithLeftBound` of the old one |
| Slider.SliderQuestion.SetRightBound | QualitativeSurvey/SurveyLoader/Resources/Lib/SurveyUI.py:413-417 | the state becomes `WithRightBound` of the old one |
| Slider.SliderQuestion.SetChoices | QualitativeSurvey/SurveyLoader/Resources/Lib/SurveyUI.py:419-422 | the state becomes `WithChoices` of the old one |
| Slider.SliderQuestion.FromCSV | QualitativeSurvey/SurveyLoader/Resources/Lib/SurveyUI.py:424-442 | the state and result are those of `LoadRow` |
| RatingScale.Initial | QualitativeSurvey/SurveyLoader/Resources/Lib/SurveyUI.py:446-451 | a new rating question has one button per value of the scale, no answer, and the choices `[left, right, step]` |
| RatingScale.Answers | QualitativeSurvey/SurveyLoader/Resources/Lib/SurveyUI.py:483-485 | one entry, which is `None` exactly when no button is checked |
| RatingScale.ReadingsOfLabels | QualitativeSurvey/SurveyLoader/Resources/Lib/SurveyUI.py:473-491 | `int()` reads every button label back as its value |
| RatingScale.FirstRatingOfLabels | QualitativeSurvey/SurveyLoader/Resources/Lib/SurveyUI.py:490-493 | looking a rating up by button text is looking it up by value |
| RatingScale.Rate | QualitativeSurvey/SurveyLoader/Resources/Lib/SurveyUI.py:487-494 | only the checked button changes; a refused rating changes nothing; an accepted one is what `getAnswers` reports |
| RatingScale.RateAccepts | QualitativeSurvey/SurveyLoader/Resources/Lib/SurveyUI.py:472-494 | with a positive step, a rating is accepted iff it lies within the bounds and on the lattice `left + k * step` |
| RatingScale.DescendingScaleRejectsEveryAnswer | QualitativeSurvey/SurveyLoader/Resources/Lib/SurveyUI.py:472-494 | with a negative step, every rating is refused |
| RatingScale.Rebuilt | QualitativeSurvey/SurveyLoader/Resources/Lib/SurveyUI.py:456-481 | rebuilding for new bounds or a new step gives a fresh, unchecked row of buttons and new choices, keeping the question |
| RatingScale.WithChoices | QualitativeSurvey/SurveyLoader/Resources/Lib/SurveyUI.py:520-524 | a three-element list rebuilds with the new bounds and step; any other list changes nothing |
| RatingScale.LoadRow | QualitativeSurvey/SurveyLoader/Resources/Lib/SurveyUI.py:526-542 | `int()` raises exactly when the decoded answer is neither the sentinel nor a number; the sentinel loads and changes nothing; a number loads iff `setAnswer` accepts it, and then that rating is the answer `getAnswers` reports; a row that does not load changes nothing |
| RatingScale.RoundTrip | QualitativeSurvey/SurveyLoader/Resources/Lib/SurveyUI.py:526-542 | loading the saved row restores the checked button of an ascending scale |
| RatingScale.CheckedRatingReadsBack | QualitativeSurvey/SurveyLoader/Resources/Lib/SurveyUI.py:487-494 | the checked button shows its scale value, and rating that value checks the same button again |
| RatingScale.SentinelKeepsRating | QualitativeSurvey/SurveyLoader/Resources/Lib/SurveyUI.py:537-538 | an unanswered row loaded over a checked rating leaves it checked |
| RatingScale.RangeLabels | QualitativeSurvey/SurveyLoader/Resources/Lib/SurveyUI.py:472-476 | the button loop labels one button per element of `range(left, right + 1, step)`, in order |
| RatingScale.FindRating | QualitativeSurvey/SurveyLoader/Resources/Lib/SurveyUI.py:490-494 | the loop finds the first button whose text `int()` reads as the rating |
| RatingScale.RatingScaleQuestion.constructor | QualitativeSurvey/SurveyLoader/Resources/Lib/SurveyUI.py:446-451 | the new widget is in the initial state |
| RatingScale.RatingScaleQuestion.Rebuild | QualitativeSurvey/SurveyLoader/Resources/Lib/SurveyUI.py:456-481 | a fresh, unchecked row of buttons for the current range replaces the old one |
| RatingScale.RatingScaleQuestion.GetAnswers | QualitativeSurvey/SurveyLoader/Resources/Lib/SurveyUI.py:483-485 | returns `Answers` of the state |
| RatingScale.RatingScaleQuestion.SetAnswer | QualitativeSurvey/SurveyLoader/Resources/Lib/SurveyUI.py:487-494 | the state and result are those of `Rate` |
| RatingScale.RatingScaleQuestion.SetLeftBound | QualitativeSurvey/SurveyLoader/Resources/Lib/SurveyUI.py:502-506 | the state becomes `Rebuilt` with the new left bound |
| RatingScale.RatingScaleQuestion.SetRightBound | QualitativeSurvey/SurveyLoader/Resources/Lib/SurveyUI.py:508-512 | the state becomes `Rebuilt` with the new right bound |
| RatingScale.RatingScaleQuestion.SetStep | QualitativeSurvey/SurveyLoader/Resources/Lib/SurveyUI.py:514-518 | the state becomes `Rebuilt` with the new step |
| RatingScale.RatingScaleQuestion.SetChoices | QualitativeSurvey/SurveyLoader/Resources/Lib/SurveyUI.py:520-524 | the state becomes `WithChoices` of the old one |
| RatingScale.RatingScaleQuestion.FromCSV | QualitativeSurvey/SurveyLoader/Resources/Lib/SurveyUI.py:526-542 | the state and result are those of `LoadRow` |
| Widgets.Answers | QualitativeSurvey/SurveyLoader/Resources/Lib/SurveyUI.py:27-28 | every widget reports at least one answer entry, and every type except multiple choice exactly one |
| Widgets.LoadRow | QualitativeSurvey/SurveyLoader/Resources/Lib/SurveyUI.py:95-97 | loading keeps the widget's type, question and number; a row that does not load changes nothing |
| Widgets.OnlyNumbersRaise | QualitativeSurvey/SurveyLoader/Resources/Lib/SurveyUI.py:424-542 | only slider and rating rows can make `int()` raise |
| Widgets.RoundTrip | QualitativeSurvey/SurveyLoader/Resources/Lib/SurveyUI.py:63-73 | for every widget type, loading the row `toCSV` writes is accepted and restores the state |
| Widgets.GetAnswers | QualitativeSurvey/SurveyLoader/Resources/Lib/SurveyUI.py:27-28 | the call on any widget object returns `Answers` of its state |
| Widgets.ToCSV | QualitativeSurvey/SurveyLoader/Resources/Lib/SurveyUI.py:63-73 | the row written for any widget object is the row text of its question and answers |
| Widgets.FromCSV | QualitativeSurvey/SurveyLoader/Resources/Lib/SurveyUI.py:95-97 | the call on any widget object leaves the state and result that `LoadRow` gives |
| Widgets.InitialValue | QualitativeSurvey/SurveyLoader/Resources/Lib/SurveyQuestionnaire.py:110-131 | an item of an unknown type raises exactly then; for each of the six types, the widget of that type is built exactly when its choices have the expected form (texts; two numbers for a slider; three numbers with a non-zero step for a rating scale), holds those choices (behind the sentinel for a drop-down) and no answer; a built widget is valid and carries the item's text and the given number |
| Widgets.InitialUnanswered | QualitativeSurvey/SurveyLoader/Resources/Lib/SurveyQuestionnaire.py:110-131 | a freshly built widget reports no answer (an empty text for an open question) |
| Widgets.CreateQuestionWidget | QualitativeSurvey/SurveyLoader/Resources/Lib/SurveyQuestionnaire.py:110-131 | builds a fresh widget object in the state `InitialValue` gives, or raises the same error |
| Questionnaire.Build | QualitativeSurvey/SurveyLoader/Resources/Lib/SurveyQuestionnaire.py:133-137 | building fails only with an item's error |
| Questionnaire.BuildEach | QualitativeSurvey/SurveyLoader/Resources/Lib/SurveyQuestionnaire.py:133-137 | building succeeds iff every item builds; widget `i` is then item `i` built with number `i + 1` |
| Questionnaire.BuildReportsFirst | QualitativeSurvey/SurveyLoader/Resources/Lib/SurveyQuestionnaire.py:133-137 | a failed build reports the first item that raises, and its error |
| Questionnaire.BuildStops | QualitativeSurvey/SurveyLoader/Resources/Lib/SurveyQuestionnaire.py:133-137 | once a prefix fails, later items do not change the outcome |
| Questionnaire.Generate | QualitativeSurvey/SurveyLoader/Resources/Lib/SurveyQuestionnaire.py:133-140 | an empty questionnaire is refused, and only that one for lack of questions; a built one has at least one question |
| Questionnaire.ButtonsFor | QualitativeSurvey/SurveyLoader/Resources/Lib/SurveyQuestionnaire.py:289-302 | To First always agrees with Prev, and To Last with Next |
| Questionnaire.NavigationStaysInRange | QualitativeSurvey/SurveyLoader/Resources/Lib/SurveyQuestionnaire.py:289-302 | Prev is enabled iff the previous index exists, and Next iff the next one does |
| Questionnaire.InitialButtons | QualitativeSurvey/SurveyLoader/Resources/Lib/SurveyQuestionnaire.py:155-156 | To First and Prev start disabled |
| Questionnaire.InitialButtonsAgree | QualitativeSurvey/SurveyLoader/Resources/Lib/SurveyQuestionnaire.py:150-156 | with two or more questions, the initial buttons are those `_setNavigationButtonStatus` sets at the first question |
| Questionnaire.SingleQuestionNextEnabled | QualitativeSurvey/SurveyLoader/Resources/Lib/SurveyQuestionnaire.py:150-156 | with one question, Next starts enabled although no next question exists |
| Questionnaire.Gate | QualitativeSurvey/SurveyLoader/Resources/Lib/SurveyQuestionnaire.py:242-260 | the check changes a question only by marking an unmoved slider as moved, and only when the user accepts |
| Questionnaire.GateNotifiesUnanswered | QualitativeSurvey/SurveyLoader/Resources/Lib/SurveyQuestionnaire.py:242-260 | a notice is shown iff the question is unanswered; the slider prompt iff the slider is unmoved; an accepted slider is then answered |
| Questionnaire.DropDownSentinelTestUnreachable | QualitativeSurvey/SurveyLoader/Resources/Lib/SurveyQuestionnaire.py:253-256 | a drop-down never reports the sentinel text as its answer, so that branch never fires |
| Questionnaire.NewQuestionUnanswered | QualitativeSurvey/SurveyLoader/Resources/Lib/SurveyQuestionnaire.py:242-260 | a freshly built question counts as unanswered |
| Questionnaire.RowsBetween | QualitativeSurvey/SurveyLoader/Resources/Lib/SurveyQuestionnaire.py:221-225 | one row per question in the range, in order |
| Questionnaire.SaveText | QualitativeSurvey/SurveyLoader/Resources/Lib/SurveyQuestionnaire.py:215-225 | saving fails (IndexError) iff there are fewer than two questions |
| Questionnaire.Restore | QualitativeSurvey/SurveyLoader/Resources/Lib/SurveyQuestionnaire.py:227-240 | loading keeps one valid state per question, and reports only row numbers that exist |
| Questionnaire.Resume | QualitativeSurvey/SurveyLoader/Resources/Lib/SurveyQuestionnaire.py:227-240 | resuming keeps one valid state per question |
| Questionnaire.RestoreRowwise | QualitativeSurvey/SurveyLoader/Resources/Lib/SurveyQuestionnaire.py:235-240 | without a raise, question `k` takes the state loaded from row `k` if that row loads, and otherwise is kept; the reported rows are exactly those that do not load |
| Questionnaire.RestoreTooManyRows | QualitativeSurvey/SurveyLoader/Resources/Lib/SurveyQuestionnaire.py:235-237 | a row beyond the last question raises IndexError at that row |
| Questionnaire.RestoreReportsGrow | QualitativeSurvey/SurveyLoader/Resources/Lib/SurveyQuestionnaire.py:235-240 | reading more rows never withdraws a report already made |
| Questionnaire.RestoreStops | QualitativeSurvey/SurveyLoader/Resources/Lib/SurveyQuestionnaire.py:235-240 | after a raise, later rows change nothing |
| Questionnaire.SaveThenResume | QualitativeSurvey/SurveyLoader/Resources/Lib/SurveyQuestionnaire.py:215-240 | when the survey is not anonymous and every question round-trips, resuming from the saved rows restores every question and reports nothing |
| Questionnaire.AnonymousSaveMisaligns | QualitativeSurvey/SurveyLoader/Resources/Lib/SurveyQuestionnaire.py:221-240 | an anonymous save omits row 1, so resuming loads question 2's row into question 1 and reports row 1 |
| Questionnaire.SurveyQuestionnaire.constructor | QualitativeSurvey/SurveyLoader/Resources/Lib/SurveyQuestionnaire.py:139-140 | the survey starts at the first question |
| Questionnaire.SurveyQuestionnaire.Open | QualitativeSurvey/SurveyLoader/Resources/Lib/SurveyQuestionnaire.py:19-37 | opening succeeds iff `Generate` does, with its questions at the first one; otherwise it fails with the same error |
| Questionnaire.SurveyQuestionnaire.SetNavigationButtonStatus | QualitativeSurvey/SurveyLoader/Resources/Lib/SurveyQuestionnaire.py:289-302 | the buttons become `ButtonsFor` the current question |
| Questionnaire.SurveyQuestionnaire.CheckCurrentQuestionUnanswered | QualitativeSurvey/SurveyLoader/Resources/Lib/SurveyQuestionnaire.py:242-260 | the notice and the current question's new state are those of `Gate`; the other questions are unchanged |
| Questionnaire.SurveyQuestionnaire.ToQuestion | QualitativeSurvey/SurveyLoader/Resources/Lib/SurveyQuestionnaire.py:187-197 | the old question is checked, then the chosen one becomes current, with its buttons |
| Questionnaire.SurveyQuestionnaire.ToFirstQuestion | QualitativeSurvey/SurveyLoader/Resources/Lib/SurveyQuestionnaire.py:203-204 | the first question becomes current, with To First and Prev disabled; the question being left is checked as `toQuestion` does, and the dialog shown (the returned notice) and its new state are `Gate`'s |
| Questionnaire.SurveyQuestionnaire.ToLastQuestion | QualitativeSurvey/SurveyLoader/Resources/Lib/SurveyQuestionnaire.py:206-207 | the last question becomes current, with Next and To Last disabled; the question being left is checked as `toQuestion` does, and the dialog shown (the returned notice) and its new state are `Gate`'s |
| Questionnaire.SurveyQuestionnaire.ToPrevQuestion | QualitativeSurvey/SurveyLoader/Resources/Lib/SurveyQuestionnaire.py:209-210 | the previous question becomes current; the question being left is checked as `toQuestion` does, and the dialog shown (the returned notice) and its new state are `Gate`'s |
| Questionnaire.SurveyQuestionnaire.ToNextQuestion | QualitativeSurvey/SurveyLoader/Resources/Lib/SurveyQuestionnaire.py:212-213 | the next question becomes current; the question being left is checked as `toQuestion` does, and the dialog shown (the returned notice) and its new state are `Gate`'s |
| Questionnaire.SurveyQuestionnaire.SaveProgress | QualitativeSurvey/SurveyLoader/Resources/Lib/SurveyQuestionnaire.py:215-225 | the loop writes exactly `SaveText` of the questions |
| Questionnaire.SurveyQuestionnaire.ResumeProgress | QualitativeSurvey/SurveyLoader/Resources/Lib/SurveyQuestionnaire.py:227-240 | the new questions, the reported rows and any raise are those of `Resume` |
| Questionnaire.LoadRows | QualitativeSurvey/SurveyLoader/Resources/Lib/SurveyQuestionnaire.py:234-240 | the row loop computes exactly `Restore` |

## Left out

- Qt and Slicer: layouts, labels, fonts, dialogs, image loading (`_loadQuestionImage`, `loadNode`, `_clearData`), and the `_clear*`, `_format*` and `close` methods. Only the widget state these read or write is modelled.
- Dialogs that ask the user something are parameters. The slider dialog's answer is `accepted`. The notices of `_dialogUnanswered` and `_dialogUnmatched` are the returned `Notice` and the list of reported row numbers.
- File dialogs and file I/O: `SaveProgress` returns the text that would be written. `ResumeProgress` takes the rows that `csv.reader` yields. The `.csv` file-name check is not modelled.
- `csv.reader` parsing is not modelled. `SaveThenResume` feeds `Resume` the field lists the rows were written from. This matches what `csv.reader` returns only when no text contains a double quote, which `toCSV` writes without doubling it.
- `_loadSurveyData` (reading the questionnaire file and `ast.literal_eval` of the images and choices) is not modelled. Items arrive as `SurveyItem` values with typed choices. The item list being empty is modelled (`NoQuestions`).
- Questionnaire.SurveyQuestionnaire: holds the questions' states (`WidgetValue`) rather than the widget objects. The aliasing of `current_question` with an element of `question_widgets` and object identity are not modelled. The widget classes themselves are modelled as objects, and `Widgets` dispatches over them.
- Exceptions are modelled as results: `CreateError` for `createQuestionWidget`, `None` for `int()` and `list.index`, `Failure` for the IndexError and ValueError that end a resume, and `None` from `SaveText` for the IndexError of a one-question survey. The console messages are not modelled, except as `Mismatch` reasons.
- `_toSelectedQuestion` (the question drop-down) is `ToQuestion` with the selected index. The drop-down's own widget is not modelled.
- Questionnaire.SurveyQuestionnaire.ToPrevQuestion: requires Prev to be enabled, as a disabled button emits no click. A call at question 0 would index with -1 (the last question in Python), which is not modelled.
- Questionnaire.SurveyQuestionnaire.ToNextQuestion: requires Next to be enabled, as a disabled button emits no click. A call at the last question would raise IndexError, which is not modelled.
- Questionnaire.SurveyQuestionnaire.constructor: starts with the corrected navigation buttons of the Findings row (those `_setNavigationButtonStatus` sets for question 0), not the buttons lines 150-156 leave enabled; the as-written buttons are `InitialButtons`, whose consequence `SingleQuestionNextEnabled` states.
- Questionnaire.SurveyQuestionnaire.Open: starts with the corrected navigation buttons, as the constructor does.
- Widgets.InitialValue: requires text choices for the multiple-choice and drop-down types and reports other choices as `MalformedChoices`; the Python constructors take whatever list they are given.
- Getters and trivial setters are not modelled as separate operations: `getNumber`, `getQuestion`, `getChoices`, `getImages`, `setImages`, `setNumber`, `setQuestion` (which also updates a label), `getSliderRange`, `getRatingRange` and `getRatingStep`. Each returns or replaces one field of the modelled state.
- `OpenEndedQuestion.setChoices` does nothing, and its signature takes no list, so it is not modelled.
- `DropDownQuestion.__init__` inserts the sentinel into the caller's list. The model builds a new sequence, so the caller's list is not changed.
- Slider.WithLeftBound: does not model `QSlider` clamping its value into the new range, nor the value-changed signal that clamping may fire (which would mark the slider as moved). A value outside the bounds is kept.
- Slider.WithRightBound: as for Slider.WithLeftBound, the value is not clamped into the new range and no value-changed signal is modelled.
- Slider.WithChoices: as for Slider.WithLeftBound, the value is not clamped into the new range and no value-changed signal is modelled.
- Slider.Initial: the clamp into a collapsed range is modelled, but the value-changed signal that `QSlider` does not fire during construction is not, so a new slider always counts as not moved.
- RatingScale.RatingScaleQuestion.SetStep: requires a non-zero step. In Python, `range` raises ValueError for step 0 after `choices[2]` has already been updated; that partial update is not modelled. `createQuestionWidget` reports a zero step as `ZeroStep`.
- RatingScale.RatingScaleQuestion.SetChoices: requires a non-zero step when three choices are given, for the same reason as SetStep; the partial update before ValueError is not modelled.
- RatingScale.WithChoices: requires a non-zero step when three choices are given; the ValueError that `range` raises after the bounds are updated is not modelled.
- `QTextEdit.setText` may interpret rich text, and `toPlainText` may differ from the text set. The model stores the text as given.
- `int()` is modelled for ASCII digits, an optional sign, single underscores between digits and surrounding whitespace. Other Unicode decimal digits, which Python also accepts, are not modelled. `str.isspace` is modelled by its Unicode whitespace set.
- `_buttonSelected` does nothing and is left out.

## Findings

| source | as written | input that shows it | evidently intended | confidence | as-written member | corrected member |
|---|---|---|---|---|---|---|
| QualitativeSurvey/SurveyLoader/Resources/Lib/SurveyQuestionnaire.py:150-156 | `_formatNavigations` only disables To First and Prev, so Next and To Last start enabled | a questionnaire with one question: Next is enabled at question 1, and clicking it calls `toQuestion(1)`, which raises IndexError | the initial buttons are those `_setNavigationButtonStatus` sets for question 0, which disables Next and To Last when there is one question | not executed | Questionnaire.SingleQuestionNextEnabled | Questionnaire.NavigationStaysInRange |
