/** The interactive product demo (components/interactive-demo.tsx): a fixed list of mock
    patients, one of which is selected, and the panels derived from the selection. */
module Demo {
  import opened Auth

  /** A mock patient; `confidence` is a JavaScript number or `null`. */
  datatype Patient = Patient(id: int, name: string, age: int, status: string, confidence: Option<real>)

  datatype Step = Step(title: string, complete: bool)

  const AnalyzedStatus := "Analyzed"

  /** `mockPatients` (lines 16-20). */
  const MockPatients: seq<Patient> := [
    Patient(1, "Patient A", 54, "Analyzed", Some(99.2)),
    Patient(2, "Patient B", 38, "Processing", None),
    Patient(3, "Patient C", 67, "Analyzed", Some(98.7))
  ]

  /** `analysisSteps` (lines 22-28). */
  const AnalysisSteps: seq<Step> := [
    Step("Pre-processing", true),
    Step("Neural Network Analysis", true),
    Step("Pattern Recognition", true),
    Step("Confidence Scoring", true),
    Step("Report Generation", false)
  ]

  /** No two patients of the list share an id. */
  predicate UniqueIds(ps: seq<Patient>) {
    forall i, j | 0 <= i < j < |ps| :: ps[i].id != ps[j].id
  }

  lemma MockIdsUnique()
    ensures UniqueIds(MockPatients)
  {
  }

  /** A row is highlighted iff its id is the selected one (line 97). */
  predicate Highlighted(selected: Patient, row: Patient) {
    selected.id == row.id
  }

  /** The positions of the highlighted rows. */
  function HighlightedRows(ps: seq<Patient>, selected: Patient): set<nat> {
    set i: nat | i < |ps| && Highlighted(selected, ps[i])
  }

  /** With unique ids, selecting a listed patient highlights its row and no other. */
  lemma ExactlyOneHighlighted(ps: seq<Patient>, selected: Patient, at: nat)
    requires UniqueIds(ps)
    requires at < |ps| && ps[at] == selected
    ensures HighlightedRows(ps, selected) == {at}
    ensures |HighlightedRows(ps, selected)| == 1
  {
  }

  /** JavaScript truthiness of `confidence`: not `null` and not zero. */
  predicate Truthy(c: Option<real>) {
    c.Some? && c.value != 0.0
  }

  /** The confidence panel (lines 244-258): the score, or "Processing..." with a spinner. */
  datatype ConfidenceView = Score(percent: real) | ProcessingSpinner

  function ConfidencePanel(c: Option<real>): (v: ConfidenceView)
    ensures v.Score? <==> Truthy(c)
    ensures v.Score? ==> c == Some(v.percent)
  {
    if Truthy(c) then Score(c.value) else ProcessingSpinner
  }

  /** What `{confidence && <bar/>}` (lines 261-272) renders: the bar; nothing for `null`;
      or, for the number 0, the text "0", since React prints a falsy number. */
  datatype ProgressView = Bar(width: real) | NoBar | ZeroText

  function ProgressFor(c: Option<real>): (v: ProgressView)
    ensures v.Bar? <==> Truthy(c)
    ensures v.Bar? ==> c == Some(v.width)
    ensures v == ZeroText <==> c == Some(0.0)
  {
    match c
    case None => NoBar
    case Some(x) => if x == 0.0 then ZeroText else Bar(x)
  }

  /** The bar is shown exactly when the score is, and with the score's width. */
  lemma BarMatchesScore(c: Option<real>)
    ensures ProgressFor(c).Bar? <==> ConfidencePanel(c).Score?
    ensures ProgressFor(c).Bar? ==> ProgressFor(c).width == ConfidencePanel(c).percent
  {
  }

  /** No mock patient makes the progress slot print a stray "0". */
  lemma MockPatientsNeverPrintZero()
    ensures forall p | p in MockPatients :: ProgressFor(p.confidence) != ZeroText
  {
  }

  datatype Mark = CheckMark | ClockMark | SpinnerMark

  /** The row's status icon (lines 116-120): a check for "Analyzed", a clock otherwise. */
  function StatusMark(status: string): (m: Mark)
    ensures m == CheckMark <==> status == AnalyzedStatus
    ensures m != SpinnerMark
  {
    if status == AnalyzedStatus then CheckMark else ClockMark
  }

  /** A pipeline step's icon (lines 292-296): a check iff complete, otherwise a spinner. */
  function StepMark(step: Step): (m: Mark)
    ensures m == CheckMark <==> step.complete
    ensures m != ClockMark
  {
    if step.complete then CheckMark else SpinnerMark
  }

  /** Only the last step of the pipeline spins. */
  lemma OnlyReportStepSpins()
    ensures forall k | 0 <= k < |AnalysisSteps| :: StepMark(AnalysisSteps[k]) == SpinnerMark <==> k == |AnalysisSteps| - 1
  {
  }

  class InteractiveDemo {
    var selected: Patient

    ghost predicate Valid()
      reads this
    {
      selected in MockPatients
    }

    /** The initial selection is the first mock patient (line 31). */
    constructor ()
      ensures Valid() && selected == MockPatients[0]
      ensures HighlightedRows(MockPatients, selected) == {0}
    {
      selected := MockPatients[0];
      MockIdsUnique();
      ExactlyOneHighlighted(MockPatients, MockPatients[0], 0);
    }

    /** A click on a row (line 95) selects that patient; exactly its row is highlighted. */
    method Select(row: nat)
      requires Valid() && row < |MockPatients|
      modifies this
      ensures Valid() && selected == MockPatients[row]
      ensures HighlightedRows(MockPatients, selected) == {row}
    {
      selected := MockPatients[row];
      MockIdsUnique();
      ExactlyOneHighlighted(MockPatients, selected, row);
    }
  }
}
