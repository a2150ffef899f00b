/** The records the dashboard passes around: a rubric criterion, one
    per-criterion verdict, a full analysis result and a stored interaction. */
module Types {

  /** A value that may be absent (an optional field, a failed lookup). */
  datatype Option<+T> = None | Some(value: T)

  /** The three verdicts a criterion, or a whole interaction, can receive. */
  datatype Status = Conforme | NaoConforme | FalhaGrave

  /** The three verdict labels, in the order the type declares them. */
  const StatusLabels: seq<string> := ["CONFORME", "NÃO CONFORME", "FALHA GRAVE (NCG)"]

  /** The label a verdict is written as in stored and exchanged records. */
  function StatusLabel(s: Status): (text: string)
    ensures text in StatusLabels
  {
    match s
    case Conforme => "CONFORME"
    case NaoConforme => "NÃO CONFORME"
    case FalhaGrave => "FALHA GRAVE (NCG)"
  }

  /** Reads a verdict label back; any other text is not a verdict. */
  function ParseStatus(text: string): (r: Option<Status>)
    ensures r.Some? <==> text in StatusLabels
    ensures r.Some? ==> StatusLabel(r.value) == text
  {
    if text == "CONFORME" then Some(Conforme)
    else if text == "NÃO CONFORME" then Some(NaoConforme)
    else if text == "FALHA GRAVE (NCG)" then Some(FalhaGrave)
    else None
  }

  /** Writing a verdict and reading it back gives the same verdict, so the
      three labels are pairwise distinct. */
  lemma StatusLabelRoundTrip(s: Status)
    ensures ParseStatus(StatusLabel(s)) == Some(s)
  {
  }

  /** One rubric entry; `weight` is the most points the item can earn. */
  datatype Criterion = Criterion(id: string, category: string, name: string, description: string, weight: int)

  /** One verdict for one criterion, as the evaluator reports it. */
  datatype CriterionScore = CriterionScore(
    criterionId: string,
    status: Status,
    observation: string,
    pointsEarned: int,
    maxPoints: int)

  /** The full verdict for one call. */
  datatype AnalysisResult = AnalysisResult(
    evaluationStatus: Status,
    totalScore: int,
    reasonForCall: string,
    criteriaScores: seq<CriterionScore>,
    summary: string,
    systemReadyText: string,
    operatorFeedback: string,
    isNcgDetected: bool)

  /** A stored call; `result` is optional in the record type. */
  datatype Interaction = Interaction(
    id: string,
    agentName: string,
    date: string,
    transcript: string,
    result: Option<AnalysisResult>)
}
