/** The analysis screen: its form state, the analyze step (guard, request,
    success and failure), clearing the form, and the grouping of a result's
    item scores by rubric category for display. Reading the audio file and
    the evaluator's reply are outside the program; both are parameters. */
module AnalysisTool {
  import opened Types
  import opened Grouping
  import opened Catalog
  import opened Text
  import opened Prompt

  /** The attached audio file; only its MIME type matters here, and the empty
      string stands for an unknown type. */
  datatype AudioFile = AudioFile(fileType: string)

  datatype ToolState = ToolState(
    transcript: string,
    agentName: string,
    monitorName: string,
    company: string,
    isAnalyzing: bool,
    result: Option<AnalysisResult>,
    error: Option<string>,
    audioFile: Option<AudioFile>)

  const InitialToolState: ToolState := ToolState("", "", "", "", false, None, None, None)

  const MissingInputError: string := "Por favor, insira uma transcrição ou anexe um arquivo de áudio."
  const AnalysisError: string := "Erro na análise. Verifique sua conexão e chave de API."
  const UnknownAgent: string := "Operador Não Identificado"
  const DefaultAudioMime: string := "audio/mpeg"

  /** What the evaluator is asked: the transcript as typed, the monitor, the
      company and the encoded audio, if any. */
  datatype Request = Request(transcript: string, monitorName: string, company: string, audio: Option<AudioData>)

  /** The record handed to the application's save handler. */
  datatype SaveCall = SaveCall(agentName: string, transcript: string, result: AnalysisResult)

  /** How the evaluator answered: a result, or a thrown error. */
  datatype Reply = Answered(data: AnalysisResult) | Failed

  /** The state after the step, the request sent (if any) and the record the
      save handler stored (if any). */
  datatype Step = Step(state: ToolState, request: Option<Request>, saved: Option<SaveCall>)

  /** `audioFile.type || 'audio/mpeg'`. */
  function AudioMime(f: AudioFile): (m: string)
    ensures f.fileType != "" ==> m == f.fileType
    ensures f.fileType == "" ==> m == DefaultAudioMime
  {
    if f.fileType == "" then DefaultAudioMime else f.fileType
  }

  /** `agentName || 'Operador Não Identificado'`. */
  function AgentOrDefault(name: string): (n: string)
    ensures name != "" ==> n == name
    ensures name == "" ==> n == UnknownAgent
  {
    if name == "" then UnknownAgent else name
  }

  /** Neither a non-blank transcript nor an audio file: nothing to analyze. */
  predicate MissingInput(st: ToolState)
  {
    Trim(st.transcript) == "" && st.audioFile.None?
  }

  /** The form inputs, which the analyze step never touches. */
  predicate SameInputs(a: ToolState, b: ToolState)
  {
    a.transcript == b.transcript && a.agentName == b.agentName && a.monitorName == b.monitorName
    && a.company == b.company && a.audioFile == b.audioFile
  }

  /** One press of the analyze button, with `read` the outcome of encoding the
      attached file (None when the reader fails), `reply` the evaluator's
      answer to the request, and `saveThrows` whether the application's save
      handler throws (it draws a fresh id from the browser, which some
      contexts refuse). The save runs inside the same `try` as the request. */
  function HandleAnalyze(st: ToolState, read: Option<string>, reply: Reply, saveThrows: bool): (step: Step)
    // guard: nothing to analyze sets the message and changes nothing else
    ensures MissingInput(st) <==> step.state == st.(error := Some(MissingInputError)) && step.request.None?
    ensures MissingInput(st) ==> step.saved.None?
    // otherwise the step runs to the end and clears the busy flag
    ensures !MissingInput(st) ==> !step.state.isAnalyzing
    ensures SameInputs(step.state, st)
    // a request goes out unless the guard stops it or the file cannot be read
    ensures step.request.Some? <==> !MissingInput(st) && (st.audioFile.Some? ==> read.Some?)
    ensures step.request.Some? ==>
      (step.request.value.transcript == st.transcript
      && step.request.value.monitorName == st.monitorName && step.request.value.company == st.company)
    ensures step.request.Some? ==> (step.request.value.audio.Some? <==> st.audioFile.Some?)
    ensures step.request.Some? && st.audioFile.Some? ==>
      step.request.value.audio == Some(AudioData(read.value, AudioMime(st.audioFile.value)))
    // a reply is shown whether or not the save handler then throws
    ensures step.request.Some? && reply.Answered? ==> step.state.result == Some(reply.data)
    // success: the reply is saved exactly once and no message is shown
    ensures step.saved.Some? <==> step.request.Some? && reply.Answered? && !saveThrows
    ensures step.saved.Some? ==>
      (step.saved.value == SaveCall(AgentOrDefault(st.agentName), st.transcript, reply.data)
      && step.state.error.None?)
    // failure anywhere in the try: the generic message and nothing saved;
    // the previous result stays unless the reply had already been shown
    ensures !MissingInput(st) && step.saved.None? ==> step.state.error == Some(AnalysisError)
    ensures !MissingInput(st) && !(step.request.Some? && reply.Answered?) ==> step.state.result == st.result
  {
    if Trim(st.transcript) == "" && st.audioFile.None? then
      Step(st.(error := Some(MissingInputError)), None, None)
    else if st.audioFile.Some? && read.None? then
      Step(st.(isAnalyzing := false, error := Some(AnalysisError)), None, None)
    else
      var audio := if st.audioFile.Some? then Some(AudioData(read.value, AudioMime(st.audioFile.value))) else None;
      var request := Request(st.transcript, st.monitorName, st.company, audio);
      match reply
      case Answered(data) =>
        if saveThrows then
          Step(st.(isAnalyzing := false, error := Some(AnalysisError), result := Some(data)), Some(request), None)
        else
          Step(st.(isAnalyzing := false, error := None, result := Some(data)), Some(request),
            Some(SaveCall(AgentOrDefault(st.agentName), st.transcript, data)))
      case Failed =>
        Step(st.(isAnalyzing := false, error := Some(AnalysisError)), Some(request), None)
  }

  /** Whenever the guard lets a request through, the request carries at least
      one content part. */
  lemma RequestHasParts(st: ToolState, read: Option<string>, reply: Reply, saveThrows: bool)
    ensures HandleAnalyze(st, read, reply, saveThrows).request.Some? ==>
      var r := HandleAnalyze(st, read, reply, saveThrows).request.value;
      Parts(r.transcript, r.audio) != []
  {
  }

  /** Clearing empties every input, the result and the message, and leaves the
      busy flag alone. */
  function HandleClear(st: ToolState): (st': ToolState)
    ensures st' == InitialToolState.(isAnalyzing := st.isAnalyzing)
  {
    ToolState("", "", "", "", st.isAnalyzing, None, None, None)
  }

  /** After clearing, analyzing is refused with the missing-input message and
      nothing is sent or saved, whatever the file reader, the evaluator and
      the save handler do. */
  lemma ClearThenAnalyze(st: ToolState, read: Option<string>, reply: Reply, saveThrows: bool)
    ensures HandleAnalyze(HandleClear(st), read, reply, saveThrows)
      == Step(HandleClear(st).(error := Some(MissingInputError)), None, None)
  {
    assert IsBlank("");
  }

  // ---------------------------------------------------------------------
  // Item scores by category

  /** An item score with the rubric name of its item, when the id is known. */
  datatype NamedScore = NamedScore(score: CriterionScore, name: Option<string>)

  const OtherCategory: string := "Outros"

  /** `meta?.category || 'Outros'`, with `meta` looked up in `rubric`: the
      category of the entry carrying the id, or "Outros" when no entry does. */
  function CategoryIn(rubric: seq<Criterion>, id: string): (cat: string)
    ensures cat == OtherCategory || exists c :: c in rubric && c.id == id && c.category == cat
    ensures Find(rubric, id).None? ==> cat == OtherCategory
    ensures Find(rubric, id).Some? && Find(rubric, id).value.category != "" ==>
      cat == Find(rubric, id).value.category
  {
    var meta := Find(rubric, id);
    if meta.Some? && meta.value.category != "" then meta.value.category else OtherCategory
  }

  /** The lookup the screen makes, in the built-in rubric. */
  function CategoryFor(id: string): string
  {
    CategoryIn(DefaultScorecard, id)
  }

  /** `{ ...score, name: meta?.name }`: the score, with the name of the rubric
      entry carrying its id when there is one. */
  function Annotate(s: CriterionScore): (n: NamedScore)
    ensures n.score == s
    ensures n.name.Some? <==> Find(DefaultScorecard, s.criterionId).Some?
    ensures n.name.Some? ==> exists c :: c in DefaultScorecard && c.id == s.criterionId && c.name == n.name.value
  {
    var meta := Find(DefaultScorecard, s.criterionId);
    NamedScore(s, if meta.Some? then Some(meta.value.name) else None)
  }

  /** A score for a rubric entry's id is shown with that entry's name. */
  lemma AnnotateNamesEntry(s: CriterionScore, k: nat)
    requires k < |DefaultScorecard| && s.criterionId == DefaultScorecard[k].id
    ensures Annotate(s).name == Some(DefaultScorecard[k].name)
  {
    FindById(k);
  }

  function ScoreCategory(n: NamedScore): string
  {
    CategoryFor(n.score.criterionId)
  }

  function AnnotateAll(scores: seq<CriterionScore>): (ns: seq<NamedScore>)
    ensures |ns| == |scores|
    ensures forall i :: 0 <= i < |scores| ==> ns[i] == Annotate(scores[i])
  {
    seq(|scores|, i requires 0 <= i < |scores| => Annotate(scores[i]))
  }

  /** The item scores of the shown result, grouped by category; nothing when
      no result is shown. */
  function GroupedCriteria(result: Option<AnalysisResult>): (g: Option<Groups<NamedScore>>)
    ensures g.Some? <==> result.Some?
  {
    if result.Some? then Some(GroupBy(AnnotateAll(result.value.criteriaScores), ScoreCategory)) else None
  }

  /** The displayed groups: one per category in order of first appearance
      among the item scores, each holding that category's scores in the
      result's order, no group empty and no score lost or repeated. */
  lemma GroupedCriteriaFacts(r: AnalysisResult)
    ensures var g := GroupedCriteria(Some(r)).value;
      var items := AnnotateAll(r.criteriaScores);
      && KeysOf(g) == FirstSeen(KeySeq(items, ScoreCategory))
      && Distinct(KeysOf(g))
      && (forall i :: 0 <= i < |g| ==> g[i].1 == Select(items, ScoreCategory, g[i].0) && g[i].1 != [])
      && multiset(Flatten(g)) == multiset(items)
      && |Flatten(g)| == |r.criteriaScores|
  {
    var items := AnnotateAll(r.criteriaScores);
    GroupByIsSelect(items, ScoreCategory);
    GroupByKeys(items, ScoreCategory);
    GroupByMembers(items, ScoreCategory);
    GroupByPermutes(items, ScoreCategory);
  }

  /** A rubric item's id is filed under the item's own category. */
  lemma CategoryForKnown(k: nat)
    requires k < |DefaultScorecard|
    ensures CategoryFor(DefaultScorecard[k].id) == DefaultScorecard[k].category
  {
    FindById(k);
    CategoriesNonEmpty();
  }

  /** Every displayed score sits under the category its id maps to. */
  lemma FiledUnderOwnCategory(r: AnalysisResult, i: nat, y: NamedScore)
    requires i < |GroupedCriteria(Some(r)).value|
    requires y in GroupedCriteria(Some(r)).value[i].1
    ensures GroupedCriteria(Some(r)).value[i].0 == CategoryFor(y.score.criterionId)
  {
    var items := AnnotateAll(r.criteriaScores);
    var g := GroupBy(items, ScoreCategory);
    assert GroupedCriteria(Some(r)).value == g;
    GroupByMembers(items, ScoreCategory);
    assert g[i].0 == ScoreCategory(y);
  }

  /** A score for a rubric item sits under the item's rubric category, and a
      score for an unknown id under "Outros". */
  lemma ScorePlacement(r: AnalysisResult, i: nat, y: NamedScore)
    requires i < |GroupedCriteria(Some(r)).value|
    requires y in GroupedCriteria(Some(r)).value[i].1
    ensures var key := GroupedCriteria(Some(r)).value[i].0;
      var meta := Find(DefaultScorecard, y.score.criterionId);
      && (meta.None? ==> key == OtherCategory)
      && (meta.Some? ==> key == meta.value.category)
  {
    FiledUnderOwnCategory(r, i, y);
    CategoriesNonEmpty();
  }
}
