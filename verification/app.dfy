/** The application shell: the active tab and the interaction list, the save
    handler the analysis screen calls, the view chosen for a tab, and loading
    the list from browser storage. Storage, identifiers and dates come from
    the browser; they are parameters here. */
module App {
  import opened Types
  import opened Dashboard
  import opened AnalysisTool

  datatype AppState = AppState(activeTab: string, interactions: seq<Interaction>)

  const DashboardTab: string := "dashboard"
  const AnalyzeTab: string := "analyze"
  const HistoryTab: string := "history"
  const ScorecardTab: string := "scorecard"

  /** On start: the dashboard tab and no interactions. */
  function InitialAppState(): (st: AppState)
    ensures st.activeTab == DashboardTab
    ensures st.interactions == []
    ensures ComputeStats(st.interactions).total == 0
  {
    AppState(DashboardTab, [])
  }

  /** The save handler: a new record with the given id and date, carrying the
      agent, transcript and result it was passed, goes in front of the list. */
  function SaveInteraction(st: AppState, id: string, date: string, agentName: string,
                           transcript: string, result: AnalysisResult): (st': AppState)
    ensures |st'.interactions| == |st.interactions| + 1
    ensures st'.interactions[1..] == st.interactions
    ensures st'.interactions[0] == Interaction(id, agentName, date, transcript, Some(result))
    ensures st'.activeTab == st.activeTab
  {
    st.(interactions := [Interaction(id, agentName, date, transcript, Some(result))] + st.interactions)
  }

  /** What the main area shows. */
  datatype View = DashboardView | AnalyzeView | HistoryView | ScorecardView

  /** The view for a tab; a tab the switch does not know shows the dashboard. */
  function RenderContent(tab: string): (v: View)
    ensures v == AnalyzeView <==> tab == AnalyzeTab
    ensures v == HistoryView <==> tab == HistoryTab
    ensures v == ScorecardView <==> tab == ScorecardTab
    ensures v == DashboardView <==> tab != AnalyzeTab && tab != HistoryTab && tab != ScorecardTab
  {
    if tab == DashboardTab then DashboardView
    else if tab == AnalyzeTab then AnalyzeView
    else if tab == HistoryTab then HistoryView
    else if tab == ScorecardTab then ScorecardView
    else DashboardView
  }

  /** Loading on start: `stored` is what browser storage holds under the
      application's key (None when nothing is stored) and `parse` reads it
      back (None when the text is not valid). Empty or unreadable text leaves
      the list as it was. */
  function Load(st: AppState, stored: Option<string>, parse: string -> Option<seq<Interaction>>): (st': AppState)
    ensures st'.activeTab == st.activeTab
    ensures stored.None? || stored == Some("") ==> st' == st
    ensures stored.Some? && stored.value != "" && parse(stored.value).None? ==> st' == st
    ensures stored.Some? && stored.value != "" && parse(stored.value).Some? ==>
      st'.interactions == parse(stored.value).value
  {
    if stored.Some? && stored.value != "" then
      match parse(stored.value)
      case Some(xs) => st.(interactions := xs)
      case None => st
    else st
  }

  /** Whatever the saved list was, reloading text that reads back as that list
      restores it on start. */
  lemma ReloadRestores(xs: seq<Interaction>, stored: string, parse: string -> Option<seq<Interaction>>)
    requires stored != ""
    requires parse(stored) == Some(xs)
    ensures Load(InitialAppState(), Some(stored), parse) == AppState(DashboardTab, xs)
  {
  }

  // ---------------------------------------------------------------------
  // The analysis screen wired to the save handler

  /** The record an analyze step stored, if any, reaching the list. */
  function ApplySave(st: AppState, step: Step, id: string, date: string): (st': AppState)
    ensures step.saved.None? ==> st' == st
    ensures step.saved.Some? ==> |st'.interactions| == |st.interactions| + 1
  {
    match step.saved
    case None => st
    case Some(call) => SaveInteraction(st, id, date, call.agentName, call.transcript, call.result)
  }

  lemma {:induction false} CountStatusPrepend(x: Interaction, xs: seq<Interaction>, s: Status)
    ensures CountStatus([x] + xs, s) == CountStatus(xs, s) + (if HasStatus(x, s) then 1 else 0)
    decreases |xs|
  {
    if |xs| > 0 {
      var n := |xs| - 1;
      var ys := [x] + xs;
      CountStatusPrepend(x, xs[..n], s);
      assert ys[..n + 1] == [x] + xs[..n];
      assert ys[n + 1] == xs[n];
      assert CountStatus(ys, s) == CountStatus(ys[..n + 1], s) + (if HasStatus(xs[n], s) then 1 else 0);
      assert CountStatus(xs, s) == CountStatus(xs[..n], s) + (if HasStatus(xs[n], s) then 1 else 0);
    }
  }

  /** After a save the dashboard counts one more interaction and one more of
      the saved verdict; the other verdict counts do not change. */
  lemma SaveCounts(st: AppState, id: string, date: string, agentName: string,
                   transcript: string, result: AnalysisResult)
    ensures var xs := SaveInteraction(st, id, date, agentName, transcript, result).interactions;
      && ComputeStats(xs).total == ComputeStats(st.interactions).total + 1
      && forall s: Status :: CountStatus(xs, s)
           == CountStatus(st.interactions, s) + (if s == result.evaluationStatus then 1 else 0)
  {
    var xs := SaveInteraction(st, id, date, agentName, transcript, result).interactions;
    assert xs == [xs[0]] + st.interactions;
    forall s: Status
      ensures CountStatus(xs, s) == CountStatus(st.interactions, s) + (if s == result.evaluationStatus then 1 else 0)
    {
      CountStatusPrepend(xs[0], st.interactions, s);
    }
  }

  /** A successful analysis adds exactly one record, in front, with the
      evaluator's result; every other outcome, including a save handler that
      throws, leaves the list alone. */
  lemma AnalyzeThenSave(app: AppState, st: ToolState, read: Option<string>, reply: Reply, saveThrows: bool,
                        id: string, date: string)
    ensures var app' := ApplySave(app, HandleAnalyze(st, read, reply, saveThrows), id, date);
      if !MissingInput(st) && (st.audioFile.Some? ==> read.Some?) && reply.Answered? && !saveThrows then
        app' == SaveInteraction(app, id, date, AgentOrDefault(st.agentName), st.transcript, reply.data)
        && app'.interactions[0] == Interaction(id, AgentOrDefault(st.agentName), date, st.transcript, Some(reply.data))
        && app'.interactions[1..] == app.interactions
      else app' == app
  {
  }
}
