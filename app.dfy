/** The page controller (App.tsx): the view state, the stored stop handle,
    the two click handlers and the conditions that choose the right-hand
    panel. Each handler is one sequential step; the outcome of the awaited
    service call is an input. */
module App {
  import opened Types

  /** The function `speakSummary` resolves to; only its identity matters. */
  datatype StopHandle = StopHandle(id: nat)

  const AnalysisFailedMessage := "Analysis failed"

  /** JavaScript truthiness of `string | null`: the empty string is falsy. */
  predicate Truthy(s: Option<string>) { s.Some? && s.value != "" }

  /** The panel conditions of App.tsx:91, 103, 114 and 124. */
  predicate ShowsEmptyState(s: AppState) { s.result.None? && !s.isAnalyzing && !Truthy(s.error) }
  predicate ShowsAnalyzing(s: AppState) { s.isAnalyzing }
  predicate ShowsError(s: AppState) { Truthy(s.error) }
  predicate ShowsResult(s: AppState) { s.result.Some? && !s.isAnalyzing }

  /** `err.message || 'Analysis failed'`. */
  function ErrorText(message: string): (text: string)
    ensures text != ""
    ensures message != "" ==> text == message
    ensures message == "" ==> text == AnalysisFailedMessage
  {
    if message != "" then message else AnalysisFailedMessage
  }

  /** What every reachable view state satisfies: while analysing there is
      neither result nor error, there are never both, and a stored error is
      never the empty string. */
  predicate Consistent(s: AppState)
  {
    && (s.isAnalyzing ==> s.result.None? && s.error.None?)
    && !(s.result.Some? && s.error.Some?)
    && s.error != Some("")
  }

  /** In a consistent state exactly one of the four panels is shown. */
  lemma ExactlyOnePanel(s: AppState)
    requires Consistent(s)
    ensures ShowsEmptyState(s) || ShowsAnalyzing(s) || ShowsError(s) || ShowsResult(s)
    ensures !(ShowsEmptyState(s) && ShowsAnalyzing(s))
    ensures !(ShowsEmptyState(s) && ShowsError(s))
    ensures !(ShowsEmptyState(s) && ShowsResult(s))
    ensures !(ShowsAnalyzing(s) && ShowsError(s))
    ensures !(ShowsAnalyzing(s) && ShowsResult(s))
    ensures !(ShowsError(s) && ShowsResult(s))
  {
  }

  /** The empty-state panel shows exactly when there is no result, no
      analysis and no error; the result panel only with a result and no
      analysis. */
  lemma PanelConditions(s: AppState)
    requires Consistent(s)
    ensures ShowsEmptyState(s) <==> s.result.None? && !s.isAnalyzing && s.error.None?
    ensures ShowsResult(s) ==> s.result.Some? && !s.isAnalyzing && s.error.None?
    ensures ShowsError(s) <==> s.error.Some?
  {
  }

  /** No handle occurs twice. */
  predicate NoRepeats(handles: seq<StopHandle>)
  {
    forall i, j :: 0 <= i < j < |handles| ==> handles[i] != handles[j]
  }

  class Controller {
    var state: AppState
    var stopAudio: Option<StopHandle>
    /** The stop handles invoked so far, in order. */
    ghost var stopCalls: seq<StopHandle>
    /** The texts sent to the speech service so far, in order. */
    ghost var speechRequests: seq<string>
    /** The records sent to the prediction service so far, in order. */
    ghost var analysisRequests: seq<PatientData>

    /** Besides a consistent view state: while speaking a handle is stored
        that has not been invoked yet, and no handle has been invoked twice. */
    ghost predicate Valid()
      reads this
    {
      && Consistent(state)
      && (state.isSpeaking ==> stopAudio.Some? && stopAudio.value !in stopCalls)
      && NoRepeats(stopCalls)
    }

    /** The initial state, App.tsx:10-17. */
    constructor ()
      ensures Valid()
      ensures state == AppState(false, None, None, false) && stopAudio == None
      ensures stopCalls == [] && speechRequests == [] && analysisRequests == []
      ensures ShowsEmptyState(state)
    {
      state := AppState(false, None, None, false);
      stopAudio := None;
      stopCalls, speechRequests, analysisRequests := [], [], [];
    }

    /** The first update of handleAnalyze, App.tsx:20, and the request it
        then makes. */
    method StartAnalysis(data: PatientData)
      requires Valid()
      modifies this
      ensures Valid()
      ensures state == AppState(true, None, None, old(state.isSpeaking))
      ensures ShowsAnalyzing(state) && !ShowsEmptyState(state) && !ShowsError(state) && !ShowsResult(state)
      ensures analysisRequests == old(analysisRequests) + [data]
      ensures stopAudio == old(stopAudio) && stopCalls == old(stopCalls)
      ensures speechRequests == old(speechRequests)
    {
      state := state.(isAnalyzing := true, error := None, result := None);
      analysisRequests := analysisRequests + [data];
    }

    /** The continuation of handleAnalyze once `analyzeRisk` settles,
        App.tsx:22-25. It only runs after StartAnalysis. */
    method FinishAnalysis(outcome: Result<PredictionResult>)
      requires Valid() && state.isAnalyzing
      modifies this
      ensures Valid()
      ensures !state.isAnalyzing && state.isSpeaking == old(state.isSpeaking)
      ensures outcome.Ok? ==> state.result == Some(outcome.value) && state.error == None && ShowsResult(state)
      ensures outcome.Err? ==>
        state.result == None && state.error == Some(ErrorText(outcome.message)) && ShowsError(state)
      ensures stopAudio == old(stopAudio) && stopCalls == old(stopCalls)
      ensures speechRequests == old(speechRequests) && analysisRequests == old(analysisRequests)
    {
      match outcome
      case Ok(result) =>
        state := state.(result := Some(result), isAnalyzing := false);
      case Err(message) =>
        state := state.(isAnalyzing := false, error := Some(ErrorText(message)));
    }

    /** handleAnalyze, App.tsx:19-27: both steps, with `outcome` standing
        for what `analyzeRisk(data)` resolves or rejects with. */
    method HandleAnalyze(data: PatientData, outcome: Result<PredictionResult>)
      requires Valid()
      modifies this
      ensures Valid()
      ensures !state.isAnalyzing && state.isSpeaking == old(state.isSpeaking)
      ensures outcome.Ok? ==> state.result == Some(outcome.value) && state.error == None
      ensures outcome.Err? ==> state.result == None && state.error == Some(ErrorText(outcome.message))
      ensures analysisRequests == old(analysisRequests) + [data]
      ensures stopAudio == old(stopAudio) && stopCalls == old(stopCalls)
      ensures speechRequests == old(speechRequests)
    {
      StartAnalysis(data);
      FinishAnalysis(outcome);
    }

    /** handleSpeak, App.tsx:29-47, with `outcome` standing for what
        `speakSummary` resolves or rejects with; it is only used when a
        request is made. Without a result nothing happens. While speaking,
        the stored handle is invoked once and kept. Otherwise the summary
        is requested, `isSpeaking` is set, and then either the new handle is
        stored or `isSpeaking` is reset. Every call of `speakSummary`
        returns a new closure, so a returned handle has not been invoked
        before. */
    method HandleSpeak(outcome: Result<StopHandle>)
      requires Valid()
      requires outcome.Ok? ==> outcome.value !in stopCalls
      modifies this
      ensures Valid()
      ensures analysisRequests == old(analysisRequests)
      ensures state.isAnalyzing == old(state.isAnalyzing) && state.result == old(state.result)
      ensures state.error == old(state.error)
      ensures old(state.result).None? ==>
        && state == old(state) && stopAudio == old(stopAudio)
        && stopCalls == old(stopCalls) && speechRequests == old(speechRequests)
      ensures old(state.result).Some? && old(state.isSpeaking) ==>
        && !state.isSpeaking && stopAudio == old(stopAudio)
        && stopCalls == old(stopCalls) + [old(stopAudio).value]
        && speechRequests == old(speechRequests)
      ensures old(state.result).Some? && !old(state.isSpeaking) ==>
        && stopCalls == old(stopCalls)
        && speechRequests == old(speechRequests) + [old(state.result).value.clinicalSummary]
        && (outcome.Ok? ==> state.isSpeaking && stopAudio == Some(outcome.value))
        && (outcome.Err? ==> !state.isSpeaking && stopAudio == old(stopAudio))
    {
      if state.result.None? {
        return;
      }
      if state.isSpeaking && stopAudio.Some? {
        stopCalls := stopCalls + [stopAudio.value];
        state := state.(isSpeaking := false);
        return;
      }
      state := state.(isSpeaking := true);
      speechRequests := speechRequests + [state.result.value.clinicalSummary];
      match outcome
      case Ok(stop) =>
        stopAudio := Some(stop);
      case Err(_) =>
        state := state.(isSpeaking := false);
    }
  }
}
