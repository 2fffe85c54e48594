/**
 * The experiment-driven variant of evidence collection
 * (`domain/evidence/workflows/collect.ts`): the window comes from the
 * experiment, the requests use the fixed evidence model, and the stages
 * queued follow the experiment's evidence view.  No batch is created.
 * URL normalisation, the top-up and the request calls are those of
 * `EvidenceCollect` (this file carries its own copy of `normalizeUrl`,
 * identical to the one in `evidence_collect.ts`).
 */
module CollectByExperiment {
  import opened Wrappers
  import opened EvidenceCollect
  import LlmRequests

  /** The fields of an experiment this file reads. */
  datatype ExperimentDoc = ExperimentDoc(windowId: nat, evidenceView: string)

  /** `EVIDENCE_MODEL`. */
  const EvidenceModel := "gpt-4.1"

  const ExperimentNotFound := "Experiment not found"

  /** The `evidence_view` enum of the queue's arguments. */
  predicate ValidView(view: string)
  {
    view == "raw" || view == "cleaned" || view == "neutralized" || view == "abstracted"
  }

  /** `needsClean`, `needsNeutralize`, `needsAbstract` from the view. */
  function ViewNeeds(view: string): (needs: Needs)
    ensures needs.clean <==> view != "raw"
    ensures needs.neutralize <==> view == "neutralized" || view == "abstracted"
    ensures needs.abstraction <==> view == "abstracted"
  {
    Needs(view != "raw", view == "neutralized" || view == "abstracted", view == "abstracted")
  }

  /** Each valid view asks for the stages up to its own: a stage is queued only with the ones before it,
      and the abstracted view asks for all three, as the window-driven collection does. */
  lemma ViewsNest(view: string)
    requires ValidView(view)
    ensures ViewNeeds(view).abstraction ==> ViewNeeds(view).neutralize
    ensures ViewNeeds(view).neutralize ==> ViewNeeds(view).clean
    ensures ViewNeeds(view) == AllStages <==> view == "abstracted"
    ensures ViewNeeds(view) == Needs(false, false, false) <==> view == "raw"
  {
  }

  /** With no stage wanted the queue issues no call and counts nothing. */
  lemma {:induction false} NothingWanted(model: string, provider: string, p: EvidencePrompts,
                                         ev: seq<Evidence>, ids: seq<nat>)
    requires ValidIds(ev, ids)
    ensures QueueCalls(Needs(false, false, false), model, provider, p, ev, ids) == []
    ensures Tally(Needs(false, false, false), ev, ids) == Queued(0, 0, 0)
  {
    if |ids| > 0 {
      NothingWanted(model, provider, p, ev, ids[..|ids| - 1]);
    }
  }

  /** `queueEvidenceProcessing`: argument validation, then the rows of the window with the
      stages of the view, the evidence model and its provider. */
  method QueueEvidenceProcessing(store: EvidenceStore, providerFor: string -> string, p: EvidencePrompts,
                                 w: nat, view: string, requests: LlmRequests.RequestTable)
    returns (r: Result<Queued>)
    modifies requests
    ensures !ValidView(view) ==> r == Failure(InvalidArguments) && requests.rows == old(requests.rows)
    ensures ValidView(view) ==>
              var calls := QueueCalls(ViewNeeds(view), EvidenceModel, providerFor(EvidenceModel), p,
                                      store.evidences, RowsOf(store.evidences, w));
              requests.rows == LlmRequests.GetOrCreateAllRows(old(requests.rows), calls)
              && (r.Failure? <==> LlmRequests.GetOrCreateAllFails(old(requests.rows), calls))
              && (r.Success? ==> r.value == Tally(ViewNeeds(view), store.evidences, RowsOf(store.evidences, w)))
  {
    if !ValidView(view) {
      return Failure(InvalidArguments);
    }
    r := store.QueueRows(ViewNeeds(view), EvidenceModel, providerFor(EvidenceModel), p, w, requests);
  }

  /** What `collectEvidence` returns. */
  datatype Collected = Collected(collected: nat, total: nat, queued: Queued)

  /** `collectEvidence`: the experiment and its window, the top-up, the count of the window's
      rows, then the queue for the experiment's view.  Inserted rows stay when the queue fails. */
  method CollectEvidence(store: EvidenceStore, experiments: seq<ExperimentDoc>,
                         parse: string -> Option<ParsedUrl>, search: SearchQuery -> seq<SearchResult>,
                         providerFor: string -> string, p: EvidencePrompts, experimentId: nat,
                         limit: Option<int>, now: int, requests: LlmRequests.RequestTable)
    returns (r: Result<Collected>)
    modifies store, requests
    ensures store.windows == old(store.windows) && store.batches == old(store.batches) && store.items == old(store.items)
    ensures experimentId >= |experiments| ==>
              r == Failure(ExperimentNotFound) && store.evidences == old(store.evidences)
              && requests.rows == old(requests.rows)
    ensures experimentId < |experiments| && experiments[experimentId].windowId >= |store.windows| ==>
              r == Failure(WindowNotFound) && store.evidences == old(store.evidences)
              && requests.rows == old(requests.rows)
    ensures experimentId < |experiments| && experiments[experimentId].windowId < |store.windows| ==>
              var w := experiments[experimentId].windowId;
              var view := experiments[experimentId].evidenceView;
              var added := TopUp(KeyOf(parse), search, store.windows[w], old(store.evidences), w, Limit(limit));
              var ids := RowsOf(store.evidences, w);
              var calls := QueueCalls(ViewNeeds(view), EvidenceModel, providerFor(EvidenceModel), p, store.evidences, ids);
              store.evidences == old(store.evidences) + NewRows(w, now, added)
              && (!ValidView(view) ==> r == Failure(InvalidArguments) && requests.rows == old(requests.rows))
              && (ValidView(view) ==>
                    requests.rows == LlmRequests.GetOrCreateAllRows(old(requests.rows), calls)
                    && (r.Failure? <==> LlmRequests.GetOrCreateAllFails(old(requests.rows), calls))
                    && (r.Success? ==> r.value == Collected(|added|, |ids|, Tally(ViewNeeds(view), store.evidences, ids))))
  {
    if experimentId >= |experiments| {
      return Failure(ExperimentNotFound);
    }
    var experiment := experiments[experimentId];
    var w := experiment.windowId;
    if w >= |store.windows| {
      return Failure(WindowNotFound);
    }
    var lim := Limit(limit);
    var inserted := store.InsertTopUp(parse, search, w, lim, now);
    var total := |RowsOf(store.evidences, w)|;
    var queued := QueueEvidenceProcessing(store, providerFor, p, w, experiment.evidenceView, requests);
    if queued.Failure? {
      return Failure(queued.error);
    }
    r := Success(Collected(inserted, total, queued.value));
  }
}
