/**
 * Evidence collection for a window (`domain/evidence/workflows/evidence_collect.ts`):
 * URL normalisation, the search top-up that skips URLs already held, the
 * selection of the earliest rows into an evidence batch, and the queueing
 * of the clean, neutralize and abstract requests for rows that lack them.
 *
 * The tables are sequences whose positions are the ids.  The search
 * action, the URL parser, the prompt texts and `providerFor` are
 * parameters.
 */
module EvidenceCollect {
  import opened Wrappers
  import opened JsArrays
  import opened JsStrings
  import LlmRequests

  // ---------------------------------------------------------------------
  // normalizeUrl

  /** One pair of `URLSearchParams`. */
  datatype Param = Param(key: string, value: string)

  /** A parsed `URL`: `scheme` is the protocol with its colon, `rest` the port and path,
      `hash` the fragment with its `#` (or empty). */
  datatype ParsedUrl = ParsedUrl(scheme: string, hostname: string, rest: string, params: seq<Param>, hash: string)

  /** The query keys removed by name. */
  const DropKeys: seq<string> := ["fbclid", "gclid", "dclid", "igshid", "mc_cid", "mc_eid"]

  /** A tracking parameter: one of the dropped keys, or a key starting with `utm_`. */
  predicate Tracking(key: string)
  {
    key in DropKeys || (|key| >= 4 && key[..4] == "utm_")
  }

  function Kept(): Param -> bool
  {
    (p: Param) => !Tracking(p.key)
  }

  function PairText(p: Param): string
  {
    p.key + "=" + p.value
  }

  /** `parsed.search`: `?` and the serialised pairs, or empty when no pair is left. */
  function Search(params: seq<Param>): string
  {
    if |params| == 0 then "" else "?" + Join(seq(|params|, k requires 0 <= k < |params| => PairText(params[k])), "&")
  }

  /** `parsed.toString()`. */
  function Href(u: ParsedUrl): string
  {
    u.scheme + "//" + u.hostname + u.rest + Search(u.params) + u.hash
  }

  /** The edits to the parsed URL: no fragment, a lower-case host, no tracking parameters. */
  function NormalizeParsed(u: ParsedUrl): ParsedUrl
  {
    u.(hash := "", hostname := Lower(u.hostname), params := Filter(u.params, Kept()))
  }

  /** Drop one trailing `/`. */
  function StripSlash(s: string): string
  {
    if |s| > 0 && s[|s| - 1] == '/' then s[..|s| - 1] else s
  }

  /** `normalizeUrl`: the edited URL without one trailing slash; a URL that does not parse
      is trimmed and lower-cased instead. */
  function NormalizeUrl(parse: string -> Option<ParsedUrl>, url: string): string
  {
    match parse(url)
    case Some(u) => StripSlash(Href(NormalizeParsed(u)))
    case None => Lower(Trim(url))
  }

  /** Editing an edited URL changes nothing. */
  lemma NormalizeParsedIdempotent(u: ParsedUrl)
    ensures NormalizeParsed(NormalizeParsed(u)) == NormalizeParsed(u)
  {
    LowerIdempotent(u.hostname);
    FilterIdempotent(u.params, Kept());
  }

  /** What is left of the query: exactly the non-tracking pairs, in their order. */
  lemma NormalizedParams(u: ParsedUrl)
    ensures var ps := NormalizeParsed(u).params;
            Subsequence(ps, u.params)
            && (forall k :: 0 <= k < |ps| ==> !Tracking(ps[k].key))
            && (forall k :: 0 <= k < |u.params| && !Tracking(u.params[k].key) ==> u.params[k] in ps)
  {
    FilterSubsequence(u.params, Kept());
  }

  /** Tracking pairs inserted anywhere in the query, and any fragment, leave the key unchanged. */
  lemma TrackingIgnored(u: ParsedUrl, i: nat, extra: seq<Param>, hash: string)
    requires i <= |u.params|
    requires forall k :: 0 <= k < |extra| ==> Tracking(extra[k].key)
    ensures NormalizeParsed(u.(params := u.params[..i] + extra + u.params[i..], hash := hash)) == NormalizeParsed(u)
  {
    FilterSkip(u.params[..i], extra, u.params[i..], Kept());
    assert u.params[..i] + u.params[i..] == u.params;
  }

  /** Two URLs that parse to the same scheme, host up to case, port and path, and
      non-tracking pairs get the same key. */
  lemma SameKey(parse: string -> Option<ParsedUrl>, a: string, b: string)
    requires parse(a).Some? && parse(b).Some?
    requires var u, v := parse(a).value, parse(b).value;
             u.scheme == v.scheme && Lower(u.hostname) == Lower(v.hostname) && u.rest == v.rest
             && Filter(u.params, Kept()) == Filter(v.params, Kept())
    ensures NormalizeUrl(parse, a) == NormalizeUrl(parse, b)
  {
  }

  /** The parser reads a key back as a URL whose edited form serialises to the key again,
      up to the slash that was stripped, and the key does not itself end in a slash. */
  predicate ReadsBack(parse: string -> Option<ParsedUrl>, key: string)
  {
    (|key| == 0 || key[|key| - 1] != '/')
    && parse(key).Some?
    && (Href(NormalizeParsed(parse(key).value)) == key || Href(NormalizeParsed(parse(key).value)) == key + "/")
  }

  /** Normalising a key again gives the same key, when the parser reads the key back (parsed
      case) or still refuses it (unparsed case).  A serialisation ending in `//` is where
      the first premise fails: one slash is stripped per call. */
  lemma NormalizeUrlIdempotent(parse: string -> Option<ParsedUrl>, url: string)
    requires parse(url).Some? ==> ReadsBack(parse, NormalizeUrl(parse, url))
    requires parse(url).None? ==> parse(Lower(Trim(url))).None?
    ensures NormalizeUrl(parse, NormalizeUrl(parse, url)) == NormalizeUrl(parse, url)
  {
    var key := NormalizeUrl(parse, url);
    if parse(url).Some? {
      StripSlashBack(key);
      assert NormalizeUrl(parse, key) == StripSlash(Href(NormalizeParsed(parse(key).value)));
    } else {
      TrimEnds(url);
      LowerKeepsTrimmed(Trim(url));
      LowerIdempotent(Trim(url));
    }
  }

  /** A string without a trailing slash is kept, and gets back from one with it appended. */
  lemma StripSlashBack(key: string)
    requires |key| == 0 || key[|key| - 1] != '/'
    ensures StripSlash(key) == key && StripSlash(key + "/") == key
  {
    assert (key + "/")[..|key|] == key;
  }

  // ---------------------------------------------------------------------
  // The filter with the set of seen keys

  /** The dedupe key of a URL. */
  function KeyOf(parse: string -> Option<ParsedUrl>): string -> string
  {
    (url: string) => NormalizeUrl(parse, url)
  }

  /** A search hit (`SearchResult`). */
  datatype SearchResult = SearchResult(title: string, url: string, raw: string)

  /** Result i is the first hit with its key, and the key was not seen before the search. */
  predicate Fresh(key: string -> string, seen: set<string>, results: seq<SearchResult>, i: nat)
    requires i < |results|
  {
    key(results[i].url) !in seen
    && forall j :: 0 <= j < i ==> key(results[j].url) != key(results[i].url)
  }

  /** The fresh positions below n, in increasing order. */
  function FreshIndices(key: string -> string, seen: set<string>, results: seq<SearchResult>, n: nat): (idx: seq<nat>)
    requires n <= |results|
    ensures forall k :: 0 <= k < |idx| ==> idx[k] < n && Fresh(key, seen, results, idx[k])
    ensures forall i :: 0 <= i < n && Fresh(key, seen, results, i) ==> i in idx
    ensures forall k, m :: 0 <= k < m < |idx| ==> idx[k] < idx[m]
  {
    if n == 0 then []
    else
      var prior := FreshIndices(key, seen, results, n - 1);
      if Fresh(key, seen, results, n - 1) then prior + [n - 1] else prior
  }

  function Pick(results: seq<SearchResult>, idx: seq<nat>): (r: seq<SearchResult>)
    requires forall k :: 0 <= k < |idx| ==> idx[k] < |results|
    ensures |r| == |idx| && forall k :: 0 <= k < |idx| ==> r[k] == results[idx[k]]
  {
    seq(|idx|, k requires 0 <= k < |idx| => results[idx[k]])
  }

  /** The hits the filter keeps: the fresh ones, in search order. */
  function Dedupe(key: string -> string, seen: set<string>, results: seq<SearchResult>): seq<SearchResult>
  {
    Pick(results, FreshIndices(key, seen, results, |results|))
  }

  /** The seen set after i hits: the existing keys and the keys of those hits. */
  ghost predicate SeenAfter(key: string -> string, existing: set<string>, results: seq<SearchResult>,
                      i: nat, seen: set<string>)
    requires i <= |results|
  {
    forall x :: x in seen <==> x in existing || exists j :: 0 <= j < i && key(results[j].url) == x
  }

  /** One step of the filter: a hit is kept exactly when it is fresh, and its key joins the set. */
  lemma FilterStep(key: string -> string, existing: set<string>, results: seq<SearchResult>,
                   i: nat, seen: set<string>)
    requires i < |results| && SeenAfter(key, existing, results, i, seen)
    ensures var normalized := key(results[i].url);
            (normalized !in seen <==> Fresh(key, existing, results, i))
            && SeenAfter(key, existing, results, i + 1, seen + {normalized})
            && (normalized in seen ==> SeenAfter(key, existing, results, i + 1, seen))
  {
    var normalized := key(results[i].url);
    if normalized in seen && normalized !in existing {
      var j :| 0 <= j < i && key(results[j].url) == normalized;
    }
  }

  /** The fresh positions below n + 1 extend those below n by n exactly when n is fresh. */
  lemma PickStep(key: string -> string, existing: set<string>, results: seq<SearchResult>, n: nat)
    requires n < |results|
    ensures var prior := FreshIndices(key, existing, results, n);
            Pick(results, FreshIndices(key, existing, results, n + 1))
            == if Fresh(key, existing, results, n) then Pick(results, prior) + [results[n]] else Pick(results, prior)
  {
    var prior := FreshIndices(key, existing, results, n);
    if Fresh(key, existing, results, n) {
      assert Pick(results, prior + [n]) == Pick(results, prior) + [results[n]];
    }
  }

  /** The `results.filter` whose callback consults and extends the set of seen keys. */
  method FilterNew(key: string -> string, existing: set<string>, results: seq<SearchResult>)
    returns (kept: seq<SearchResult>)
    ensures kept == Dedupe(key, existing, results)
  {
    var seen := existing;
    kept := [];
    var i := 0;
    while i < |results|
      invariant 0 <= i <= |results|
      invariant kept == Pick(results, FreshIndices(key, existing, results, i))
      invariant SeenAfter(key, existing, results, i, seen)
    {
      var normalized := key(results[i].url);
      FilterStep(key, existing, results, i, seen);
      PickStep(key, existing, results, i);
      if normalized !in seen {
        seen := seen + {normalized};
        kept := kept + [results[i]];
      }
      i := i + 1;
    }
  }

  /** The kept hits have keys that were not seen before and that differ from each other. */
  lemma DedupeDistinct(key: string -> string, seen: set<string>, results: seq<SearchResult>)
    ensures var out := Dedupe(key, seen, results);
            (forall k :: 0 <= k < |out| ==> key(out[k].url) !in seen)
            && (forall k, m :: 0 <= k < m < |out| ==> key(out[k].url) != key(out[m].url))
  {
    var idx := FreshIndices(key, seen, results, |results|);
    var out := Dedupe(key, seen, results);
    forall k, m | 0 <= k < m < |out|
      ensures key(out[k].url) != key(out[m].url)
    {
      assert idx[k] < idx[m] && Fresh(key, seen, results, idx[m]);
    }
  }

  /** Every unseen key of the search is kept, by the first hit that has it. */
  lemma {:induction false} DedupeKeepsFirst(key: string -> string, seen: set<string>, results: seq<SearchResult>, i: nat)
    requires i < |results| && key(results[i].url) !in seen
    ensures exists j :: 0 <= j <= i && key(results[j].url) == key(results[i].url)
                        && Fresh(key, seen, results, j) && results[j] in Dedupe(key, seen, results)
  {
    var idx := FreshIndices(key, seen, results, |results|);
    if Fresh(key, seen, results, i) {
      var k :| 0 <= k < |idx| && idx[k] == i;
      assert Dedupe(key, seen, results)[k] == results[i];
    } else {
      var j :| 0 <= j < i && key(results[j].url) == key(results[i].url);
      DedupeKeepsFirst(key, seen, results, j);
    }
  }

  // ---------------------------------------------------------------------
  // The tables

  /** The fields of a window this file reads. */
  datatype WindowDoc = WindowDoc(concept: string, country: string, startDate: string, endDate: string, modelId: string)

  /** An evidence row, with the content field names this file reads. */
  datatype Evidence = Evidence(windowId: nat, title: string, url: string, raw: string,
                               cleaned: Option<string>, neutralized: Option<string>, abstracted: Option<string>,
                               creationTime: int)

  datatype EvidenceBatch = EvidenceBatch(windowId: nat, evidenceLimit: int, evidenceCount: nat, createdAt: int)

  datatype BatchItem = BatchItem(batchId: nat, evidenceId: nat, position: nat)

  /** The arguments of `searchNews`. */
  datatype SearchQuery = SearchQuery(concept: string, country: string, startDate: string, endDate: string, limit: int)

  const DefaultLimit := 15
  const WindowNotFound := "Window not found"
  const NoEvidence := "No evidence found for window"
  const InvalidArguments := "invalid arguments"

  /** The `by_window_id` index: the ids of the window's rows below n, in table order. */
  function WindowIds(ev: seq<Evidence>, w: nat, n: nat): (ids: seq<nat>)
    requires n <= |ev|
    ensures forall k :: 0 <= k < |ids| ==> ids[k] < n && ev[ids[k]].windowId == w
    ensures forall i :: 0 <= i < n && ev[i].windowId == w ==> i in ids
    ensures forall k, m :: 0 <= k < m < |ids| ==> ids[k] < ids[m]
  {
    if n == 0 then []
    else
      var prior := WindowIds(ev, w, n - 1);
      if ev[n - 1].windowId == w then prior + [n - 1] else prior
  }

  function RowsOf(ev: seq<Evidence>, w: nat): seq<nat>
  {
    WindowIds(ev, w, |ev|)
  }

  predicate ValidIds(ev: seq<Evidence>, ids: seq<nat>)
  {
    forall k :: 0 <= k < |ids| ==> ids[k] < |ev|
  }

  /** The key set built from the window's existing rows. */
  function ExistingKeys(key: string -> string, ev: seq<Evidence>, ids: seq<nat>): set<string>
    requires ValidIds(ev, ids)
  {
    set k | 0 <= k < |ids| :: key(ev[ids[k]].url)
  }

  /** `limit ?? DEFAULT_LIMIT`. */
  function Limit(limit: Option<int>): int
  {
    limit.GetOr(DefaultLimit)
  }

  /** The length of the preview query: `limit ? take(limit) : collect()` (a negative count is
      read as the whole list; the comparison that follows fails for it either way). */
  function PreviewLength(n: nat, lim: int): nat
  {
    if lim > 0 && lim < n then lim else n
  }

  /** The hits the action inserts: none when the preview already reaches the limit or nothing
      remains; otherwise the unseen hits of a search for the remaining count. */
  function TopUp(key: string -> string, search: SearchQuery -> seq<SearchResult>,
                 window: WindowDoc, ev: seq<Evidence>, w: nat, lim: int): seq<SearchResult>
  {
    var ids := RowsOf(ev, w);
    if PreviewLength(|ids|, lim) < lim then
      var remaining := if lim - |ids| > 0 then lim - |ids| else 0;
      if remaining > 0 then
        Dedupe(key, ExistingKeys(key, ev, ids),
               search(SearchQuery(window.concept, window.country, window.startDate, window.endDate, remaining)))
      else []
    else []
  }

  /** The search runs exactly when the window has fewer rows than the limit, for the missing
      count; what it inserts has keys held by no existing row of the window and by no other
      inserted hit. */
  lemma TopUpFacts(key: string -> string, search: SearchQuery -> seq<SearchResult>,
                   window: WindowDoc, ev: seq<Evidence>, w: nat, lim: int)
    ensures var ids := RowsOf(ev, w);
            var added := TopUp(key, search, window, ev, w, lim);
            (|ids| >= lim ==> added == [])
            && (|ids| < lim ==>
                  added == Dedupe(key, ExistingKeys(key, ev, ids),
                                  search(SearchQuery(window.concept, window.country, window.startDate, window.endDate, lim - |ids|))))
            && (forall k, i :: 0 <= k < |added| && 0 <= i < |ev| && ev[i].windowId == w ==>
                  key(added[k].url) != key(ev[i].url))
            && (forall k, m :: 0 <= k < m < |added| ==> key(added[k].url) != key(added[m].url))
  {
    var ids := RowsOf(ev, w);
    if |ids| < lim {
      var seen := ExistingKeys(key, ev, ids);
      var results := search(SearchQuery(window.concept, window.country, window.startDate, window.endDate, lim - |ids|));
      DedupeDistinct(key, seen, results);
      forall i | 0 <= i < |ev| && ev[i].windowId == w
        ensures key(ev[i].url) in seen
      {
        var k :| 0 <= k < |ids| && ids[k] == i;
      }
    }
  }

  /** The row `createEvidence` inserts for a hit. */
  function NewRow(w: nat, now: int, r: SearchResult): Evidence
  {
    Evidence(w, r.title, r.url, r.raw, None, None, None, now)
  }

  function NewRows(w: nat, now: int, added: seq<SearchResult>): (rows: seq<Evidence>)
    ensures |rows| == |added| && forall k :: 0 <= k < |added| ==> rows[k] == NewRow(w, now, added[k])
  {
    seq(|added|, k requires 0 <= k < |added| => NewRow(w, now, added[k]))
  }

  /** The sort key `a._creationTime - b._creationTime` on row ids. */
  function Created(ev: seq<Evidence>): nat -> int
  {
    (i: nat) => if i < |ev| then ev[i].creationTime else 0
  }

  /** `ordered.slice(0, lim)`: the ids by creation time, cut at the limit. */
  function Selected(ev: seq<Evidence>, ids: seq<nat>, lim: int): seq<nat>
  {
    SliceTo(SortBy(ids, Created(ev)), lim)
  }

  /** The selection holds min(limit, rows) of the window's rows for a non-negative limit, and no
      row it leaves out was created before one it takes. */
  lemma SelectedEarliest(ev: seq<Evidence>, ids: seq<nat>, lim: int)
    ensures var sel := Selected(ev, ids, lim);
            (lim >= 0 ==> |sel| == if lim < |ids| then lim else |ids|)
            && (forall k :: 0 <= k < |sel| ==> sel[k] in ids)
            && (forall a, b :: a in sel && b in ids && b !in sel ==> Created(ev)(a) <= Created(ev)(b))
  {
    var sorted := SortBy(ids, Created(ev));
    var sel := Selected(ev, ids, lim);
    var e := SliceEnd(|ids|, lim);
    assert sel == sorted[..e];
    SortBySorted(ids, Created(ev));
    forall k | 0 <= k < |sel| ensures sel[k] in ids {
      assert sel[k] in multiset(sorted);
    }
    forall a, b | a in sel && b in ids && b !in sel
      ensures Created(ev)(a) <= Created(ev)(b)
    {
      var p :| 0 <= p < e && sorted[p] == a;
      assert b in multiset(sorted);
      var q :| 0 <= q < |sorted| && sorted[q] == b;
    }
  }

  /** The items of a batch: the ids in order, at positions 1, 2, ... */
  function ItemsFor(batchId: nat, ids: seq<nat>): (items: seq<BatchItem>)
    ensures |items| == |ids| && forall k :: 0 <= k < |ids| ==> items[k] == BatchItem(batchId, ids[k], k + 1)
  {
    seq(|ids|, k requires 0 <= k < |ids| => BatchItem(batchId, ids[k], k + 1))
  }

  // ---------------------------------------------------------------------
  // The requests the queue issues

  /** The stages the queue considers (`needsClean`, `needsNeutralize`, `needsAbstract`). */
  datatype Needs = Needs(clean: bool, neutralize: bool, abstraction: bool)

  /** This file queues every stage. */
  const AllStages := Needs(true, true, true)

  /** The instruction texts and the user-prompt builders of the evidence prompts. */
  datatype EvidencePrompts = EvidencePrompts(
    cleanSystem: string, neutralizeSystem: string, abstractSystem: string,
    clean: string -> string, neutralize: string -> string, abstraction: string -> string)

  predicate NeedsClean(needs: Needs, e: Evidence) { needs.clean && !LlmRequests.Truthy(e.cleaned) }
  predicate NeedsNeutralize(needs: Needs, e: Evidence) { needs.neutralize && !LlmRequests.Truthy(e.neutralized) }
  predicate NeedsAbstract(needs: Needs, e: Evidence) { needs.abstraction && !LlmRequests.Truthy(e.abstracted) }

  /** The neutralize input: `cleaned_content ?? raw_content` (an empty cleaned text is kept). */
  function NeutralizeSource(e: Evidence): string
  {
    e.cleaned.GetOr(e.raw)
  }

  /** The abstract input: `neutralized_content ?? cleaned_content ?? raw_content`. */
  function AbstractSource(e: Evidence): string
  {
    if e.neutralized.Some? then e.neutralized.value else e.cleaned.GetOr(e.raw)
  }

  /** Temperature 0.2, the token cap, request version 1, only the evidence id set. */
  function EvidenceArgs(stage: string, model: string, provider: string, system: string, user: string,
                        id: nat, maxTokens: int): LlmRequests.Args
  {
    LlmRequests.Args(stage, provider, model, Some(system), Some(user), None, None, None, Some(id),
                     LlmRequests.Sampling(Some(0.2), None, None, Some(maxTokens), None), Some(1))
  }

  function CleanArgs(model: string, provider: string, p: EvidencePrompts, id: nat, e: Evidence): LlmRequests.Args
  {
    EvidenceArgs("evidence_clean", model, provider, p.cleanSystem, p.clean(e.raw), id, 1200)
  }

  function NeutralizeArgs(model: string, provider: string, p: EvidencePrompts, id: nat, e: Evidence): LlmRequests.Args
  {
    EvidenceArgs("evidence_neutralize", model, provider, p.neutralizeSystem, p.neutralize(NeutralizeSource(e)), id, 1000)
  }

  function AbstractArgs(model: string, provider: string, p: EvidencePrompts, id: nat, e: Evidence): LlmRequests.Args
  {
    EvidenceArgs("evidence_abstract", model, provider, p.abstractSystem, p.abstraction(AbstractSource(e)), id, 1200)
  }

  function CleanCall(needs: Needs, model: string, provider: string, p: EvidencePrompts, id: nat, e: Evidence): seq<LlmRequests.Args>
  {
    if NeedsClean(needs, e) then [CleanArgs(model, provider, p, id, e)] else []
  }

  function NeutralizeCall(needs: Needs, model: string, provider: string, p: EvidencePrompts, id: nat, e: Evidence): seq<LlmRequests.Args>
  {
    if NeedsNeutralize(needs, e) then [NeutralizeArgs(model, provider, p, id, e)] else []
  }

  function AbstractCall(needs: Needs, model: string, provider: string, p: EvidencePrompts, id: nat, e: Evidence): seq<LlmRequests.Args>
  {
    if NeedsAbstract(needs, e) then [AbstractArgs(model, provider, p, id, e)] else []
  }

  /** The calls for one row, clean before neutralize before abstract. */
  function RowCalls(needs: Needs, model: string, provider: string, p: EvidencePrompts, id: nat, e: Evidence): seq<LlmRequests.Args>
  {
    CleanCall(needs, model, provider, p, id, e) + NeutralizeCall(needs, model, provider, p, id, e)
    + AbstractCall(needs, model, provider, p, id, e)
  }

  /** All calls of the loop over the window's rows, in row order. */
  function QueueCalls(needs: Needs, model: string, provider: string, p: EvidencePrompts,
                      ev: seq<Evidence>, ids: seq<nat>): seq<LlmRequests.Args>
    requires ValidIds(ev, ids)
  {
    if |ids| == 0 then []
    else
      QueueCalls(needs, model, provider, p, ev, ids[..|ids| - 1])
      + RowCalls(needs, model, provider, p, ids[|ids| - 1], ev[ids[|ids| - 1]])
  }

  /** The three counters `queuedClean`, `queuedNeutralize`, `queuedAbstract`. */
  datatype Queued = Queued(clean: nat, neutralize: nat, abstraction: nat)

  function Bit(b: bool): nat { if b then 1 else 0 }

  /** The counters after one more row. */
  function Bump(t: Queued, needs: Needs, e: Evidence): Queued
  {
    Queued(t.clean + Bit(NeedsClean(needs, e)), t.neutralize + Bit(NeedsNeutralize(needs, e)),
           t.abstraction + Bit(NeedsAbstract(needs, e)))
  }

  function Tally(needs: Needs, ev: seq<Evidence>, ids: seq<nat>): Queued
    requires ValidIds(ev, ids)
  {
    if |ids| == 0 then Queued(0, 0, 0)
    else Bump(Tally(needs, ev, ids[..|ids| - 1]), needs, ev[ids[|ids| - 1]])
  }

  /** The loop's step: the calls and the counters of one more row. */
  lemma QueueStep(needs: Needs, model: string, provider: string, p: EvidencePrompts,
                  ev: seq<Evidence>, ids: seq<nat>, i: nat)
    requires ValidIds(ev, ids) && i < |ids|
    ensures ValidIds(ev, ids[..i]) && ValidIds(ev, ids[..i + 1])
    ensures QueueCalls(needs, model, provider, p, ev, ids[..i + 1])
            == QueueCalls(needs, model, provider, p, ev, ids[..i]) + RowCalls(needs, model, provider, p, ids[i], ev[ids[i]])
    ensures Tally(needs, ev, ids[..i + 1]) == Bump(Tally(needs, ev, ids[..i]), needs, ev[ids[i]])
  {
    assert ids[..i + 1][..i] == ids[..i];
  }

  /** One call per counted request: the counters add up to the number of calls. */
  lemma {:induction false} TallyCountsCalls(needs: Needs, model: string, provider: string, p: EvidencePrompts,
                                            ev: seq<Evidence>, ids: seq<nat>)
    requires ValidIds(ev, ids)
    ensures var t := Tally(needs, ev, ids);
            |QueueCalls(needs, model, provider, p, ev, ids)| == t.clean + t.neutralize + t.abstraction
            && t.clean <= |ids| && t.neutralize <= |ids| && t.abstraction <= |ids|
  {
    if |ids| > 0 {
      TallyCountsCalls(needs, model, provider, p, ev, ids[..|ids| - 1]);
    }
  }

  /** A row of the window gets a clean, neutralize or abstract request exactly when that stage
      is wanted and its content is missing or empty. */
  lemma {:induction false} QueueCallsMeaning(needs: Needs, model: string, provider: string, p: EvidencePrompts,
                                             ev: seq<Evidence>, ids: seq<nat>, k: nat)
    requires ValidIds(ev, ids) && k < |ids|
    requires forall a, b :: 0 <= a < b < |ids| ==> ids[a] < ids[b]
    ensures var calls := QueueCalls(needs, model, provider, p, ev, ids);
            var id := ids[k];
            var e := ev[id];
            (CleanArgs(model, provider, p, id, e) in calls <==> NeedsClean(needs, e))
            && (NeutralizeArgs(model, provider, p, id, e) in calls <==> NeedsNeutralize(needs, e))
            && (AbstractArgs(model, provider, p, id, e) in calls <==> NeedsAbstract(needs, e))
  {
    var n := |ids| - 1;
    var front := ids[..n];
    var id := ids[k];
    var e := ev[id];
    var prior := QueueCalls(needs, model, provider, p, ev, front);
    var last := RowCalls(needs, model, provider, p, ids[n], ev[ids[n]]);
    assert QueueCalls(needs, model, provider, p, ev, ids) == prior + last;
    if k < n {
      assert front[k] == id;
      QueueCallsMeaning(needs, model, provider, p, ev, front, k);
      assert ids[n] != id;
      RowCallsCarryId(needs, model, provider, p, ids[n], ev[ids[n]]);
    } else {
      assert forall a :: 0 <= a < |front| ==> front[a] == ids[a] && front[a] < id;
      QueueCallsOnlyFor(needs, model, provider, p, ev, front, id);
      RowCallsOwn(needs, model, provider, p, id, e);
    }
  }

  /** A row's own calls: one per wanted stage whose content is missing. */
  lemma RowCallsOwn(needs: Needs, model: string, provider: string, p: EvidencePrompts, id: nat, e: Evidence)
    ensures var calls := RowCalls(needs, model, provider, p, id, e);
            (CleanArgs(model, provider, p, id, e) in calls <==> NeedsClean(needs, e))
            && (NeutralizeArgs(model, provider, p, id, e) in calls <==> NeedsNeutralize(needs, e))
            && (AbstractArgs(model, provider, p, id, e) in calls <==> NeedsAbstract(needs, e))
  {
  }

  /** The calls for a row carry its id. */
  lemma RowCallsCarryId(needs: Needs, model: string, provider: string, p: EvidencePrompts, id: nat, e: Evidence)
    ensures forall c :: c in RowCalls(needs, model, provider, p, id, e) ==> c.evidenceId == Some(id)
  {
  }

  /** Every call of the queue carries the id of one of the listed rows. */
  lemma {:induction false} QueueCallsOnlyFor(needs: Needs, model: string, provider: string, p: EvidencePrompts,
                                             ev: seq<Evidence>, ids: seq<nat>, id: nat)
    requires ValidIds(ev, ids) && id !in ids
    ensures forall c :: c in QueueCalls(needs, model, provider, p, ev, ids) ==> c.evidenceId != Some(id)
  {
    if |ids| > 0 {
      assert forall a :: a in ids[..|ids| - 1] ==> a in ids;
      QueueCallsOnlyFor(needs, model, provider, p, ev, ids[..|ids| - 1], id);
    }
  }

  /** After the queue ran on a table with unique identities, each stage a row of the window
      lacked has exactly one request row with that call's identity. */
  lemma QueuedOnce(needs: Needs, model: string, provider: string, p: EvidencePrompts,
                   ev: seq<Evidence>, ids: seq<nat>, rows: seq<LlmRequests.Request>, k: nat)
    requires ValidIds(ev, ids) && k < |ids|
    requires forall a, b :: 0 <= a < b < |ids| ==> ids[a] < ids[b]
    requires LlmRequests.UniqueIdentities(rows)
    ensures var after := LlmRequests.GetOrCreateAllRows(rows, QueueCalls(needs, model, provider, p, ev, ids));
            var id := ids[k];
            var e := ev[id];
            (NeedsClean(needs, e) ==>
               |LlmRequests.Matching(after, LlmRequests.IdentityOf(CleanArgs(model, provider, p, id, e)))| == 1)
            && (NeedsNeutralize(needs, e) ==>
                  |LlmRequests.Matching(after, LlmRequests.IdentityOf(NeutralizeArgs(model, provider, p, id, e)))| == 1)
            && (NeedsAbstract(needs, e) ==>
                  |LlmRequests.Matching(after, LlmRequests.IdentityOf(AbstractArgs(model, provider, p, id, e)))| == 1)
  {
    var calls := QueueCalls(needs, model, provider, p, ev, ids);
    var id := ids[k];
    var e := ev[id];
    QueueCallsMeaning(needs, model, provider, p, ev, ids, k);
    forall c | c in calls
      ensures |LlmRequests.Matching(LlmRequests.GetOrCreateAllRows(rows, calls), LlmRequests.IdentityOf(c))| == 1
    {
      var j :| 0 <= j < |calls| && calls[j] == c;
      LlmRequests.GetOrCreateAllCovers(rows, calls, j);
    }
  }

  /** The body of the loop for one row: each wanted stage whose content is missing adds its
      request and bumps its counter. */
  method QueueRow(needs: Needs, model: string, provider: string, p: EvidencePrompts, id: nat, row: Evidence)
    returns (calls: seq<LlmRequests.Args>, clean: nat, neutralize: nat, abstraction: nat)
    ensures calls == RowCalls(needs, model, provider, p, id, row)
    ensures clean == Bit(NeedsClean(needs, row)) && neutralize == Bit(NeedsNeutralize(needs, row))
    ensures abstraction == Bit(NeedsAbstract(needs, row))
  {
    calls := [];
    clean, neutralize, abstraction := 0, 0, 0;
    if NeedsClean(needs, row) {
      calls := calls + [CleanArgs(model, provider, p, id, row)];
      clean := clean + 1;
    }
    if NeedsNeutralize(needs, row) {
      calls := calls + [NeutralizeArgs(model, provider, p, id, row)];
      neutralize := neutralize + 1;
    }
    if NeedsAbstract(needs, row) {
      calls := calls + [AbstractArgs(model, provider, p, id, row)];
      abstraction := abstraction + 1;
    }
  }

  /** The loop over the rows: the requests each row lacks, and the three counters. */
  method QueueLoop(needs: Needs, model: string, provider: string, p: EvidencePrompts,
                   ev: seq<Evidence>, ids: seq<nat>) returns (calls: seq<LlmRequests.Args>, counts: Queued)
    requires ValidIds(ev, ids)
    ensures calls == QueueCalls(needs, model, provider, p, ev, ids)
    ensures counts == Tally(needs, ev, ids)
  {
    calls := [];
    counts := Queued(0, 0, 0);
    var i := 0;
    while i < |ids|
      invariant 0 <= i <= |ids| && ValidIds(ev, ids[..i])
      invariant calls == QueueCalls(needs, model, provider, p, ev, ids[..i])
      invariant counts == Tally(needs, ev, ids[..i])
    {
      QueueStep(needs, model, provider, p, ev, ids, i);
      var rowCalls, c, n, a := QueueRow(needs, model, provider, p, ids[i], ev[ids[i]]);
      calls := calls + rowCalls;
      counts := Queued(counts.clean + c, counts.neutralize + n, counts.abstraction + a);
      assert counts == Bump(Tally(needs, ev, ids[..i]), needs, ev[ids[i]]);
      i := i + 1;
    }
    assert ids[..i] == ids;
  }

  // ---------------------------------------------------------------------
  // The store

  /** What `collectEvidence` returns. */
  datatype CollectSummary = CollectSummary(collected: nat, total: nat, queued: Queued, batchId: nat, evidenceCount: nat)

  class EvidenceStore {
    var windows: seq<WindowDoc>
    var evidences: seq<Evidence>
    var batches: seq<EvidenceBatch>
    var items: seq<BatchItem>

    constructor(windows0: seq<WindowDoc>, evidences0: seq<Evidence>)
      ensures windows == windows0 && evidences == evidences0 && batches == [] && items == []
    {
      windows := windows0;
      evidences := evidences0;
      batches := [];
      items := [];
    }

    /** One `createEvidence` per kept hit, in order. */
    method InsertRows(w: nat, now: int, added: seq<SearchResult>)
      modifies this
      ensures windows == old(windows) && batches == old(batches) && items == old(items)
      ensures evidences == old(evidences) + NewRows(w, now, added)
    {
      var i := 0;
      while i < |added|
        invariant 0 <= i <= |added|
        invariant evidences == old(evidences) + NewRows(w, now, added[..i])
        invariant windows == old(windows) && batches == old(batches) && items == old(items)
      {
        assert NewRows(w, now, added[..i + 1]) == NewRows(w, now, added[..i]) + [NewRow(w, now, added[i])];
        evidences := evidences + [NewRow(w, now, added[i])];
        i := i + 1;
      }
      assert added[..i] == added;
    }

    /** The preview, the search and its filter, and one `createEvidence` per kept hit; each
        insert commits on its own. */
    method InsertTopUp(parse: string -> Option<ParsedUrl>, search: SearchQuery -> seq<SearchResult>,
                       w: nat, lim: int, now: int) returns (inserted: nat)
      requires w < |windows|
      modifies this
      ensures windows == old(windows) && batches == old(batches) && items == old(items)
      ensures evidences == old(evidences) + NewRows(w, now, TopUp(KeyOf(parse), search, windows[w], old(evidences), w, lim))
      ensures inserted == |TopUp(KeyOf(parse), search, windows[w], old(evidences), w, lim)|
    {
      var window := windows[w];
      var ids := RowsOf(evidences, w);
      inserted := 0;
      if PreviewLength(|ids|, lim) < lim {
        var existingUrls := ExistingKeys(KeyOf(parse), evidences, ids);
        var remaining := if lim - |ids| > 0 then lim - |ids| else 0;
        if remaining > 0 {
          var results := search(SearchQuery(window.concept, window.country, window.startDate, window.endDate, remaining));
          var added := FilterNew(KeyOf(parse), existingUrls, results);
          InsertRows(w, now, added);
          inserted := |added|;
        }
      }
    }

    /** `createEvidenceBatch`: argument validation, the batch row, then one item per id at
        positions 1..n. */
    method CreateEvidenceBatch(w: nat, evidenceLimit: int, ids: seq<nat>, now: int) returns (r: Result<(nat, nat)>)
      modifies this
      ensures evidenceLimit < 1 || |ids| == 0 ==>
                r == Failure(InvalidArguments) && batches == old(batches) && items == old(items)
      ensures evidenceLimit >= 1 && |ids| > 0 ==>
                r == Success((|old(batches)|, |ids|))
                && batches == old(batches) + [EvidenceBatch(w, evidenceLimit, |ids|, now)]
                && items == old(items) + ItemsFor(|old(batches)|, ids)
      ensures windows == old(windows) && evidences == old(evidences)
    {
      if evidenceLimit < 1 || |ids| == 0 {
        return Failure(InvalidArguments);
      }
      var batchId := |batches|;
      batches := batches + [EvidenceBatch(w, evidenceLimit, |ids|, now)];
      var start := items;
      var position := 1;
      var i := 0;
      while i < |ids|
        invariant 0 <= i <= |ids| && position == i + 1
        invariant items == start + ItemsFor(batchId, ids[..i])
        invariant windows == old(windows) && evidences == old(evidences)
        invariant batches == old(batches) + [EvidenceBatch(w, evidenceLimit, |ids|, now)]
      {
        assert ItemsFor(batchId, ids[..i + 1]) == ItemsFor(batchId, ids[..i]) + [BatchItem(batchId, ids[i], position)];
        items := items + [BatchItem(batchId, ids[i], position)];
        position := position + 1;
        i := i + 1;
      }
      assert ids[..i] == ids;
      r := Success((batchId, |ids|));
    }

    /** A queueing mutation: the calls of its loop over the window's rows, issued in order; a
        throwing call rolls the mutation back. */
    method QueueRows(needs: Needs, model: string, provider: string, p: EvidencePrompts, w: nat,
                     requests: LlmRequests.RequestTable) returns (r: Result<Queued>)
      modifies requests
      ensures var calls := QueueCalls(needs, model, provider, p, evidences, RowsOf(evidences, w));
              requests.rows == LlmRequests.GetOrCreateAllRows(old(requests.rows), calls)
              && (r.Failure? <==> LlmRequests.GetOrCreateAllFails(old(requests.rows), calls))
              && (r.Success? ==> r.value == Tally(needs, evidences, RowsOf(evidences, w)))
    {
      var calls, counts := QueueLoop(needs, model, provider, p, evidences, RowsOf(evidences, w));
      var res := requests.GetOrCreateAll(calls);
      if res.Failure? {
        return Failure(res.error);
      }
      r := Success(counts);
    }

    /** `queueEvidenceProcessing`: every stage, the window's model and its provider. */
    method QueueEvidenceProcessing(providerFor: string -> string, p: EvidencePrompts, w: nat,
                                   requests: LlmRequests.RequestTable) returns (r: Result<Queued>)
      modifies requests
      ensures w >= |windows| ==> r == Failure(WindowNotFound) && requests.rows == old(requests.rows)
      ensures w < |windows| ==>
                var model := windows[w].modelId;
                var calls := QueueCalls(AllStages, model, providerFor(model), p, evidences, RowsOf(evidences, w));
                requests.rows == LlmRequests.GetOrCreateAllRows(old(requests.rows), calls)
                && (r.Failure? <==> LlmRequests.GetOrCreateAllFails(old(requests.rows), calls))
                && (r.Success? ==> r.value == Tally(AllStages, evidences, RowsOf(evidences, w)))
    {
      if w >= |windows| {
        return Failure(WindowNotFound);
      }
      var model := windows[w].modelId;
      r := QueueRows(AllStages, model, providerFor(model), p, w, requests);
    }
    /** `collectEvidence`: the window lookup, the top-up, the earliest rows up to the limit into
        a batch, then the queue.  Each step commits on its own, so rows inserted before a
        later step throws stay in the table. */
    method CollectEvidence(parse: string -> Option<ParsedUrl>, search: SearchQuery -> seq<SearchResult>,
                           providerFor: string -> string, p: EvidencePrompts, w: nat, limit: Option<int>,
                           now: int, requests: LlmRequests.RequestTable) returns (r: Result<CollectSummary>)
      modifies this, requests
      ensures windows == old(windows)
      ensures w >= |windows| ==>
                r == Failure(WindowNotFound) && evidences == old(evidences) && batches == old(batches)
                && items == old(items) && requests.rows == old(requests.rows)
      ensures w < |windows| ==>
                var lim := Limit(limit);
                var added := TopUp(KeyOf(parse), search, windows[w], old(evidences), w, lim);
                var selected := Selected(evidences, RowsOf(evidences, w), lim);
                evidences == old(evidences) + NewRows(w, now, added)
                && (selected == [] || lim < 1 ==>
                      r == Failure(if selected == [] then NoEvidence else InvalidArguments)
                      && batches == old(batches) && items == old(items) && requests.rows == old(requests.rows))
      ensures w < |windows| && Selected(evidences, RowsOf(evidences, w), Limit(limit)) != [] && Limit(limit) >= 1 ==>
                var lim := Limit(limit);
                var ids := RowsOf(evidences, w);
                var selected := Selected(evidences, ids, lim);
                var model := windows[w].modelId;
                var calls := QueueCalls(AllStages, model, providerFor(model), p, evidences, ids);
                batches == old(batches) + [EvidenceBatch(w, lim, |selected|, now)]
                && items == old(items) + ItemsFor(|old(batches)|, selected)
                && requests.rows == LlmRequests.GetOrCreateAllRows(old(requests.rows), calls)
                && (r.Failure? <==> LlmRequests.GetOrCreateAllFails(old(requests.rows), calls))
                && (r.Success? ==>
                      r.value == CollectSummary(|TopUp(KeyOf(parse), search, windows[w], old(evidences), w, lim)|, |ids|,
                                                Tally(AllStages, evidences, ids), |old(batches)|, |selected|))
    {
      if w >= |windows| {
        return Failure(WindowNotFound);
      }
      var lim := Limit(limit);
      var inserted := InsertTopUp(parse, search, w, lim, now);
      var ids := RowsOf(evidences, w);
      var selected := Selected(evidences, ids, lim);
      if |selected| == 0 {
        return Failure(NoEvidence);
      }
      var batch := CreateEvidenceBatch(w, lim, selected, now);
      if batch.Failure? {
        return Failure(batch.error);
      }
      var queued := QueueEvidenceProcessing(providerFor, p, w, requests);
      if queued.Failure? {
        return Failure(queued.error);
      }
      r := Success(CollectSummary(inserted, |ids|, queued.value, batch.value.0, batch.value.1));
    }
  }
}
