/**
 * The lab facade (`packages/lab.ts`): evidence-window creation that reuses
 * a matching window, the window list with each window's evidence status,
 * sorted by tag, and a window's evidence sorted by creation time.
 */
module LabViews {
  import opened Wrappers
  import opened JsArrays
  import opened JsStrings
  import ExperimentData

  // ---------------------------------------------------------------------
  // deriveEvidenceStatus

  /** An evidence row as this file sees it: its window, creation time, title, url and the
      three nullable content levels. */
  datatype Evidence = Evidence(id: nat, windowId: nat, creationTime: int, title: string, url: string,
                               cleaned: Option<string>, neutralized: Option<string>, abstracted: Option<string>)

  /** `deriveEvidenceStatus`: scraping without evidence, else the first level that some row
      still has null, else ready. */
  function DeriveEvidenceStatus(evidences: seq<Evidence>): (s: ExperimentData.EvidenceStatus)
    ensures s == ExperimentData.Scraping <==> |evidences| == 0
    ensures s == ExperimentData.Cleaning <==> exists k :: 0 <= k < |evidences| && evidences[k].cleaned.None?
    ensures s == ExperimentData.Ready <==>
              |evidences| > 0
              && forall k :: 0 <= k < |evidences| ==>
                   evidences[k].cleaned.Some? && evidences[k].neutralized.Some? && evidences[k].abstracted.Some?
  {
    if |evidences| == 0 then ExperimentData.Scraping
    else if exists k :: 0 <= k < |evidences| && evidences[k].cleaned.None? then ExperimentData.Cleaning
    else if exists k :: 0 <= k < |evidences| && evidences[k].neutralized.None? then ExperimentData.Neutralizing
    else if exists k :: 0 <= k < |evidences| && evidences[k].abstracted.None? then ExperimentData.Abstracting
    else ExperimentData.Ready
  }

  /** The same row as the counters of `ExperimentData` see it. */
  function AsCounted(e: Evidence): ExperimentData.Evidence
  {
    ExperimentData.Evidence(e.windowId, e.cleaned, e.neutralized, e.abstracted)
  }

  function Counted(evidences: seq<Evidence>): (r: seq<ExperimentData.Evidence>)
    ensures |r| == |evidences| && forall k :: 0 <= k < |evidences| ==> r[k] == AsCounted(evidences[k])
  {
    seq(|evidences|, k requires 0 <= k < |evidences| => AsCounted(evidences[k]))
  }

  /** No set content is blank. */
  predicate NoBlankContent(e: Evidence)
  {
    (e.cleaned.Some? ==> Trim(e.cleaned.value) != "")
    && (e.neutralized.Some? ==> Trim(e.neutralized.value) != "")
    && (e.abstracted.Some? ==> Trim(e.abstracted.value) != "")
  }

  function LabContent(e: Evidence, l: ExperimentData.Level): Option<string>
  {
    match l
    case Cleaned => e.cleaned
    case Neutralized => e.neutralized
    case Abstracted => e.abstracted
  }

  /** No row has level l null. */
  predicate LabAll(evidences: seq<Evidence>, l: ExperimentData.Level)
  {
    forall k :: 0 <= k < |evidences| ==> LabContent(evidences[k], l).Some?
  }

  /** The status in terms of the levels every row has. */
  lemma DeriveByLevels(evidences: seq<Evidence>)
    ensures DeriveEvidenceStatus(evidences) ==
              if |evidences| == 0 then ExperimentData.Scraping
              else if !LabAll(evidences, ExperimentData.Cleaned) then ExperimentData.Cleaning
              else if !LabAll(evidences, ExperimentData.Neutralized) then ExperimentData.Neutralizing
              else if !LabAll(evidences, ExperimentData.Abstracted) then ExperimentData.Abstracting
              else ExperimentData.Ready
  {
  }

  /** Without blank content, a level is present for every row in the counters' sense exactly
      when no row has it null. */
  lemma LevelAgrees(evidences: seq<Evidence>, w: nat, l: ExperimentData.Level)
    requires forall k :: 0 <= k < |evidences| ==> NoBlankContent(evidences[k])
    requires forall k :: 0 <= k < |evidences| ==> evidences[k].windowId == w
    ensures var c := ExperimentData.CountsFor(Counted(evidences), w);
            c.total == |evidences|
            && (Count(Counted(evidences), ExperimentData.LevelIn(w, l)) == c.total <==> LabAll(evidences, l))
  {
    var counted := Counted(evidences);
    assert Trim("") == "";
    forall k | 0 <= k < |evidences|
      ensures ExperimentData.HasLevel(counted[k], l) <==> LabContent(evidences[k], l).Some?
    {
      assert ExperimentData.Content(counted[k], l) == LabContent(evidences[k], l);
    }
    ExperimentData.LevelCount(counted, w, l);
    CountAll(counted, ExperimentData.InWindow(w));
  }

  /** While no set content is blank, this null test and the trimmed counters of the
      window list elsewhere report the same status for a window. */
  lemma AgreesWithCounters(evidences: seq<Evidence>, w: nat)
    requires forall k :: 0 <= k < |evidences| ==> NoBlankContent(evidences[k])
    requires forall k :: 0 <= k < |evidences| ==> evidences[k].windowId == w
    ensures DeriveEvidenceStatus(evidences)
            == ExperimentData.EvidenceStatusFor(Some(ExperimentData.CountsFor(Counted(evidences), w)))
  {
    DeriveByLevels(evidences);
    LevelAgrees(evidences, w, ExperimentData.Cleaned);
    LevelAgrees(evidences, w, ExperimentData.Neutralized);
    LevelAgrees(evidences, w, ExperimentData.Abstracted);
  }

  /** A blank cleaned text counts as cleaned here but not in the counters. */
  lemma BlankContentDisagrees(w: nat, blank: string, text: string)
    requires Trim(blank) == "" && Trim(text) != ""
    ensures var e := Evidence(0, w, 0, "", "", Some(blank), Some(text), Some(text));
            DeriveEvidenceStatus([e]) == ExperimentData.Ready
            && ExperimentData.EvidenceStatusFor(Some(ExperimentData.CountsFor(Counted([e]), w)))
               == ExperimentData.Cleaning
  {
    var e := Evidence(0, w, 0, "", "", Some(blank), Some(text), Some(text));
    var c := AsCounted(e);
    assert Counted([e]) == [c];
    SingleUncleaned(c, w);
  }

  /** One row of the window without cleaned text leaves the window's counters cleaning. */
  lemma SingleUncleaned(c: ExperimentData.Evidence, w: nat)
    requires c.windowId == w && !ExperimentData.HasLevel(c, ExperimentData.Cleaned)
    ensures ExperimentData.EvidenceStatusFor(Some(ExperimentData.CountsFor([c], w))) == ExperimentData.Cleaning
  {
    assert [] + [c] == [c];
    ExperimentData.CountsSnoc([], c, w);
  }

  // ---------------------------------------------------------------------
  // initEvidenceWindow

  /** The fields of a `windows` row. */
  datatype Window = Window(country: string, startDate: string, endDate: string, query: string, model: string,
                           windowTag: string, status: string, currentStage: string)

  /** `EvidenceWindowInputSchema`. */
  datatype WindowInput = WindowInput(concept: string, country: string, startDate: string, endDate: string, modelId: string)

  /** The argument check: the four text fields have at least one character. */
  predicate ValidInput(input: WindowInput)
  {
    |input.concept| >= 1 && |input.country| >= 1 && |input.startDate| >= 1 && |input.endDate| >= 1
  }

  /** The filter of the lookup: country, dates, query (the concept) and model all equal. */
  predicate Matches(w: Window, input: WindowInput)
  {
    w.country == input.country && w.startDate == input.startDate && w.endDate == input.endDate
    && w.query == input.concept && w.model == input.modelId
  }

  /** `.filter(...).first()`: the first matching window in table order. */
  function FirstMatch(windows: seq<Window>, input: WindowInput): (r: Option<nat>)
    ensures r.Some? ==> r.value < |windows| && Matches(windows[r.value], input)
                        && forall k :: 0 <= k < r.value ==> !Matches(windows[k], input)
    ensures r.None? <==> forall k :: 0 <= k < |windows| ==> !Matches(windows[k], input)
    decreases |windows|
  {
    if |windows| == 0 then None
    else if Matches(windows[0], input) then Some(0)
    else match FirstMatch(windows[1..], input)
      case Some(j) => Some(j + 1)
      case None => None
  }

  /** `createWindow`: a fresh window at start, at the raw level, with the given tag. */
  function NewWindow(input: WindowInput, tag: string): Window
  {
    Window(input.country, input.startDate, input.endDate, input.concept, input.modelId, tag, "start", "l0_raw")
  }

  datatype InitResult = InitResult(windowId: nat, reusedWindow: bool)

  datatype InitOut = InitOut(result: Result<InitResult>, windows: seq<Window>)

  /** The whole mutation: a bad argument fails before anything; a matching window is reused;
      otherwise a new one is appended. */
  function InitSpec(windows: seq<Window>, input: WindowInput, tag: string): InitOut
  {
    if !ValidInput(input) then InitOut(Failure("invalid arguments"), windows)
    else match FirstMatch(windows, input)
      case Some(i) => InitOut(Success(InitResult(i, true)), windows)
      case None => InitOut(Success(InitResult(|windows|, false)), windows + [NewWindow(input, tag)])
  }

  /** The result names a window matching the input, and creating adds only that window. */
  lemma InitFacts(windows: seq<Window>, input: WindowInput, tag: string)
    ensures var out := InitSpec(windows, input, tag);
            (out.result.Failure? <==> !ValidInput(input))
            && (out.result.Success? ==>
                  out.result.value.windowId < |out.windows| && Matches(out.windows[out.result.value.windowId], input)
                  && (out.result.value.reusedWindow <==> exists k :: 0 <= k < |windows| && Matches(windows[k], input))
                  && (out.result.value.reusedWindow ==> out.windows == windows)
                  && (!out.result.value.reusedWindow ==>
                        out.windows == windows + [NewWindow(input, tag)] && out.result.value.windowId == |windows|))
  {
  }

  /** Initialising the same window twice: the second call reuses what the first returned and
      changes nothing, whatever tag it would have drawn. */
  lemma InitTwiceReuses(windows: seq<Window>, input: WindowInput, tag: string, tag2: string)
    requires ValidInput(input)
    ensures var first := InitSpec(windows, input, tag);
            var second := InitSpec(first.windows, input, tag2);
            second.windows == first.windows
            && second.result == Success(InitResult(first.result.value.windowId, true))
  {
    var first := InitSpec(windows, input, tag);
    if FirstMatch(windows, input).None? {
      var ws := first.windows;
      assert Matches(ws[|windows|], input);
    }
  }

  /** The windows table. */
  class WindowTable {
    var windows: seq<Window>

    constructor(windows: seq<Window>)
      ensures this.windows == windows
    {
      this.windows := windows;
    }

    /** `initEvidenceWindow`; the random tag of `createWindow` is the parameter `tag`. */
    method InitEvidenceWindow(input: WindowInput, tag: string) returns (r: Result<InitResult>)
      modifies this
      ensures r == InitSpec(old(windows), input, tag).result
      ensures windows == InitSpec(old(windows), input, tag).windows
    {
      if !ValidInput(input) {
        return Failure("invalid arguments");
      }
      var existing := FirstMatch(windows, input);
      if existing.Some? {
        return Success(InitResult(existing.value, true));
      }
      var id := |windows|;
      windows := windows + [NewWindow(input, tag)];
      r := Success(InitResult(id, false));
    }

    /** `listEvidenceWindows`: one row per window, pushed in table order, then sorted by tag. */
    method ListEvidenceWindows(evidences: seq<Evidence>) returns (rows: seq<WindowListRow>)
      ensures rows == SortByTag(ListRows(windows, evidences))
      ensures SortedByTag(rows) && multiset(rows) == multiset(ListRows(windows, evidences))
    {
      var results: seq<WindowListRow> := [];
      var i := 0;
      while i < |windows|
        invariant 0 <= i <= |windows|
        invariant results == ListRows(windows[..i], evidences)
      {
        var mine := Filter(evidences, OfWindow(i));
        results := results + [WindowListRow(i, windows[i].windowTag, |mine|, DeriveEvidenceStatus(mine))];
        assert windows[..i + 1][..i] == windows[..i];
        i := i + 1;
      }
      assert windows[..i] == windows;
      rows := SortByTag(results);
      SortByTagFacts(results);
    }
  }

  // ---------------------------------------------------------------------
  // listEvidenceWindows

  datatype WindowListRow = WindowListRow(windowId: nat, windowTag: string, evidenceCount: nat,
                                         evidenceStatus: ExperimentData.EvidenceStatus)

  /** The `by_window_id` index. */
  function OfWindow(w: nat): Evidence -> bool
  {
    (e: Evidence) => e.windowId == w
  }

  /** The rows the loop pushes, in table order; a window's id is its position. */
  function ListRows(windows: seq<Window>, evidences: seq<Evidence>): (rows: seq<WindowListRow>)
    ensures |rows| == |windows|
    ensures forall k :: 0 <= k < |windows| ==>
              rows[k].windowId == k && rows[k].windowTag == windows[k].windowTag
              && rows[k].evidenceCount == Count(evidences, OfWindow(k))
              && rows[k].evidenceStatus == DeriveEvidenceStatus(Filter(evidences, OfWindow(k)))
    decreases |windows|
  {
    if |windows| == 0 then []
    else
      var front := windows[..|windows| - 1];
      var k := |windows| - 1;
      assert forall j :: 0 <= j < k ==> front[j] == windows[j];
      CountFilter(evidences, OfWindow(k));
      ListRows(front, evidences)
      + [WindowListRow(k, windows[k].windowTag, |Filter(evidences, OfWindow(k))|, DeriveEvidenceStatus(Filter(evidences, OfWindow(k))))]
  }

  predicate SortedByTag(rows: seq<WindowListRow>)
  {
    forall i, j :: 0 <= i < j < |rows| ==> StrLe(rows[i].windowTag, rows[j].windowTag)
  }

  /** Insert before the first row whose tag is not smaller, after any with an equal tag. */
  function InsertByTag(x: WindowListRow, rows: seq<WindowListRow>): (r: seq<WindowListRow>)
    ensures multiset(r) == multiset(rows) + multiset{x}
  {
    if |rows| == 0 then [x]
    else if StrLe(x.windowTag, rows[0].windowTag) then [x] + rows
    else
      assert rows == [rows[0]] + rows[1..];
      [rows[0]] + InsertByTag(x, rows[1..])
  }

  /** `results.sort((a, b) => a.window_tag.localeCompare(b.window_tag))`, stable. */
  function SortByTag(rows: seq<WindowListRow>): (r: seq<WindowListRow>)
    ensures multiset(r) == multiset(rows)
  {
    if |rows| == 0 then []
    else
      assert rows == [rows[0]] + rows[1..];
      InsertByTag(rows[0], SortByTag(rows[1..]))
  }

  lemma {:induction false} InsertByTagSorted(x: WindowListRow, rows: seq<WindowListRow>)
    requires SortedByTag(rows)
    ensures SortedByTag(InsertByTag(x, rows))
  {
    if |rows| > 0 && !StrLe(x.windowTag, rows[0].windowTag) {
      var t := rows[1..];
      InsertByTagSorted(x, t);
      var r := InsertByTag(x, t);
      StrLeTotal(x.windowTag, rows[0].windowTag);
      forall k | 0 <= k < |r|
        ensures StrLe(rows[0].windowTag, r[k].windowTag)
      {
        assert r[k] in multiset(t) + multiset{x};
        if r[k] != x {
          assert r[k] in t;
          var j :| 0 <= j < |t| && t[j] == r[k];
          assert t[j] == rows[j + 1];
        }
      }
      assert InsertByTag(x, rows) == [rows[0]] + r;
    } else if |rows| > 0 {
      forall k | 0 < k < |rows| + 1
        ensures StrLe(x.windowTag, ([x] + rows)[k].windowTag)
      {
        if k > 1 {
          StrLeTransitive(x.windowTag, rows[0].windowTag, rows[k - 1].windowTag);
        }
      }
    }
  }

  /** The sort returns the pushed rows, each once, in tag order. */
  lemma {:induction false} SortByTagFacts(rows: seq<WindowListRow>)
    ensures SortedByTag(SortByTag(rows)) && multiset(SortByTag(rows)) == multiset(rows)
  {
    if |rows| > 0 {
      SortByTagFacts(rows[1..]);
      InsertByTagSorted(rows[0], SortByTag(rows[1..]));
    }
  }

  // ---------------------------------------------------------------------
  // listEvidenceByWindow

  datatype EvidenceListRow = EvidenceListRow(evidenceId: nat, title: string, url: string, createdAt: int)

  function Created(): Evidence -> int
  {
    (e: Evidence) => e.creationTime
  }

  function ListRow(e: Evidence): EvidenceListRow
  {
    EvidenceListRow(e.id, e.title, e.url, e.creationTime)
  }

  /** `listEvidenceByWindow`: the window's rows sorted by creation time, oldest first. */
  function ListEvidenceByWindow(evidences: seq<Evidence>, w: nat): (r: seq<EvidenceListRow>)
  {
    var sorted := SortBy(Filter(evidences, OfWindow(w)), Created());
    seq(|sorted|, k requires 0 <= k < |sorted| => ListRow(sorted[k]))
  }

  /** The list holds exactly the window's rows, each once, oldest first. */
  lemma EvidenceByWindowFacts(evidences: seq<Evidence>, w: nat)
    ensures var r := ListEvidenceByWindow(evidences, w);
            var mine := Filter(evidences, OfWindow(w));
            |r| == |mine|
            && (forall i, j :: 0 <= i < j < |r| ==> r[i].createdAt <= r[j].createdAt)
            && (exists sorted: seq<Evidence> :: multiset(sorted) == multiset(mine) && |sorted| == |r|
                  && forall k :: 0 <= k < |r| ==> r[k] == ListRow(sorted[k]) && sorted[k].windowId == w)
  {
    var mine := Filter(evidences, OfWindow(w));
    var sorted := SortBy(mine, Created());
    SortBySorted(mine, Created());
    forall k | 0 <= k < |sorted| ensures sorted[k].windowId == w {
      assert sorted[k] in multiset(mine);
    }
    var r := ListEvidenceByWindow(evidences, w);
    assert multiset(sorted) == multiset(mine) && |sorted| == |r|
           && forall k :: 0 <= k < |r| ==> r[k] == ListRow(sorted[k]) && sorted[k].windowId == w;
  }
}
