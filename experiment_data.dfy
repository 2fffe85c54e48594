/**
 * The read-side roll-ups of `domain/experiments/experiments_data.ts`: the
 * experiment status derived from its runs, and the evidence status of a
 * window, computed from per-window counters that one pass over the
 * evidence table fills in.
 */
module ExperimentData {
  import opened Wrappers
  import opened JsArrays
  import opened JsStrings

  // ---------------------------------------------------------------------
  // deriveExperimentStatus

  datatype ExperimentState = Pending | Running | Paused | Complete | Canceled

  /** `statuses.every((status) => status === x)`. */
  predicate AllAre(statuses: seq<string>, x: string)
  {
    forall k :: 0 <= k < |statuses| ==> statuses[k] == x
  }

  /** The status of an experiment from the statuses of its runs, in the order the checks
      are made: no runs, some running, some paused, all complete, some canceled. */
  function DeriveExperimentStatus(statuses: seq<string>): (r: ExperimentState)
    ensures |statuses| == 0 ==> r == Pending
    ensures r == Running <==> "running" in statuses
    ensures r == Paused <==> "running" !in statuses && "paused" in statuses
    ensures r == Complete <==> |statuses| > 0 && AllAre(statuses, "complete")
    ensures r == Canceled <==>
              "running" !in statuses && "paused" !in statuses && !AllAre(statuses, "complete") && "canceled" in statuses
  {
    if |statuses| == 0 then Pending
    else if "running" in statuses then Running
    else if "paused" in statuses then Paused
    else if AllAre(statuses, "complete") then Complete
    else if "canceled" in statuses then Canceled
    else Pending
  }

  /** The status depends only on which statuses occur, not on their order or how often. */
  lemma StatusBySet(s: seq<string>, t: seq<string>)
    requires forall x :: x in s <==> x in t
    ensures DeriveExperimentStatus(s) == DeriveExperimentStatus(t)
  {
    if |s| > 0 { assert s[0] in t; }
    if |t| > 0 { assert t[0] in s; }
    if |s| > 0 && AllAre(s, "complete") {
      forall k | 0 <= k < |t| ensures t[k] == "complete" {
        assert t[k] in s;
      }
    }
    if |t| > 0 && AllAre(t, "complete") {
      forall k | 0 <= k < |s| ensures s[k] == "complete" {
        assert s[k] in t;
      }
    }
  }

  /** How strongly an active run marks the experiment: running over paused over the rest. */
  function Activity(r: ExperimentState): nat
  {
    match r
    case Running => 2
    case Paused => 1
    case _ => 0
  }

  /** Adding runs never lowers the activity the status reports: a running run keeps the
      experiment running, a paused one keeps it at least paused. */
  lemma ActivityMonotone(s: seq<string>, t: seq<string>)
    ensures Activity(DeriveExperimentStatus(s)) <= Activity(DeriveExperimentStatus(s + t))
  {
    assert forall x :: x in s ==> x in s + t;
  }

  /** A run that is not complete keeps the experiment from being complete, wherever it is. */
  lemma IncompleteRunBlocksComplete(s: seq<string>, t: seq<string>, x: string)
    requires x != "complete"
    ensures DeriveExperimentStatus(s + [x] + t) != Complete
  {
    assert (s + [x] + t)[|s|] == x;
  }

  // ---------------------------------------------------------------------
  // Evidence counters and evidenceStatusFor

  /** The content fields of an evidence row this file reads; null and missing are both None. */
  datatype Evidence = Evidence(windowId: nat, cleaned: Option<string>, neutralized: Option<string>, abstracted: Option<string>)

  datatype Level = Cleaned | Neutralized | Abstracted

  function Content(e: Evidence, l: Level): Option<string>
  {
    match l
    case Cleaned => e.cleaned
    case Neutralized => e.neutralized
    case Abstracted => e.abstracted
  }

  /** `(content ?? "").trim().length > 0`. */
  predicate HasText(o: Option<string>)
  {
    Trim(o.GetOr("")) != ""
  }

  predicate HasLevel(e: Evidence, l: Level)
  {
    HasText(Content(e, l))
  }

  function InWindow(w: nat): Evidence -> bool
  {
    (e: Evidence) => e.windowId == w
  }

  function LevelIn(w: nat, l: Level): Evidence -> bool
  {
    (e: Evidence) => e.windowId == w && HasLevel(e, l)
  }

  /** One window's entry in the `counts` map. */
  datatype Counts = Counts(total: nat, cleaned: nat, neutralized: nat, abstracted: nat)

  const NoCounts := Counts(0, 0, 0, 0)

  /** What the pass should leave in a window's entry: the window's rows, and those of them
      with each level's content. */
  function CountsFor(evidences: seq<Evidence>, w: nat): Counts
  {
    Counts(Count(evidences, InWindow(w)), Count(evidences, LevelIn(w, Cleaned)),
           Count(evidences, LevelIn(w, Neutralized)), Count(evidences, LevelIn(w, Abstracted)))
  }

  /** The update the loop body makes to the entry of the row's window. */
  function Bump(c: Counts, e: Evidence): Counts
  {
    Counts(c.total + 1,
           c.cleaned + (if HasLevel(e, Cleaned) then 1 else 0),
           c.neutralized + (if HasLevel(e, Neutralized) then 1 else 0),
           c.abstracted + (if HasLevel(e, Abstracted) then 1 else 0))
  }

  /** One more row changes only its own window's counters, by `Bump`. */
  lemma CountsSnoc(evidences: seq<Evidence>, e: Evidence, w: nat)
    ensures CountsFor(evidences + [e], w) == if e.windowId == w then Bump(CountsFor(evidences, w), e) else CountsFor(evidences, w)
  {
    CountSnoc(evidences, e, InWindow(w));
    CountSnoc(evidences, e, LevelIn(w, Cleaned));
    CountSnoc(evidences, e, LevelIn(w, Neutralized));
    CountSnoc(evidences, e, LevelIn(w, Abstracted));
  }

  /** A level's counter never exceeds the window's total, and reaches it exactly when every
      row of the window has that level's content. */
  lemma {:induction false} LevelCount(evidences: seq<Evidence>, w: nat, l: Level)
    ensures Count(evidences, LevelIn(w, l)) <= Count(evidences, InWindow(w))
    ensures Count(evidences, LevelIn(w, l)) == Count(evidences, InWindow(w)) <==>
              forall k :: 0 <= k < |evidences| && evidences[k].windowId == w ==> HasLevel(evidences[k], l)
  {
    if |evidences| > 0 {
      var tail := evidences[1..];
      LevelCount(tail, w, l);
      assert forall k :: 1 <= k < |evidences| ==> evidences[k] == tail[k - 1];
      if forall k :: 0 <= k < |tail| && tail[k].windowId == w ==> HasLevel(tail[k], l) {
        forall k | 0 <= k < |evidences| && evidences[k].windowId == w && k > 0
          ensures HasLevel(evidences[k], l)
        {
          assert tail[k - 1] == evidences[k];
        }
      }
    }
  }

  /** A window has a counters entry exactly when it has evidence. */
  lemma HasEntry(evidences: seq<Evidence>, w: nat)
    ensures CountsFor(evidences, w).total > 0 <==> exists k :: 0 <= k < |evidences| && evidences[k].windowId == w
  {
    CountPositive(evidences, InWindow(w));
  }

  /** One pass of the loop keeps every entry equal to its window's counters over the rows seen. */
  lemma TallyStep(counts: map<nat, Counts>, seen: seq<Evidence>, e: Evidence)
    requires forall w :: w in counts ==> counts[w] == CountsFor(seen, w) && counts[w].total > 0
    requires forall w :: w !in counts ==> CountsFor(seen, w) == NoCounts
    ensures var next := counts[e.windowId := Bump(if e.windowId in counts then counts[e.windowId] else NoCounts, e)];
            (forall w :: w in next ==> next[w] == CountsFor(seen + [e], w) && next[w].total > 0)
            && (forall w :: w !in next ==> CountsFor(seen + [e], w) == NoCounts)
  {
    forall w ensures CountsFor(seen + [e], w) == if e.windowId == w then Bump(CountsFor(seen, w), e) else CountsFor(seen, w) {
      CountsSnoc(seen, e, w);
    }
  }

  /** The loop over the evidence table filling the `counts` map. */
  method TallyEvidence(evidences: seq<Evidence>) returns (counts: map<nat, Counts>)
    ensures forall w :: w in counts <==> exists k :: 0 <= k < |evidences| && evidences[k].windowId == w
    ensures forall w :: w in counts ==> counts[w] == CountsFor(evidences, w)
    ensures forall w :: w !in counts ==> CountsFor(evidences, w) == NoCounts
  {
    counts := map[];
    var i := 0;
    while i < |evidences|
      invariant 0 <= i <= |evidences|
      invariant forall w :: w in counts ==> counts[w] == CountsFor(evidences[..i], w) && counts[w].total > 0
      invariant forall w :: w !in counts ==> CountsFor(evidences[..i], w) == NoCounts
    {
      var e := evidences[i];
      assert evidences[..i + 1] == evidences[..i] + [e];
      TallyStep(counts, evidences[..i], e);
      var entry := if e.windowId in counts then counts[e.windowId] else NoCounts;
      counts := counts[e.windowId := Bump(entry, e)];
      i := i + 1;
    }
    assert evidences[..i] == evidences;
    forall w ensures w in counts <==> exists k :: 0 <= k < |evidences| && evidences[k].windowId == w {
      HasEntry(evidences, w);
    }
  }

  datatype EvidenceStatus = Scraping | Cleaning | Neutralizing | Abstracting | Ready

  /** `evidenceStatusFor(entry)`: the first level some row of the window still lacks. */
  function EvidenceStatusFor(entry: Option<Counts>): EvidenceStatus
  {
    if entry.None? || entry.value.total == 0 then Scraping
    else if entry.value.cleaned < entry.value.total then Cleaning
    else if entry.value.neutralized < entry.value.total then Neutralizing
    else if entry.value.abstracted < entry.value.total then Abstracting
    else Ready
  }

  /** Every row of window w has content at level l. */
  predicate AllHave(evidences: seq<Evidence>, w: nat, l: Level)
  {
    forall k :: 0 <= k < |evidences| && evidences[k].windowId == w ==> HasLevel(evidences[k], l)
  }

  /** The reported status of a window, read against the rows: scraping when it has none,
      otherwise the first level that some row of it lacks, and ready when none is lacking. */
  lemma WindowStatusMeaning(evidences: seq<Evidence>, w: nat)
    ensures var s := EvidenceStatusFor(Some(CountsFor(evidences, w)));
            var some := exists k :: 0 <= k < |evidences| && evidences[k].windowId == w;
            (s == Scraping <==> !some)
            && (s == Cleaning <==> some && !AllHave(evidences, w, Cleaned))
            && (s == Neutralizing <==> some && AllHave(evidences, w, Cleaned) && !AllHave(evidences, w, Neutralized))
            && (s == Abstracting <==>
                  (some && AllHave(evidences, w, Cleaned) && AllHave(evidences, w, Neutralized)
                   && !AllHave(evidences, w, Abstracted)))
            && (s == Ready <==>
                  (some && AllHave(evidences, w, Cleaned) && AllHave(evidences, w, Neutralized)
                   && AllHave(evidences, w, Abstracted)))
  {
    HasEntry(evidences, w);
    LevelCount(evidences, w, Cleaned);
    LevelCount(evidences, w, Neutralized);
    LevelCount(evidences, w, Abstracted);
  }

  /** The fields of a row of `listEvidenceWindows` this model computes. */
  datatype WindowRow = WindowRow(windowId: nat, evidenceCount: nat, evidenceStatus: EvidenceStatus)

  /** `counts.get(String(window._id))`. */
  function Entry(counts: map<nat, Counts>, w: nat): Option<Counts>
  {
    if w in counts then Some(counts[w]) else None
  }

  /** `listEvidenceWindows`: one row per window, in table order, with its evidence count and status. */
  method ListEvidenceWindows(windows: seq<nat>, evidences: seq<Evidence>) returns (rows: seq<WindowRow>)
    ensures |rows| == |windows|
    ensures forall k :: 0 <= k < |windows| ==>
              rows[k].windowId == windows[k]
              && rows[k].evidenceCount == Count(evidences, InWindow(windows[k]))
              && rows[k].evidenceStatus == EvidenceStatusFor(Some(CountsFor(evidences, windows[k])))
    ensures forall k :: 0 <= k < |windows| && (forall j :: 0 <= j < |evidences| ==> evidences[j].windowId != windows[k]) ==>
              rows[k].evidenceCount == 0 && rows[k].evidenceStatus == Scraping
  {
    var counts := TallyEvidence(evidences);
    rows := seq(|windows|, k requires 0 <= k < |windows| =>
              WindowRow(windows[k], if windows[k] in counts then counts[windows[k]].total else 0,
                        EvidenceStatusFor(Entry(counts, windows[k]))));
    forall k | 0 <= k < |windows| && (forall j :: 0 <= j < |evidences| ==> evidences[j].windowId != windows[k])
      ensures windows[k] !in counts
    {
    }
  }
}
