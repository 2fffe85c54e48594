/**
 * Evidence views (`models/core.ts`): the four semantic levels an evidence
 * text exists at, the user-facing aliases accepted on input, and
 * normalizeEvidenceView, which maps an alias to its level.
 */
module EvidenceViews {

  /** `EvidenceViewSchema`: the canonical views, from the raw text up. */
  const Views: seq<string> := ["l0_raw", "l1_cleaned", "l2_neutralized", "l3_abstracted"]

  /** The extra members of `EvidenceViewInputSchema`, one per view in the same order. */
  const Aliases: seq<string> := ["raw", "cleaned", "neutralized", "abstracted"]

  predicate IsEvidenceView(v: string)
  {
    v in Views
  }

  predicate IsEvidenceViewInput(v: string)
  {
    v in Views || v in Aliases
  }

  /** The `switch`: an alias becomes its view, and the `default` returns the value as it is. */
  function NormalizeEvidenceView(value: string): (r: string)
    ensures IsEvidenceViewInput(value) ==> IsEvidenceView(r)
    ensures value !in Aliases ==> r == value
  {
    if value == "raw" then "l0_raw"
    else if value == "cleaned" then "l1_cleaned"
    else if value == "neutralized" then "l2_neutralized"
    else if value == "abstracted" then "l3_abstracted"
    else value
  }

  /** Each alias names the view at its own level. */
  lemma AliasesNormalize(k: nat)
    requires k < |Aliases|
    ensures NormalizeEvidenceView(Aliases[k]) == Views[k]
  {
  }

  /** No alias is a canonical name, so canonical values always pass through unchanged. */
  lemma CanonicalUnchanged(v: string)
    requires IsEvidenceView(v)
    ensures v !in Aliases
    ensures NormalizeEvidenceView(v) == v
  {
  }

  /** Normalising twice is normalising once: a normalised view is never an alias. */
  lemma NormalizeIdempotent(value: string)
    ensures NormalizeEvidenceView(value) !in Aliases
    ensures NormalizeEvidenceView(NormalizeEvidenceView(value)) == NormalizeEvidenceView(value)
  {
  }

  /** The level of a view or alias: its position in `Views` or `Aliases`. */
  function Level(v: string): (l: nat)
    requires IsEvidenceViewInput(v)
    ensures l < 4 && (v == Views[l] || v == Aliases[l])
  {
    if v == "l0_raw" || v == "raw" then 0
    else if v == "l1_cleaned" || v == "cleaned" then 1
    else if v == "l2_neutralized" || v == "neutralized" then 2
    else 3
  }

  /** Two inputs normalise to the same view exactly when they name the same level. */
  lemma NormalizeSameView(a: string, b: string)
    requires IsEvidenceViewInput(a) && IsEvidenceViewInput(b)
    ensures NormalizeEvidenceView(a) == NormalizeEvidenceView(b) <==> Level(a) == Level(b)
    ensures NormalizeEvidenceView(a) == Views[Level(a)]
  {
  }
}
