/**
 * The notebook's two verdict encoders: a judge response becomes a mass
 * function over the frame Θ = {1, …, scale_size}.
 *
 * The open-world encoder (transferable belief model) keeps abstentions as
 * contradiction; the closed-world encoder drops them.
 */
module PilotEncoders {
  import opened Wrappers
  import opened DempsterShafer

  /** One scored response: abstention flag, decoded stages, agreement probability. */
  datatype Response = Response(abstained: bool, decodedScores: seq<int>, agreement: Option<real>)

  /** Θ = frozenset(range(1, scale_size + 1)). */

  /** sorted(Θ) = [1, …, scale_size]. */
  function Stages(scaleSize: nat): (r: seq<int>)
    ensures |r| == scaleSize
    ensures forall i :: 0 <= i < scaleSize ==> r[i] == i + 1
  {
    if scaleSize == 0 then [] else Stages(scaleSize - 1) + [scaleSize]
  }

  /** Θ = frozenset(range(1, scale_size + 1)). */
  function Theta(scaleSize: nat): (t: set<int>)
    ensures forall s :: s in t <==> 1 <= s <= scaleSize
  {
    var r := Stages(scaleSize);
    assert forall s :: s in r <==> 1 <= s <= scaleSize by {
      forall s ensures s in r <==> 1 <= s <= scaleSize {
        if 1 <= s <= scaleSize {
          assert r[s - 1] == s;
        }
      }
    }
    set s | s in r
  }

  /** `float(row.get("expertAgreementProb") or 1.0)`: a missing or zero value gives 1.0. */
  function Probe(r: Response): (p: real)
    ensures r.agreement.None? ==> p == 1.0
    ensures r.agreement.Some? && r.agreement.value == 0.0 ==> p == 1.0
    ensures r.agreement.Some? && r.agreement.value != 0.0 ==> p == r.agreement.value
  {
    match r.agreement
    case None => 1.0
    case Some(v) => if v == 0.0 then 1.0 else v
  }

  /** `frozenset(int(s) for s in row["decodedScores"])`. */
  function Verdict(r: Response): set<int>
  {
    set s | s in r.decodedScores
  }

  /** `m[a] = v` on a dict: overwrite the weight of a key, or append it. */
  function Put(m: Mass, a: set<int>, v: real): (r: Mass)
  {
    var i := Find(m, a);
    if i < |m| then m[i := Focal(a, v)] else m + [Focal(a, v)]
  }

  lemma PutEmpty(a: set<int>, v: real)
    ensures Put([], a, v) == [Focal(a, v)]
  {
    assert [] + [Focal(a, v)] == [Focal(a, v)];
  }

  /** A two-key dict {a: v, b: u} built by two assignments, for a ≠ b. */
  lemma PutTwo(a: set<int>, v: real, b: set<int>, u: real)
    requires a != b
    ensures Put(Put([], a, v), b, u) == [Focal(a, v), Focal(b, u)]
  {
    PutEmpty(a, v);
    assert Find([Focal(a, v)], b) == 1;
    assert [Focal(a, v)] + [Focal(b, u)] == [Focal(a, v), Focal(b, u)];
  }

  /** response_to_mass: the open-world (TBM) encoder. */
  function ResponseToMass(r: Response, theta: set<int>): Mass
  {
    var p := Probe(r);
    if r.abstained then Put(Put([], {}, p), theta, 1.0 - p)
    else if Verdict(r) == theta then Put(Put([], theta, p), {}, 1.0 - p)
    else Put(Put([], Verdict(r), p), theta, 1.0 - p)
  }

  /** response_to_mass_closed: None for an abstention. */
  function ResponseToMassClosed(r: Response, theta: set<int>): Option<Mass>
  {
    if r.abstained then None
    else if Verdict(r) == theta then Some(Put([], theta, 1.0))
    else Some(Put(Put([], Verdict(r), Probe(r)), theta, 1.0 - Probe(r)))
  }

  /** The three cases of the open-world encoder, over a non-empty frame. */
  lemma ResponseToMassCases(r: Response, theta: set<int>)
    requires theta != {}
    ensures r.abstained ==> ResponseToMass(r, theta) == [Focal({}, Probe(r)), Focal(theta, 1.0 - Probe(r))]
    ensures !r.abstained && Verdict(r) == theta
            ==> ResponseToMass(r, theta) == [Focal(theta, Probe(r)), Focal({}, 1.0 - Probe(r))]
    ensures !r.abstained && Verdict(r) != theta
            ==> ResponseToMass(r, theta) == [Focal(Verdict(r), Probe(r)), Focal(theta, 1.0 - Probe(r))]
  {
    var p := Probe(r);
    if r.abstained {
      PutTwo({}, p, theta, 1.0 - p);
    } else if Verdict(r) == theta {
      PutTwo(theta, p, {}, 1.0 - p);
    } else {
      PutTwo(Verdict(r), p, theta, 1.0 - p);
    }
  }

  lemma TotalPair(a: Focal, b: Focal)
    ensures Total([a, b]) == a.w + b.w
  {
    SumWhereAppend([a], b, AnyKey);
    SumWhereAppend([], a, AnyKey);
    assert [a] + [b] == [a, b];
    assert [] + [a] == [a];
  }

  /** Every open-world mass has two distinct keys and sums to 1. */
  lemma ResponseToMassTotal(r: Response, theta: set<int>)
    requires theta != {}
    ensures Total(ResponseToMass(r, theta)) == 1.0
    ensures Distinct(ResponseToMass(r, theta)) && |ResponseToMass(r, theta)| == 2
  {
    ResponseToMassCases(r, theta);
    var p := Probe(r);
    if r.abstained {
      TotalPair(Focal({}, p), Focal(theta, 1.0 - p));
    } else if Verdict(r) == theta {
      TotalPair(Focal(theta, p), Focal({}, 1.0 - p));
    } else {
      TotalPair(Focal(Verdict(r), p), Focal(theta, 1.0 - p));
    }
  }

  /** The closed-world encoder: Θ gets pure ignorance; other verdicts as in the open world. */
  lemma ResponseToMassClosedCases(r: Response, theta: set<int>)
    requires theta != {}
    ensures r.abstained <==> ResponseToMassClosed(r, theta).None?
    ensures !r.abstained && Verdict(r) == theta ==> ResponseToMassClosed(r, theta) == Some([Focal(theta, 1.0)])
    ensures !r.abstained && Verdict(r) != theta ==> ResponseToMassClosed(r, theta) == Some(ResponseToMass(r, theta))
  {
    ResponseToMassCases(r, theta);
    PutEmpty(theta, 1.0);
    if !r.abstained && Verdict(r) != theta {
      PutTwo(Verdict(r), Probe(r), theta, 1.0 - Probe(r));
    }
  }

  /** Every closed-world mass sums to 1 and has no empty key when the verdict is non-empty. */
  lemma ResponseToMassClosedTotal(r: Response, theta: set<int>)
    requires theta != {} && !r.abstained
    ensures Total(ResponseToMassClosed(r, theta).value) == 1.0
    ensures Distinct(ResponseToMassClosed(r, theta).value)
    ensures Verdict(r) != {} ==> NoEmptyKey(ResponseToMassClosed(r, theta).value)
  {
    ResponseToMassClosedCases(r, theta);
    if Verdict(r) == theta {
      SumWhereAppend([], Focal(theta, 1.0), AnyKey);
      assert [] + [Focal(theta, 1.0)] == [Focal(theta, 1.0)];
    } else {
      ResponseToMassTotal(r, theta);
    }
  }
}
