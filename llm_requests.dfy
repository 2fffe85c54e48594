/**
 * Get-or-create of a request row keyed by its identity
 * (`domain/llm_calls/llm_requests.ts`).  The `llm_requests` table is a
 * sequence whose positions are the ids; the `by_identity` index with
 * `.unique()` is a scan for the rows whose identity equals the key.
 */
module LlmRequests {
  import opened Wrappers

  /** A request's status (`LlmRequestStatusSchema`). */
  datatype RequestStatus = Queued | Submitted | Completed | Errored | Canceled

  /** The eight fields of the `by_identity` index. */
  datatype Identity = Identity(
    stage: string,
    provider: string,
    model: string,
    experimentId: Option<nat>,
    rubricId: Option<nat>,
    sampleId: Option<nat>,
    evidenceId: Option<nat>,
    requestVersion: int)

  /** The sampling parameters, copied verbatim into a new row. */
  datatype Sampling = Sampling(
    temperature: Option<real>,
    topP: Option<real>,
    seed: Option<int>,
    maxTokens: Option<int>,
    stop: Option<seq<string>>)

  /** The arguments of `getOrCreateLlmRequest` (`GetOrCreateArgsSchema`). */
  datatype Args = Args(
    stage: string,
    provider: string,
    model: string,
    systemPrompt: Option<string>,
    userPrompt: Option<string>,
    experimentId: Option<nat>,
    rubricId: Option<nat>,
    sampleId: Option<nat>,
    evidenceId: Option<nat>,
    sampling: Sampling,
    requestVersion: Option<int>)

  datatype Request = Request(
    identity: Identity,
    systemPrompt: Option<string>,
    userPrompt: Option<string>,
    sampling: Sampling,
    status: RequestStatus,
    attempt: nat,
    lastError: Option<string>,
    parseError: Option<string>,
    nextRetryAt: Option<int>)

  /** What the call returns: the existing document as it was read, or the id of the new row. */
  datatype GetOrCreateResult = FoundDoc(id: nat, doc: Request) | Created(id: nat)

  /** The message of a `.unique()` query that matches more than one document. */
  const NotUniqueError := "unique() query returned more than one document"

  /** JavaScript truthiness of an optional string: present and non-empty. */
  predicate Truthy(s: Option<string>)
  {
    s.Some? && s.value != ""
  }

  /** The identity the arguments select, with `request_version` defaulting to 1. */
  function IdentityOf(a: Args): (id: Identity)
    ensures id.requestVersion == if a.requestVersion.Some? then a.requestVersion.value else 1
    ensures id.stage == a.stage && id.provider == a.provider && id.model == a.model
    ensures id.experimentId == a.experimentId && id.rubricId == a.rubricId
    ensures id.sampleId == a.sampleId && id.evidenceId == a.evidenceId
  {
    Identity(a.stage, a.provider, a.model, a.experimentId, a.rubricId, a.sampleId, a.evidenceId,
             a.requestVersion.GetOr(1))
  }

  /** The positions of the rows with identity `id`, in table order. */
  function Matching(rows: seq<Request>, id: Identity): (r: seq<nat>)
    ensures forall k :: 0 <= k < |r| ==> r[k] < |rows| && rows[r[k]].identity == id
    ensures forall i :: 0 <= i < |rows| && rows[i].identity == id ==> i in r
    ensures forall k, l :: 0 <= k < l < |r| ==> r[k] < r[l]
  {
    if |rows| == 0 then []
    else
      var prior := Matching(rows[..|rows| - 1], id);
      if rows[|rows| - 1].identity == id then prior + [|rows| - 1] else prior
  }

  /** The row that the insert branch writes. */
  function NewRequest(a: Args): Request
  {
    Request(IdentityOf(a), a.systemPrompt, a.userPrompt, a.sampling, Queued, 0, None, None, None)
  }

  /** An existing row gets both prompts from the arguments when it has no user prompt and they bring one. */
  function PatchPrompts(doc: Request, a: Args): Request
  {
    if !Truthy(doc.userPrompt) && Truthy(a.userPrompt) then
      doc.(systemPrompt := a.systemPrompt, userPrompt := a.userPrompt)
    else doc
  }

  /** The value `getOrCreateLlmRequestImpl` returns. */
  function GetOrCreateOutcome(rows: seq<Request>, a: Args): Result<GetOrCreateResult>
  {
    var m := Matching(rows, IdentityOf(a));
    if |m| > 1 then Failure(NotUniqueError)
    else if |m| == 1 then Success(FoundDoc(m[0], rows[m[0]]))
    else Success(Created(|rows|))
  }

  /** The table after the call; a thrown error leaves it as it was. */
  function GetOrCreateRows(rows: seq<Request>, a: Args): seq<Request>
  {
    var m := Matching(rows, IdentityOf(a));
    if |m| > 1 then rows
    else if |m| == 1 then rows[m[0] := PatchPrompts(rows[m[0]], a)]
    else rows + [NewRequest(a)]
  }

  /** No two rows share an identity. */
  predicate UniqueIdentities(rows: seq<Request>)
  {
    forall i, j :: 0 <= i < j < |rows| ==> rows[i].identity != rows[j].identity
  }

  // ---------------------------------------------------------------------
  // Properties

  /** An identity no row holds matches nothing. */
  lemma {:induction false} MatchingNone(rows: seq<Request>, id: Identity)
    requires forall i :: 0 <= i < |rows| ==> rows[i].identity != id
    ensures Matching(rows, id) == []
  {
    if |rows| > 0 {
      MatchingNone(rows[..|rows| - 1], id);
    }
  }

  /** An identity held by exactly the row at i. */
  lemma {:induction false} MatchingUnique(rows: seq<Request>, id: Identity, i: nat)
    requires UniqueIdentities(rows) && i < |rows| && rows[i].identity == id
    ensures Matching(rows, id) == [i]
  {
    var n := |rows| - 1;
    if i == n {
      MatchingNone(rows[..n], id);
    } else {
      assert rows[i].identity != rows[n].identity;
      MatchingUnique(rows[..n], id, i);
    }
  }

  /** The call throws exactly when more than one row has the identity; it reports the
      existing row as it was before any patch, or the id of an appended queued row. */
  lemma GetOrCreateCases(rows: seq<Request>, a: Args)
    ensures GetOrCreateOutcome(rows, a).Failure? <==> |Matching(rows, IdentityOf(a))| > 1
    ensures GetOrCreateOutcome(rows, a).Success? && GetOrCreateOutcome(rows, a).value.FoundDoc? ==>
              var r := GetOrCreateOutcome(rows, a).value;
              r.id < |rows| && r.doc == rows[r.id] && r.doc.identity == IdentityOf(a)
              && |GetOrCreateRows(rows, a)| == |rows|
    ensures GetOrCreateOutcome(rows, a).Success? && GetOrCreateOutcome(rows, a).value.Created? ==>
              (forall i :: 0 <= i < |rows| ==> rows[i].identity != IdentityOf(a))
              && GetOrCreateOutcome(rows, a).value.id == |rows|
              && GetOrCreateRows(rows, a) == rows + [NewRequest(a)]
  {
  }

  /** A new row is queued, has made no attempt, and carries version 1 unless one was given. */
  lemma NewRequestShape(a: Args)
    ensures NewRequest(a).status == Queued && NewRequest(a).attempt == 0
    ensures NewRequest(a).identity.requestVersion == a.requestVersion.GetOr(1)
    ensures NewRequest(a).lastError.None? && NewRequest(a).parseError.None? && NewRequest(a).nextRetryAt.None?
    ensures NewRequest(a).userPrompt == a.userPrompt && NewRequest(a).sampling == a.sampling
  {
  }

  /** A found row changes only when it has no user prompt and the call brings one; then both prompts are replaced. */
  lemma PatchOnlyWhenMissing(rows: seq<Request>, a: Args, i: nat)
    requires UniqueIdentities(rows) && i < |rows| && rows[i].identity == IdentityOf(a)
    ensures GetOrCreateOutcome(rows, a) == Success(FoundDoc(i, rows[i]))
    ensures forall j :: 0 <= j < |rows| && j != i ==> GetOrCreateRows(rows, a)[j] == rows[j]
    ensures |GetOrCreateRows(rows, a)| == |rows|
    ensures GetOrCreateRows(rows, a)[i] != rows[i] ==> !Truthy(rows[i].userPrompt) && Truthy(a.userPrompt)
    ensures !Truthy(rows[i].userPrompt) && Truthy(a.userPrompt) ==>
              GetOrCreateRows(rows, a)[i] == rows[i].(systemPrompt := a.systemPrompt, userPrompt := a.userPrompt)
  {
    MatchingUnique(rows, IdentityOf(a), i);
  }

  /** The call keeps identities unique, and on a table with unique identities it never throws. */
  lemma {:induction false} GetOrCreateKeepsUnique(rows: seq<Request>, a: Args)
    requires UniqueIdentities(rows)
    ensures GetOrCreateOutcome(rows, a).Success?
    ensures UniqueIdentities(GetOrCreateRows(rows, a))
  {
    var m := Matching(rows, IdentityOf(a));
    if |m| >= 1 {
      MatchingUnique(rows, IdentityOf(a), m[0]);

      var rows' := GetOrCreateRows(rows, a);
      assert forall j :: 0 <= j < |rows| ==> rows'[j].identity == rows[j].identity;
    }
  }

  /** Calling again with the same arguments finds the row the first call found or created,
      and changes nothing more. */
  lemma {:induction false} GetOrCreateIdempotent(rows: seq<Request>, a: Args)
    requires UniqueIdentities(rows)
    ensures GetOrCreateOutcome(rows, a).Success?
    ensures var rows' := GetOrCreateRows(rows, a);
            var id := GetOrCreateOutcome(rows, a).value.id;
            GetOrCreateRows(rows', a) == rows'
            && id < |rows'| && GetOrCreateOutcome(rows', a) == Success(FoundDoc(id, rows'[id]))
  {
    GetOrCreateKeepsUnique(rows, a);
    var rows' := GetOrCreateRows(rows, a);
    var id := GetOrCreateOutcome(rows, a).value.id;
    var m := Matching(rows, IdentityOf(a));
    if |m| == 0 {
      assert rows' == rows + [NewRequest(a)];
      assert rows'[id] == NewRequest(a);
    } else {
      assert id == m[0];
    }
    assert rows'[id].identity == IdentityOf(a);
    MatchingUnique(rows', IdentityOf(a), id);
    assert !Truthy(rows'[id].userPrompt) ==> !Truthy(a.userPrompt);
  }

  // ---------------------------------------------------------------------
  // A sequence of calls in one mutation

  /** The table after the calls in order, when none of them throws. */
  function ApplyAll(rows: seq<Request>, calls: seq<Args>): seq<Request>
    decreases |calls|
  {
    if |calls| == 0 then rows else ApplyAll(GetOrCreateRows(rows, calls[0]), calls[1..])
  }

  /** The table after a mutation that issues the calls in order; a throw rolls the whole mutation back. */
  function GetOrCreateAllRows(rows: seq<Request>, calls: seq<Args>): seq<Request>
  {
    if GetOrCreateAllFails(rows, calls) then rows else ApplyAll(rows, calls)
  }

  /** Whether some call of the mutation throws. */
  predicate GetOrCreateAllFails(rows: seq<Request>, calls: seq<Args>)
    decreases |calls|
  {
    |calls| > 0 &&
    (GetOrCreateOutcome(rows, calls[0]).Failure? || GetOrCreateAllFails(GetOrCreateRows(rows, calls[0]), calls[1..]))
  }

  /** One call of a mutation issued from position i: it throws, or the rest runs on the table it leaves. */
  lemma ApplyAllStep(rows: seq<Request>, calls: seq<Args>, i: nat)
    requires i < |calls|
    ensures GetOrCreateAllFails(rows, calls[i..])
            <==> GetOrCreateOutcome(rows, calls[i]).Failure? || GetOrCreateAllFails(GetOrCreateRows(rows, calls[i]), calls[i + 1..])
    ensures ApplyAll(rows, calls[i..]) == ApplyAll(GetOrCreateRows(rows, calls[i]), calls[i + 1..])
  {
    assert calls[i..][0] == calls[i] && calls[i..][1..] == calls[i + 1..];
  }

  /** On a table with unique identities no call of a mutation throws, and identities stay unique. */
  lemma {:induction false} GetOrCreateAllUnique(rows: seq<Request>, calls: seq<Args>)
    requires UniqueIdentities(rows)
    ensures !GetOrCreateAllFails(rows, calls)
    ensures GetOrCreateAllRows(rows, calls) == ApplyAll(rows, calls)
    ensures UniqueIdentities(ApplyAll(rows, calls))
    decreases |calls|
  {
    if |calls| > 0 {
      GetOrCreateKeepsUnique(rows, calls[0]);
      GetOrCreateAllUnique(GetOrCreateRows(rows, calls[0]), calls[1..]);
    }
  }

  /** Rows are never removed and never change identity. */
  lemma {:induction false} KeepsIdentity(rows: seq<Request>, calls: seq<Args>, i: nat)
    requires i < |rows|
    ensures i < |ApplyAll(rows, calls)|
    ensures ApplyAll(rows, calls)[i].identity == rows[i].identity
    decreases |calls|
  {
    if |calls| > 0 {
      KeepsIdentity(GetOrCreateRows(rows, calls[0]), calls[1..], i);
    }
  }

  /** After the mutation, every identity it asked for has exactly one row. */
  lemma {:induction false} GetOrCreateAllCovers(rows: seq<Request>, calls: seq<Args>, k: nat)
    requires UniqueIdentities(rows) && k < |calls|
    ensures |Matching(GetOrCreateAllRows(rows, calls), IdentityOf(calls[k]))| == 1
    decreases |calls|
  {
    GetOrCreateAllUnique(rows, calls);
    GetOrCreateKeepsUnique(rows, calls[0]);
    var rows' := GetOrCreateRows(rows, calls[0]);
    GetOrCreateAllUnique(rows', calls[1..]);
    if k == 0 {
      var id := GetOrCreateOutcome(rows, calls[0]).value.id;
      if |Matching(rows, IdentityOf(calls[0]))| == 0 {
        assert rows'[id] == NewRequest(calls[0]);
      }
      assert id < |rows'| && rows'[id].identity == IdentityOf(calls[0]);
      KeepsIdentity(rows', calls[1..], id);
      MatchingUnique(ApplyAll(rows', calls[1..]), IdentityOf(calls[0]), id);
    } else {
      assert calls[k] == calls[1..][k - 1];
      GetOrCreateAllCovers(rows', calls[1..], k - 1);
    }
  }

  /** Whether every call asks for an identity some row already holds. */
  predicate AllPresent(rows: seq<Request>, calls: seq<Args>)
  {
    forall k :: 0 <= k < |calls| ==> exists i :: 0 <= i < |rows| && rows[i].identity == IdentityOf(calls[k])
  }

  /** When every identity the calls ask for is already held, the mutation inserts no row. */
  lemma {:induction false} ApplyAllNoInsert(rows: seq<Request>, calls: seq<Args>)
    requires UniqueIdentities(rows) && AllPresent(rows, calls)
    ensures |ApplyAll(rows, calls)| == |rows|
    decreases |calls|
  {
    if |calls| > 0 {
      var id := IdentityOf(calls[0]);
      var i :| 0 <= i < |rows| && rows[i].identity == id;
      MatchingUnique(rows, id, i);
      var rows' := GetOrCreateRows(rows, calls[0]);
      assert rows' == rows[i := PatchPrompts(rows[i], calls[0])];
      PatchKeepsPresent(rows, i, calls);
      ApplyAllNoInsert(rows', calls[1..]);
    }
  }

  /** Patching the prompts of one row keeps the identities, so the remaining calls still find theirs. */
  lemma PatchKeepsPresent(rows: seq<Request>, i: nat, calls: seq<Args>)
    requires UniqueIdentities(rows) && AllPresent(rows, calls) && 0 < |calls| && i < |rows|
    ensures var rows' := rows[i := PatchPrompts(rows[i], calls[0])];
            UniqueIdentities(rows') && AllPresent(rows', calls[1..])
  {
    var rows' := rows[i := PatchPrompts(rows[i], calls[0])];
    assert forall j :: 0 <= j < |rows| ==> rows'[j].identity == rows[j].identity;
    forall k | 0 <= k < |calls[1..]|
      ensures exists j :: 0 <= j < |rows'| && rows'[j].identity == IdentityOf(calls[1..][k])
    {
      assert calls[1..][k] == calls[k + 1];
      var j :| 0 <= j < |rows| && rows[j].identity == IdentityOf(calls[k + 1]);
      assert rows'[j].identity == IdentityOf(calls[k + 1]);
    }
  }

  /** Issuing the same calls a second time inserts no row. */
  lemma RepeatInsertsNothing(rows: seq<Request>, calls: seq<Args>)
    requires UniqueIdentities(rows)
    ensures var once := GetOrCreateAllRows(rows, calls);
            |GetOrCreateAllRows(once, calls)| == |once|
  {
    GetOrCreateAllUnique(rows, calls);
    var once := GetOrCreateAllRows(rows, calls);
    forall k | 0 <= k < |calls|
      ensures exists i :: 0 <= i < |once| && once[i].identity == IdentityOf(calls[k])
    {
      GetOrCreateAllCovers(rows, calls, k);
      var i := Matching(once, IdentityOf(calls[k]))[0];
      assert once[i].identity == IdentityOf(calls[k]);
    }
    GetOrCreateAllUnique(once, calls);
    ApplyAllNoInsert(once, calls);
  }

  // ---------------------------------------------------------------------
  // The table

  class RequestTable {
    var rows: seq<Request>

    constructor(rows0: seq<Request>)
      ensures rows == rows0
    {
      rows := rows0;
    }

    /** `getOrCreateLlmRequestImpl`: the identity lookup, then a prompt patch or an insert. */
    method GetOrCreate(a: Args) returns (r: Result<GetOrCreateResult>)
      modifies this
      ensures r == GetOrCreateOutcome(old(rows), a)
      ensures rows == GetOrCreateRows(old(rows), a)
    {
      var m := Matching(rows, IdentityOf(a));
      if |m| > 1 {
        return Failure(NotUniqueError);
      }
      if |m| == 1 {
        var existing := rows[m[0]];
        if !Truthy(existing.userPrompt) && Truthy(a.userPrompt) {
          rows := rows[m[0] := existing.(systemPrompt := a.systemPrompt, userPrompt := a.userPrompt)];
        }
        return Success(FoundDoc(m[0], existing));
      }
      r := Success(Created(|rows|));
      rows := rows + [NewRequest(a)];
    }

    /** A mutation issuing the calls in order; on a throw its writes are rolled back. */
    method GetOrCreateAll(calls: seq<Args>) returns (r: Result<seq<GetOrCreateResult>>)
      modifies this
      ensures r.Failure? <==> GetOrCreateAllFails(old(rows), calls)
      ensures r.Success? ==> |r.value| == |calls|
      ensures rows == GetOrCreateAllRows(old(rows), calls)
    {
      var saved := rows;
      var results: seq<GetOrCreateResult> := [];
      var i := 0;
      while i < |calls|
        invariant 0 <= i <= |calls| && |results| == i
        invariant !GetOrCreateAllFails(saved, calls) <==> !GetOrCreateAllFails(rows, calls[i..])
        invariant !GetOrCreateAllFails(saved, calls) ==> ApplyAll(saved, calls) == ApplyAll(rows, calls[i..])
      {
        ApplyAllStep(rows, calls, i);
        var one := GetOrCreate(calls[i]);
        if one.Failure? {
          rows := saved;
          return Failure(one.error);
        }
        results := results + [one.value];
        i := i + 1;
      }
      return Success(results);
    }
  }
}
