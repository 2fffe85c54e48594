/**
 * The custom keys the orchestrators put on requests, batches and jobs:
 * `<kind>:<id>:<stage>`, read back by `key.split(":")` into its first
 * three parts, and the registry lookup of `target_registry.ts` that
 * dispatches a retry on the first part.
 */
module CustomKeys {
  import opened Wrappers
  import opened JsStrings

  /** `` `${kind}:${id}:${stage}` ``. */
  function MakeKey(kind: string, id: string, stage: string): string
  {
    kind + ":" + id + ":" + stage
  }

  /** The id and the stage read back from a key; a part the key does not have is `undefined`. */
  datatype KeyParts = KeyParts(id: Option<string>, stage: Option<string>)

  /** Part k of `key.split(":")`, if there is one. */
  function Part(key: string, k: nat): (p: Option<string>)
    ensures p.Some? ==> ':' !in p.value
  {
    var parts := Split(key, ':');
    if k < |parts| then Some(parts[k]) else None
  }

  /**
   * `const [type, id, stage] = key.split(":")`, throwing `message` followed by
   * the key when the first part is not `kind`.  Parts after the third are
   * ignored.
   */
  function ParseKey(kind: string, message: string, key: string): (r: Result<KeyParts>)
    ensures r.Success? <==> Split(key, ':')[0] == kind
    ensures r.Failure? ==> r.error == message + key
  {
    if Split(key, ':')[0] != kind then Failure(message + key)
    else Success(KeyParts(Part(key, 1), Part(key, 2)))
  }

  /** The text a possibly `undefined` part takes inside a template string. */
  function PartText(p: Option<string>): string
  {
    if p.Some? then p.value else "undefined"
  }

  /** A key made from colon-free parts reads back as those parts. */
  lemma ParseMakeKey(kind: string, message: string, id: string, stage: string)
    requires ':' !in kind && ':' !in id && ':' !in stage
    ensures ParseKey(kind, message, MakeKey(kind, id, stage)) == Success(KeyParts(Some(id), Some(stage)))
  {
    var ts := [kind, id, stage];
    assert NoSep(ts, ':') by {
      forall k | 0 <= k < |ts| ensures ':' !in ts[k] {
        assert ts[k] == kind || ts[k] == id || ts[k] == stage;
      }
    }
    assert ts[1..] == [id, stage] && ts[1..][1..] == [stage];
    assert Join([stage], ":") == stage;
    assert Join([id, stage], ":") == id + ":" + stage;
    assert Join(ts, ":") == kind + ":" + Join([id, stage], ":");
    assert Join(ts, ":") == MakeKey(kind, id, stage);
    SplitJoin(ts, ':');
  }

  /** Keys made from colon-free parts are equal only when their parts are. */
  lemma MakeKeyInjective(kind: string, id1: string, stage1: string, id2: string, stage2: string)
    requires ':' !in kind && ':' !in id1 && ':' !in stage1 && ':' !in id2 && ':' !in stage2
    requires MakeKey(kind, id1, stage1) == MakeKey(kind, id2, stage2)
    ensures id1 == id2 && stage1 == stage2
  {
    ParseMakeKey(kind, "", id1, stage1);
    ParseMakeKey(kind, "", id2, stage2);
  }

  /** Keys of different kinds never coincide. */
  lemma MakeKeyKinds(kind1: string, kind2: string, id1: string, stage1: string, id2: string, stage2: string)
    requires ':' !in kind1 && ':' !in id1 && ':' !in stage1
    requires ':' !in kind2 && ':' !in id2 && ':' !in stage2
    requires kind1 != kind2
    ensures MakeKey(kind1, id1, stage1) != MakeKey(kind2, id2, stage2)
  {
    ParseMakeKey(kind1, "", id1, stage1);
    ParseMakeKey(kind2, "", id2, stage2);
  }

  // ---------------------------------------------------------------------
  // target_registry.ts

  /** `parseTargetType`: the first part of the key (`split` always has one, so `?? ""` never applies). */
  function TargetType(key: string): (t: string)
    ensures ':' !in t
  {
    Split(key, ':')[0]
  }

  datatype RequeueHandler = EvidenceHandler

  /** `resolveRequeueHandler`: only evidence keys have a retry handler. */
  function ResolveRequeueHandler(key: string): (h: Option<RequeueHandler>)
  {
    if TargetType(key) == "evidence" then Some(EvidenceHandler) else None
  }

  /** A key has a retry handler exactly when its evidence-key parse succeeds. */
  lemma RequeueHandlerIffEvidenceKey(key: string, message: string)
    ensures ResolveRequeueHandler(key).Some? <==> ParseKey("evidence", message, key).Success?
  {
  }

  /** Made keys dispatch on their kind: an evidence key has a handler, a sample key does not. */
  lemma RequeueHandlerOfMadeKey(kind: string, id: string, stage: string)
    requires ':' !in kind && ':' !in id && ':' !in stage
    ensures ResolveRequeueHandler(MakeKey(kind, id, stage)).Some? <==> kind == "evidence"
  {
    ParseMakeKey(kind, "", id, stage);
  }
}
