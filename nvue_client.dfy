/**
 * The decision logic of the NVUE REST client: reading the revision id out
 * of the revision-creation response, normalising mount paths, and the
 * bounded polling loop that waits for a revision to reach a terminal state.
 * The HTTP requests themselves are not modelled: the creation response is a
 * parameter, and so is the sequence of revision documents the device would
 * return to successive status queries.
 */
module NvueClient {
  import opened Wrappers
  import opened JsonTree

  // ---------------------------------------------------------------------
  // create_revision
  // ---------------------------------------------------------------------

  /**
   * The top level of a decoded response object, in document order. When a
   * key repeats, the decoder keeps the last value at the position of the
   * first occurrence.
   */
  type Entries = seq<(string, Json)>

  /** `key in payload` / `payload[key]`: the last value given for `k`. */
  function Lookup(body: Entries, k: string): (r: Option<Json>)
    ensures r.None? <==> forall e :: e in body ==> e.0 != k
    ensures r.Some? ==> exists i :: 0 <= i < |body| && body[i] == (k, r.value) && forall j :: i < j < |body| ==> body[j].0 != k
    decreases |body|
  {
    if body == [] then None
    else if body[|body| - 1].0 == k then Some(body[|body| - 1].1)
    else Lookup(body[..|body| - 1], k)
  }

  datatype RevisionError =
    | EmptyResponse   // `next(iter({}))` raises StopIteration
    | ContainerId     // the id is a list or an object, whose str() is not modelled

  function RenderId(v: Json): Result<string, RevisionError> {
    if IsScalar(v) then Success(PyStr(v)) else Failure(ContainerId)
  }

  /**
   * The revision id the client reads from the creation response: the `id`
   * of a `revision` object, else the `revision` value itself, else the first
   * top-level key.
   */
  function RevisionId(body: Entries): (r: Result<string, RevisionError>)
    ensures r == Failure(EmptyResponse) <==> body == []
    ensures (forall e :: e in body ==> e.0 != "revision") && body != [] ==> r == Success(body[0].0)
    ensures r == Failure(ContainerId) ==> Lookup(body, "revision").Some?
  {
    match Lookup(body, "revision")
    case Some(info) =>
      if info.JObj? && "id" in info.fields then RenderId(info.fields["id"]) else RenderId(info)
    case None =>
      if body == [] then Failure(EmptyResponse) else Success(body[0].0)
  }

  /** A `revision` object carrying an `id`: the id is `str(id)`. */
  lemma RevisionIdNested(body: Entries, info: map<string, Json>)
    requires Lookup(body, "revision") == Some(JObj(info))
    requires "id" in info && IsScalar(info["id"])
    ensures RevisionId(body) == Success(PyStr(info["id"]))
  {
  }

  /** Any other scalar `revision` value: the id is `str(value)`. */
  lemma RevisionIdFlat(body: Entries, v: Json)
    requires Lookup(body, "revision") == Some(v)
    requires IsScalar(v)
    ensures RevisionId(body) == Success(PyStr(v))
  {
  }

  /** The encodings of a new revision that devices are seen to answer with. */
  datatype Encoding =
    | NestedId   // {"revision": {"id": <id>, ...}}
    | FlatId     // {"revision": <id>}
    | KeyedById  // {<id>: {...revision details...}}

  function CreationResponse(enc: Encoding, id: string, details: map<string, Json>): Entries {
    match enc
    case NestedId => [("revision", JObj(details["id" := JStr(id)]))]
    case FlatId => [("revision", JStr(id))]
    case KeyedById => [(id, JObj(details))]
  }

  /**
   * Whatever the encoding, the client recovers the id the device sent, unless
   * a device keys its answer by the id "revision" itself.
   */
  lemma RevisionIdRoundTrip(enc: Encoding, id: string, details: map<string, Json>)
    requires enc == KeyedById ==> id != "revision"
    ensures RevisionId(CreationResponse(enc, id, details)) == Success(id)
  {
    var body := CreationResponse(enc, id, details);
    assert body[|body| - 1] == body[0];
    assert body[..|body| - 1] == [];
  }

  /** A numeric nested id is rendered in decimal, and that rendering gives the number back. */
  lemma RevisionIdNumeric(n: int)
    ensures RevisionId([("revision", JObj(map["id" := JInt(n)]))]) == Success(DecimalString(n))
    ensures ParseDecimal(RevisionId([("revision", JObj(map["id" := JInt(n)]))]).value) == n
  {
    var body: Entries := [("revision", JObj(map["id" := JInt(n)]))];
    assert body[..|body| - 1] == [];
    DecimalRoundTrip(n);
  }

  // ---------------------------------------------------------------------
  // patch_config / get_config
  // ---------------------------------------------------------------------

  predicate StartsWithSlash(path: string) {
    |path| > 0 && path[0] == '/'
  }

  /** A mount path always starts with '/'; a missing one is prepended. */
  function NormalizePath(path: string): (r: string)
    ensures StartsWithSlash(r)
    ensures StartsWithSlash(path) ==> r == path
    ensures !StartsWithSlash(path) ==> r == "/" + path
  {
    if StartsWithSlash(path) then path else "/" + path
  }

  lemma NormalizePathIdempotent(path: string)
    ensures NormalizePath(NormalizePath(path)) == NormalizePath(path)
  {
  }

  /** What a request addresses: a mount path under the API root and the `rev` query parameter. */
  datatype Request =
    | PatchRequest(path: string, rev: string, body: Json)
    | GetRequest(path: string, rev: string)

  const RootPath: string := "/"

  /** The PATCH issued by patch_config (its default path is "/"). */
  function PatchConfig(revision: string, payload: Json, path: string): (q: Request)
    ensures q.PatchRequest? && StartsWithSlash(q.path)
    ensures q.rev == revision && q.body == payload
    ensures q.path == NormalizePath(path)
  {
    PatchRequest(NormalizePath(path), revision, payload)
  }

  /** The GET issued by get_config (defaults: path "/", revision "applied"). */
  function GetConfig(path: string, revision: string): (q: Request)
    ensures q.GetRequest? && StartsWithSlash(q.path) && q.rev == revision
    ensures StartsWithSlash(path) ==> q.path == path
    ensures q.path == NormalizePath(path)
  {
    GetRequest(NormalizePath(path), revision)
  }

  // ---------------------------------------------------------------------
  // wait_for_apply
  // ---------------------------------------------------------------------

  const DefaultRetries: nat := 30

  /** What one status answer makes the loop do. */
  datatype Verdict =
    | Applied    // return True
    | Rejected   // return False
    | Pending    // sleep and poll again
    | Raises     // an exception escapes the loop

  /**
   * The decision the loop takes on one revision document. A document that is
   * not an object has no `.get` (AttributeError); a list or object state is
   * unhashable, so the membership test in a set of strings raises TypeError.
   */
  function Classify(details: Json): (v: Verdict)
    ensures v == Applied <==> details.JObj? && Get(details.fields, "state") == JStr("applied")
    ensures v == Rejected <==> details.JObj? && Get(details.fields, "state") in {JStr("invalid"), JStr("apply_failed")}
    ensures v == Raises <==> !details.JObj? || Get(details.fields, "state").JList? || Get(details.fields, "state").JObj?
    ensures (details.JObj? && IsScalar(Get(details.fields, "state")) &&
             Get(details.fields, "state") !in {JStr("applied"), JStr("invalid"), JStr("apply_failed")}) ==> v == Pending
    ensures details.JObj? && "state" !in details.fields ==> v == Pending
  {
    if !details.JObj? then Raises
    else
      var state := Get(details.fields, "state");
      if state == JStr("applied") then Applied
      else if state.JList? || state.JObj? then Raises
      else if state == JStr("invalid") || state == JStr("apply_failed") then Rejected
      else Pending
  }

  /** How the loop ends, and how many status queries it made. */
  datatype WaitResult =
    | Returned(ok: bool, polls: nat)
    | Raised(polls: nat)

  predicate Succeeded(w: WaitResult) {
    w.Returned? && w.ok
  }

  /** The result of the remaining polls, from poll number `i` on. */
  function WaitFrom(answers: nat -> Json, retries: nat, i: nat): WaitResult
    requires i <= retries
    decreases retries - i
  {
    if i == retries then Returned(false, retries)
    else
      match Classify(answers(i))
      case Applied => Returned(true, i + 1)
      case Rejected => Returned(false, i + 1)
      case Raises => Raised(i + 1)
      case Pending => WaitFrom(answers, retries, i + 1)
  }

  /** The outcome of wait_for_apply when poll number k would be answered by `answers(k)`. */
  function Wait(answers: nat -> Json, retries: nat): WaitResult {
    WaitFrom(answers, retries, 0)
  }

  /** The loop of wait_for_apply. `answers(k)` is the document get_revision returns on poll k. */
  method WaitForApply(answers: nat -> Json, retries: nat) returns (w: WaitResult)
    ensures w == Wait(answers, retries)
    ensures w.polls <= retries
    ensures forall k :: 0 <= k < w.polls - 1 ==> Classify(answers(k)) == Pending
  {
    var i := 0;
    while i < retries
      invariant i <= retries
      invariant WaitFrom(answers, retries, i) == Wait(answers, retries)
      invariant forall k :: 0 <= k < i ==> Classify(answers(k)) == Pending
    {
      var details := answers(i);
      if !details.JObj? {
        return Raised(i + 1);
      }
      var state := Get(details.fields, "state");
      if state == JStr("applied") {
        return Returned(true, i + 1);
      }
      if state.JList? || state.JObj? {
        return Raised(i + 1);
      }
      if state == JStr("invalid") || state == JStr("apply_failed") {
        return Returned(false, i + 1);
      }
      i := i + 1;
    }
    return Returned(false, retries);
  }

  /** The first `k` polls were all answered with a non-terminal state. */
  ghost predicate PendingBefore(answers: nat -> Json, k: nat) {
    forall j :: 0 <= j < k ==> Classify(answers(j)) == Pending
  }

  /** The result when the first decisive answer is poll number k. */
  function Decide(v: Verdict, k: nat): WaitResult
    requires v != Pending
  {
    match v
    case Applied => Returned(true, k + 1)
    case Rejected => Returned(false, k + 1)
    case Raises => Raised(k + 1)
  }

  lemma {:induction false} WaitFromFirstDecisive(answers: nat -> Json, retries: nat, i: nat, k: nat)
    requires i <= k < retries
    requires forall j :: i <= j < k ==> Classify(answers(j)) == Pending
    requires Classify(answers(k)) != Pending
    ensures WaitFrom(answers, retries, i) == Decide(Classify(answers(k)), k)
    decreases k - i
  {
    if i < k {
      WaitFromFirstDecisive(answers, retries, i + 1, k);
    }
  }

  lemma {:induction false} WaitFromAllPending(answers: nat -> Json, retries: nat, i: nat)
    requires i <= retries
    requires forall j :: i <= j < retries ==> Classify(answers(j)) == Pending
    ensures WaitFrom(answers, retries, i) == Returned(false, retries)
    decreases retries - i
  {
    if i < retries {
      WaitFromAllPending(answers, retries, i + 1);
    }
  }

  /**
   * The loop stops at the first terminal (or raising) answer within the
   * budget: the result is decided by that answer, and exactly k + 1 polls
   * were made, none after it.
   */
  lemma WaitStopsAtFirstTerminal(answers: nat -> Json, retries: nat, k: nat)
    requires k < retries
    requires PendingBefore(answers, k)
    requires Classify(answers(k)) != Pending
    ensures Wait(answers, retries) == Decide(Classify(answers(k)), k)
    ensures Wait(answers, retries).polls == k + 1
  {
    WaitFromFirstDecisive(answers, retries, 0, k);
  }

  /**
   * With no terminal answer within the budget the loop polls exactly
   * `retries` times and returns False, the same value as for a rejected
   * revision.
   */
  lemma WaitExhausted(answers: nat -> Json, retries: nat)
    requires PendingBefore(answers, retries)
    ensures Wait(answers, retries) == Returned(false, retries)
  {
    WaitFromAllPending(answers, retries, 0);
  }

  /** No budget, no poll. */
  lemma WaitZeroRetries(answers: nat -> Json)
    ensures Wait(answers, 0) == Returned(false, 0)
  {
  }

  /** wait_for_apply returns True exactly when the first terminal state within the budget is "applied". */
  lemma WaitSucceedsIff(answers: nat -> Json, retries: nat)
    ensures Succeeded(Wait(answers, retries)) <==>
            exists k :: 0 <= k < retries && PendingBefore(answers, k) && Classify(answers(k)) == Applied
  {
    if exists k :: 0 <= k < retries && Classify(answers(k)) != Pending {
      var k := FirstDecisive(answers, retries);
      WaitStopsAtFirstTerminal(answers, retries, k);
      forall k' | 0 <= k' < retries && PendingBefore(answers, k') && Classify(answers(k')) != Pending
        ensures k' == k
      {
      }
    } else {
      WaitExhausted(answers, retries);
    }
  }

  /** The index of the first non-pending answer below `retries`. */
  lemma FirstDecisive(answers: nat -> Json, retries: nat) returns (k: nat)
    requires exists k :: 0 <= k < retries && Classify(answers(k)) != Pending
    ensures k < retries && PendingBefore(answers, k) && Classify(answers(k)) != Pending
  {
    k := 0;
    while Classify(answers(k)) == Pending
      invariant k < retries
      invariant PendingBefore(answers, k)
      invariant exists m :: k <= m < retries && Classify(answers(m)) != Pending
      decreases retries - k
    {
      k := k + 1;
    }
  }

  /**
   * Answers the loop never asked for do not matter: two devices that answer
   * the polls actually made in the same way give the same result.
   */
  lemma {:induction false} WaitIgnoresLaterAnswers(a: nat -> Json, b: nat -> Json, retries: nat)
    requires forall j :: 0 <= j < Wait(a, retries).polls ==> a(j) == b(j)
    ensures Wait(b, retries) == Wait(a, retries)
  {
    if exists k :: 0 <= k < retries && Classify(a(k)) != Pending {
      var k := FirstDecisive(a, retries);
      WaitStopsAtFirstTerminal(a, retries, k);
      assert PendingBefore(b, k) by {
        forall j | 0 <= j < k ensures Classify(b(j)) == Pending {
          assert a(j) == b(j);
        }
      }
      assert a(k) == b(k);
      WaitStopsAtFirstTerminal(b, retries, k);
    } else {
      WaitExhausted(a, retries);
      assert PendingBefore(b, retries) by {
        forall j | 0 <= j < retries ensures Classify(b(j)) == Pending {
          assert a(j) == b(j);
        }
      }
      WaitExhausted(b, retries);
    }
  }
}
