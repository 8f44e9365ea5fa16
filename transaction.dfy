/**
 * The transaction every configuration script runs against one device:
 * create a revision, stage one document in it at the root mount path,
 * apply the revision, and wait for it to reach a terminal state.
 */
module Transaction {
  import opened Wrappers
  import opened JsonTree
  import opened NvueClient

  /** An exception that ends the script. */
  datatype Fault =
    | NoRevision(reason: RevisionError)   // raised by create_revision
    | PollRaised(polls: nat)              // raised inside wait_for_apply

  /** A run that reached the end: the revision, the staged PATCH, and what wait_for_apply returned. */
  datatype Outcome = Outcome(revision: string, staged: Request, applied: bool, polls: nat)

  /**
   * The process exit status: 0 on success and 1 otherwise. An exception
   * that escapes the script ends the interpreter with status 1 as well.
   */
  function ExitStatus(r: Result<Outcome, Fault>): (code: int)
    ensures code == 0 || code == 1
  {
    if r.Success? && r.value.applied then 0 else 1
  }

  /** patch_config at the default path, apply_revision, then wait_for_apply with the default budget. */
  method StageApplyWait(revision: string, payload: Json, answers: nat -> Json) returns (r: Result<Outcome, Fault>)
    ensures match Wait(answers, DefaultRetries)
            case Returned(ok, n) => r == Success(Outcome(revision, PatchConfig(revision, payload, RootPath), ok, n))
            case Raised(n) => r == Failure(PollRaised(n))
    ensures ExitStatus(r) == 0 <==> Succeeded(Wait(answers, DefaultRetries))
  {
    var staged := PatchConfig(revision, payload, RootPath);
    // apply_revision is a bare POST: it has no decision logic to model.
    var w := WaitForApply(answers, DefaultRetries);
    match w
    case Returned(ok, n) =>
      r := Success(Outcome(revision, staged, ok, n));
    case Raised(n) =>
      r := Failure(PollRaised(n));
  }

  /** The whole transaction, given the document built between revision creation and staging. */
  predicate Transacted(response: Entries, payload: Json, answers: nat -> Json, r: Result<Outcome, Fault>) {
    match RevisionId(response)
    case Failure(e) => r == Failure(NoRevision(e))
    case Success(id) =>
      match Wait(answers, DefaultRetries)
      case Returned(ok, n) => r == Success(Outcome(id, PatchConfig(id, payload, RootPath), ok, n))
      case Raised(n) => r == Failure(PollRaised(n))
  }

  /** A script exits with 0 exactly when a revision id was read and wait_for_apply reported success. */
  lemma TransactedExit(response: Entries, payload: Json, answers: nat -> Json, r: Result<Outcome, Fault>)
    requires Transacted(response, payload, answers, r)
    ensures ExitStatus(r) == 0 <==> RevisionId(response).Success? && Succeeded(Wait(answers, DefaultRetries))
    ensures r.Success? ==> r.value.staged == PatchConfig(r.value.revision, payload, RootPath)
    ensures r.Success? ==> r.value.staged.path == "/" && r.value.staged.body == payload
  {
  }
}
