/** The life of one approval as the audit log tells it. */
module Lifecycle {
  import opened Approvals
  import opened Workflow

  /**
   Open is pending; Closed is decided or expired, and nothing written; Live is approved with
   the patch in the file, Undone with the patch rolled back, Unwritten with the patch refused.
   Wrong is any order of lines the protocol does not allow.
  */
  datatype Stage = Unborn | Open | Closed(status: Status) | Live | Undone | Unwritten | Wrong

  function Next(stage: Stage, e: Event, id: int): Stage {
    if e.id != id then stage
    else match e
      case ApprovalCreated(_, _, _) => if stage == Unborn then Open else Wrong
      case ApprovalDecided(_, status, _) =>
        if stage == Open && status in {Approved, Rejected, Superseded} then Closed(status) else Wrong
      case ApprovalExpired(_) => if stage == Open then Closed(Expired) else Wrong
      case PatchApplied(_, _) => if stage == Closed(Approved) then Live else Wrong
      case ApplyFailed(_, _) => if stage == Closed(Approved) then Unwritten else Wrong
      case PatchRolledBack(_, _) => if stage == Live then Undone else Wrong
  }

  /** Where the lines of the log about an id leave it. */
  function StageOf(audit: seq<Event>, id: int): (stage: Stage)
    ensures stage.Closed? ==> stage.status in {Approved, Rejected, Superseded, Expired}
  {
    if audit == [] then Unborn else Next(StageOf(audit[..|audit| - 1], id), audit[|audit| - 1], id)
  }

  /** The status a row at a stage has. */
  function StatusOf(stage: Stage): Status
    requires stage != Unborn && stage != Wrong
  {
    match stage
    case Open => Pending
    case Closed(status) => status
    case _ => Approved
  }

  lemma StageSnoc(audit: seq<Event>, e: Event, id: int)
    ensures StageOf(audit + [e], id) == Next(StageOf(audit, id), e, id)
  {
  }

  lemma {:induction false} StageExpired(audit: seq<Event>, ids: seq<int>, id: int)
    requires forall i, j | 0 <= i < j < |ids| :: ids[i] != ids[j]
    ensures StageOf(audit + ExpiredEvents(ids), id) ==
            if id in ids then Next(StageOf(audit, id), ApprovalExpired(id), id) else StageOf(audit, id)
  {
    if ids == [] {
      assert audit + [] == audit;
    } else {
      var init, last := ids[..|ids| - 1], ids[|ids| - 1];
      StageExpired(audit, init, id);
      assert audit + ExpiredEvents(ids) == (audit + ExpiredEvents(init)) + [ApprovalExpired(last)];
      StageSnoc(audit + ExpiredEvents(init), ApprovalExpired(last), id);
    }
  }

  // ---------- what the stages mean for the lines of the log ----------

  /** The lines about an id, by what they are. */
  function Count(audit: seq<Event>, id: int, kind: Event -> bool): int {
    if audit == [] then 0
    else Count(audit[..|audit| - 1], id, kind) +
         if audit[|audit| - 1].id == id && kind(audit[|audit| - 1]) then 1 else 0
  }

  predicate Creation(e: Event) {
    e.ApprovalCreated?
  }

  predicate Closing(e: Event) {
    e.ApprovalDecided? || e.ApprovalExpired?
  }

  predicate Approval(e: Event) {
    e.ApprovalDecided? && e.status == Approved
  }

  predicate Writing(e: Event) {
    e.PatchApplied?
  }

  predicate Refusal(e: Event) {
    e.ApplyFailed?
  }

  predicate Undoing(e: Event) {
    e.PatchRolledBack?
  }

  /**
   A log that never leaves the allowed order has, for each id, one creation and at most one
   decision or expiry; it has a patch_applied only after an approval and at most once, a
   patch_rolled_back only after a patch_applied and at most once, and never both a
   patch_applied and a patch_apply_failed. The counts determine the stage.
  */
  lemma {:induction false} StageCounts(audit: seq<Event>, id: int)
    requires StageOf(audit, id) != Wrong
    ensures var stage := StageOf(audit, id);
            && Count(audit, id, Creation) == (if stage == Unborn then 0 else 1)
            && Count(audit, id, Closing) == (if stage == Unborn || stage == Open then 0 else 1)
            && Count(audit, id, Approval) == (if stage in {Live, Undone, Unwritten, Closed(Approved)} then 1 else 0)
            && Count(audit, id, Writing) == (if stage == Live || stage == Undone then 1 else 0)
            && Count(audit, id, Refusal) == (if stage == Unwritten then 1 else 0)
            && Count(audit, id, Undoing) == (if stage == Undone then 1 else 0)
  {
    if audit != [] {
      StageCounts(audit[..|audit| - 1], id);
    }
  }

  /** A log in the allowed order was in it all along: every line found the stage it needs. */
  lemma {:induction false} LinesComeInOrder(audit: seq<Event>, n: int)
    requires 0 <= n < |audit| && StageOf(audit, audit[n].id) != Wrong
    ensures var before := StageOf(audit[..n], audit[n].id);
            match audit[n]
            case ApprovalCreated(_, _, _) => before == Unborn
            case ApprovalDecided(_, _, _) => before == Open
            case ApprovalExpired(_) => before == Open
            case PatchApplied(_, _) => before == Closed(Approved)
            case ApplyFailed(_, _) => before == Closed(Approved)
            case PatchRolledBack(_, _) => before == Live
  {
    var m := |audit| - 1;
    if n < m {
      assert audit[..m][..n] == audit[..n];
      LinesComeInOrder(audit[..m], n);
    }
  }
}
