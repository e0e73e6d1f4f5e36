/**
 One poll of the decision queue (app/runner/decision_poller.py): the fetched decisions are
 dispatched one after another, acked or not by what the dispatch raised, and counted.
*/
module Poller {
  import opened Results
  import opened Workflow
  import opened SitePatching
  import opened Runner

  /** `int(d["approval_id"])`: the key can be missing, or its value no number. */
  datatype IdField = Missing | NotANumber | Id(id: int)

  /** A decision as it comes over the wire; every key can be missing. */
  datatype Wire = Wire(queueId: Option<string>, kind: Option<string>, approval: IdField, who: Option<string>,
                       reason: Option<string>)

  /**
   How the ack request ends. Lost is an error `_ack` catches, Raises one it does not; either
   can come after the server has recorded the ack or before.
  */
  datatype AckReply = Acked | Lost(recorded: bool) | Raises(recorded: bool)

  predicate Recorded(reply: AckReply) {
    reply.Acked? || reply.recorded
  }

  /** A decision with what the outside world does during its turn. */
  datatype Turn = Turn(decision: Wire, now: int, rerun: RunInput, heal: Healing, ack: AckReply)

  datatype Counts = Counts(approved: int, rejected: int, regenerated: int, failed: int) {

    function Sum(): int {
      approved + rejected + regenerated + failed
    }
  }

  const NO_DECISIONS := Counts(0, 0, 0, 0)

  /** The ids the server's ack log holds, and whether the poll has been ended by an exception. */
  datatype Poll = Poll(state: State, acks: seq<string>, counts: Counts, aborted: bool)

  datatype Dispatch = Approval | Rejection | Regeneration | UnknownKind | Ineligible | Crashed

  /** The except clauses: a tuple of four exceptions, then everything else. */
  function OnError(e: Exn): Dispatch {
    if e in {LookupErr, NotPending, NotEligible, LimitReached} then Ineligible else Crashed
  }

  function ReasonText(d: Wire): string {
    if d.reason.None? || d.reason.value == "" then "rejected from slack" else d.reason.value
  }

  /** The body of the try block up to the ack. A missing key is a KeyError, hence a LookupError. */
  function Dispatched(pf: Platform, s: State, turn: Turn): (State, Dispatch) {
    var d := turn.decision;
    if d.kind.None? || d.approval.Missing? then (s, Ineligible)
    else if d.approval.NotANumber? then (s, Crashed)
    else if d.who.None? then (s, Ineligible)
    else if d.kind.value == "approve" then
      var (t, r) := Approve(pf, s, d.approval.id, d.who.value, turn.now, turn.rerun);
      (t, if r.Threw? then OnError(r.error) else Approval)
    else if d.kind.value == "reject" then
      var (t, r) := Reject(s, d.approval.id, d.who.value, ReasonText(d), turn.now);
      (t, if r.Threw? then OnError(r.error) else Rejection)
    else if d.kind.value == "regenerate" then
      var (t, r) := Regenerate(pf, s, d.approval.id, d.who.value, turn.now, turn.heal);
      (t, if r.Threw? then OnError(r.error) else Regeneration)
    else (s, UnknownKind)
  }

  function CountDone(c: Counts, d: Dispatch): Counts {
    match d
    case Approval => c.(approved := c.approved + 1)
    case Rejection => c.(rejected := c.rejected + 1)
    case Regeneration => c.(regenerated := c.regenerated + 1)
    case _ => c
  }

  function CountFailed(c: Counts): Counts {
    c.(failed := c.failed + 1)
  }

  function AckLog(acks: seq<string>, qid: string, reply: AckReply): seq<string> {
    if Recorded(reply) then acks + [qid] else acks
  }

  /**
   One turn of the loop. An uncaught error of the ack after a success is counted as a failure
   on top; in the handler it ends the poll, as does a decision without a queue id.
  */
  function TakeTurn(pf: Platform, p: Poll, turn: Turn): Poll {
    if p.aborted then p
    else
      var (t, d) := Dispatched(pf, p.state, turn);
      var counts := CountDone(p.counts, d);
      if d == UnknownKind || d == Crashed then Poll(t, p.acks, CountFailed(counts), false)
      else if turn.decision.queueId.None? then Poll(t, p.acks, counts, true)
      else
        var acks := AckLog(p.acks, turn.decision.queueId.value, turn.ack);
        if d == Ineligible then
          if turn.ack.Raises? then Poll(t, acks, counts, true) else Poll(t, acks, CountFailed(counts), false)
        else Poll(t, acks, if turn.ack.Raises? then CountFailed(counts) else counts, false)
  }

  function TakeTurns(pf: Platform, p: Poll, turns: seq<Turn>): Poll {
    if turns == [] then p else TakeTurn(pf, TakeTurns(pf, p, turns[..|turns| - 1]), turns[|turns| - 1])
  }

  class DecisionPoller {
    const runner: SiteRunner
    /** The server's ack log. */
    var acks: seq<string>
    var counts: Counts
    var aborted: bool

    ghost predicate Valid()
      reads this, runner, runner.repo, runner.table
    {
      runner.Valid()
    }

    ghost function Progress(): Poll
      reads this, runner, runner.repo, runner.table, runner.store
    {
      Poll(runner.Snapshot(), acks, counts, aborted)
    }

    constructor (runner: SiteRunner, acks: seq<string>)
      requires runner.Valid()
      ensures Valid() && this.runner == runner && Progress() == Poll(runner.Snapshot(), acks, NO_DECISIONS, false)
    {
      this.runner, this.acks, counts, aborted := runner, acks, NO_DECISIONS, false;
    }

    method DispatchTurn(turn: Turn) returns (d: Dispatch)
      requires Valid()
      modifies runner`audit, runner`madeOn, runner.repo, runner.table, runner.store
      ensures Valid() && (runner.Snapshot(), d) == Dispatched(runner.pf, old(runner.Snapshot()), turn)
    {
      var w := turn.decision;
      if w.kind.None? || w.approval.Missing? {
        return Ineligible;
      }
      if w.approval.NotANumber? {
        return Crashed;
      }
      if w.who.None? {
        return Ineligible;
      }
      var r;
      if w.kind.value == "approve" {
        r := runner.ApproveAndApply(w.approval.id, w.who.value, turn.now, turn.rerun);
        d := Approval;
      } else if w.kind.value == "reject" {
        r := runner.RejectDecision(w.approval.id, w.who.value, ReasonText(w), turn.now);
        d := Rejection;
      } else if w.kind.value == "regenerate" {
        r := runner.RegenerateApproval(w.approval.id, w.who.value, turn.now, turn.heal);
        d := Regeneration;
      } else {
        return UnknownKind;
      }
      if r.Threw? {
        d := OnError(r.error);
      }
    }

    /** False where `_ack` raises. */
    method Ack(queueId: string, reply: AckReply) returns (ok: bool)
      modifies this`acks
      ensures acks == AckLog(old(acks), queueId, reply) && ok == !reply.Raises?
    {
      ok := !reply.Raises?;
      if reply.Acked? || reply.recorded {
        acks := acks + [queueId];
      }
    }

    method HandleTurn(turn: Turn)
      requires Valid() && !aborted
      modifies this, runner`audit, runner`madeOn, runner.repo, runner.table, runner.store
      ensures Valid() && Progress() == TakeTurn(runner.pf, old(Progress()), turn)
    {
      var d := DispatchTurn(turn);
      match d
      case UnknownKind => counts := CountFailed(counts);
      case Crashed => counts := CountFailed(counts);
      case Ineligible =>
        if turn.decision.queueId.None? {
          aborted := true;
          return;
        }
        var ok := Ack(turn.decision.queueId.value, turn.ack);
        if !ok {
          aborted := true;
          return;
        }
        counts := CountFailed(counts);
      case _ =>
        counts := CountDone(counts, d);
        if turn.decision.queueId.None? {
          aborted := true;
          return;
        }
        var ok := Ack(turn.decision.queueId.value, turn.ack);
        if !ok {
          counts := CountFailed(counts);
        }
    }

    method PollAndDispatch(turns: seq<Turn>)
      requires Valid() && !aborted
      modifies this, runner`audit, runner`madeOn, runner.repo, runner.table, runner.store
      ensures Valid() && Progress() == TakeTurns(runner.pf, old(Progress()), turns)
    {
      for i := 0 to |turns|
        invariant Valid() && !aborted && Progress() == TakeTurns(runner.pf, old(Progress()), turns[..i])
      {
        assert turns[..i + 1][..i] == turns[..i];
        HandleTurn(turns[i]);
        if aborted {
          AbortedStays(runner.pf, old(Progress()), turns, i + 1);
          return;
        }
      }
      assert turns[..|turns|] == turns;
    }
  }

  /** Turns after an abort do nothing. */
  lemma {:induction false} AbortedStays(pf: Platform, p: Poll, turns: seq<Turn>, n: int)
    requires 0 <= n <= |turns| && TakeTurns(pf, p, turns[..n]).aborted
    ensures TakeTurns(pf, p, turns) == TakeTurns(pf, p, turns[..n])
    decreases |turns|
  {
    if n == |turns| {
      assert turns[..n] == turns;
    } else {
      var init := turns[..|turns| - 1];
      assert init[..n] == turns[..n];
      AbortedStays(pf, p, init, n);
    }
  }
}
