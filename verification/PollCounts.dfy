/**
 What each counter of a poll counts (counts in app/runner/decision_poller.py), said by the
 kind of a decision and by what carrying it out returns or raises.
*/
module PollCounts {
  import opened Results
  import opened Workflow
  import opened SitePatching
  import opened Poller

  // ---------- one turn ----------

  /** Every key the try block reads before the call is there, and the approval id is a number. */
  predicate Complete(d: Wire) {
    d.kind.Some? && d.approval.Id? && d.who.Some?
  }

  /** What the call for the decision's kind returns or raises; nothing for other kinds. */
  function CallOf(pf: Platform, s: State, turn: Turn): Option<Outcome>
    requires Complete(turn.decision)
  {
    var d := turn.decision;
    var id, who := d.approval.id, d.who.value;
    if d.kind.value == "approve" then Some(Approve(pf, s, id, who, turn.now, turn.rerun).1)
    else if d.kind.value == "regenerate" then Some(Regenerate(pf, s, id, who, turn.now, turn.heal).1)
    else if d.kind.value != "reject" then None
    else
      var reason := if d.reason.None? || d.reason.value == "" then "rejected from slack" else d.reason.value;
      Some(Reject(s, id, who, reason, turn.now).1)
  }

  /** The decision is of the kind, and its call returned. */
  predicate Carried(pf: Platform, s: State, turn: Turn, kind: string) {
    && Complete(turn.decision) && turn.decision.kind.value == kind
    && CallOf(pf, s, turn).Some? && !CallOf(pf, s, turn).value.Threw?
  }

  predicate CarriedAny(pf: Platform, s: State, turn: Turn) {
    Carried(pf, s, turn, "approve") || Carried(pf, s, turn, "reject") || Carried(pf, s, turn, "regenerate")
  }

  /** The call raised an exception: one of those the first handler names, or another. */
  predicate Raises(pf: Platform, s: State, turn: Turn, named: bool) {
    && Complete(turn.decision) && CallOf(pf, s, turn).Some? && CallOf(pf, s, turn).value.Threw?
    && (CallOf(pf, s, turn).value.error in {LookupErr, NotPending, NotEligible, LimitReached} <==> named)
  }

  /** The first handler gets it: a key is missing, or the call raised what the handler names. */
  predicate Skipped(pf: Platform, s: State, turn: Turn) {
    var d := turn.decision;
    d.kind.None? || d.approval.Missing? || (d.approval.Id? && d.who.None?) || Raises(pf, s, turn, true)
  }

  /** The second handler gets it: the id is no number, or the call raised anything else. */
  predicate Breaks(pf: Platform, s: State, turn: Turn) {
    (turn.decision.kind.Some? && turn.decision.approval.NotANumber?) || Raises(pf, s, turn, false)
  }

  predicate OfUnknownKind(turn: Turn) {
    Complete(turn.decision) && turn.decision.kind.value !in {"approve", "reject", "regenerate"}
  }

  /** An exception comes out of the first handler: its ack raises, or there is no queue id to ack. */
  predicate Aborts(pf: Platform, s: State, turn: Turn) {
    || (Skipped(pf, s, turn) && (turn.decision.queueId.None? || turn.ack.Raises?))
    || (CarriedAny(pf, s, turn) && turn.decision.queueId.None?)
  }

  datatype Counter = ApprovedCount | RejectedCount | RegeneratedCount | FailedCount

  function Value(c: Counts, counter: Counter): int {
    match counter
    case ApprovedCount => c.approved
    case RejectedCount => c.rejected
    case RegeneratedCount => c.regenerated
    case FailedCount => c.failed
  }

  /**
   A turn adds one to the counter: carrying out a decision to that of its kind; and to the
   failed ones an unknown kind, a decision that breaks, one that is skipped and acked, and one
   that was carried out and whose ack raises.
  */
  predicate Adds(pf: Platform, s: State, turn: Turn, counter: Counter) {
    match counter
    case ApprovedCount => Carried(pf, s, turn, "approve")
    case RejectedCount => Carried(pf, s, turn, "reject")
    case RegeneratedCount => Carried(pf, s, turn, "regenerate")
    case FailedCount =>
      || OfUnknownKind(turn) || Breaks(pf, s, turn)
      || (Skipped(pf, s, turn) && turn.decision.queueId.Some? && !turn.ack.Raises?)
      || (CarriedAny(pf, s, turn) && turn.decision.queueId.Some? && turn.ack.Raises?)
  }

  lemma DispatchMeans(pf: Platform, s: State, turn: Turn)
    ensures var d := Dispatched(pf, s, turn).1;
            && (d == Approval <==> Carried(pf, s, turn, "approve"))
            && (d == Rejection <==> Carried(pf, s, turn, "reject"))
            && (d == Regeneration <==> Carried(pf, s, turn, "regenerate"))
            && (d == UnknownKind <==> OfUnknownKind(turn))
            && (d == Ineligible <==> Skipped(pf, s, turn))
            && (d == Crashed <==> Breaks(pf, s, turn))
  {
    hide Approve, Regenerate, Reject;
  }

  lemma TurnAdds(pf: Platform, p: Poll, turn: Turn, counter: Counter)
    requires !p.aborted
    ensures var q := TakeTurn(pf, p, turn);
            && Value(q.counts, counter) ==
               Value(p.counts, counter) + (if Adds(pf, p.state, turn, counter) then 1 else 0)
            && (q.aborted <==> Aborts(pf, p.state, turn))
  {
    hide Dispatched, Carried, OfUnknownKind, Skipped, Breaks;
    DispatchMeans(pf, p.state, turn);
  }

  // ---------- a batch ----------

  /** None of the turns aborts the poll: one more would be reached. */
  predicate GoesOn(pf: Platform, p: Poll, turns: seq<Turn>) {
    if turns == [] then !p.aborted
    else
      var init, last := turns[..|turns| - 1], turns[|turns| - 1];
      GoesOn(pf, p, init) && !Aborts(pf, TakeTurns(pf, p, init).state, last)
  }

  /** How many turns are reached and add to the counter. */
  function Added(pf: Platform, p: Poll, turns: seq<Turn>, counter: Counter): nat {
    if turns == [] then 0
    else
      var init, last := turns[..|turns| - 1], turns[|turns| - 1];
      Added(pf, p, init, counter) +
      if GoesOn(pf, p, init) && Adds(pf, TakeTurns(pf, p, init).state, last, counter) then 1 else 0
  }

  /**
   Each counter grows by the number of turns that are reached and add to it, and the poll is
   aborted exactly when one of the turns does that.
  */
  lemma {:induction false} CountersMean(pf: Platform, p: Poll, turns: seq<Turn>, counter: Counter)
    ensures var q := TakeTurns(pf, p, turns);
            && Value(q.counts, counter) == Value(p.counts, counter) + Added(pf, p, turns, counter)
            && (q.aborted <==> !GoesOn(pf, p, turns))
  {
    if turns != [] {
      hide Aborts, Adds, TakeTurn, Value;
      var init, last := turns[..|turns| - 1], turns[|turns| - 1];
      CountersMean(pf, p, init, counter);
      if GoesOn(pf, p, init) {
        TurnAdds(pf, TakeTurns(pf, p, init), last, counter);
      } else {
        AbortedTurn(pf, TakeTurns(pf, p, init), last);
      }
    }
  }

  lemma AbortedTurn(pf: Platform, p: Poll, turn: Turn)
    requires p.aborted
    ensures TakeTurn(pf, p, turn) == p
  {
  }
}
