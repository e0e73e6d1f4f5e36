/** What a poll guarantees, whatever the batch, the replies and the lost acks. */
module PollProofs {
  import opened Results
  import opened Trees
  import opened Patch
  import opened Workflow
  import opened Approvals
  import opened SitePatching
  import opened Soundness
  import opened Predictions
  import opened Poller
  import Q = DecisionQueue

  /** A decision as the server enqueues it. */
  predicate WellFormed(d: Wire) {
    && d.queueId.Some? && d.approval.Id? && d.who.Some?
    && d.kind.Some? && d.kind.value in {"approve", "reject", "regenerate"}
  }

  // ---------- one turn ----------

  /** The operation a decision stands for. */
  function TurnOp(turn: Turn): Option<Op> {
    var d := turn.decision;
    if d.kind.None? || !d.approval.Id? || d.who.None? then None
    else if d.kind.value == "approve" then Some(ApproveOp(d.approval.id, d.who.value, turn.now, turn.rerun))
    else if d.kind.value == "reject" then Some(RejectOp(d.approval.id, d.who.value, ReasonText(d), turn.now))
    else if d.kind.value == "regenerate" then Some(RegenerateOp(d.approval.id, d.who.value, turn.now, turn.heal))
    else None
  }

  lemma DispatchIsStep(pf: Platform, s: State, turn: Turn)
    ensures Dispatched(pf, s, turn).0 == if TurnOp(turn).None? then s else Step(pf, s, TurnOp(turn).value).0
  {
  }

  lemma StaleDispatch(pf: Platform, s: State, turn: Turn)
    requires WellFormed(turn.decision) && !IsPending(s.rows, turn.decision.approval.id)
    ensures Dispatched(pf, s, turn) == (s, Ineligible)
  {
  }

  /**
   A decision whose approval is missing or no longer pending at its turn changes neither
   table nor files, is acked, and counts as failed. Only an uncaught error of that ack ends
   the poll instead.
  */
  lemma StaleDecisionsAreAcked(pf: Platform, p: Poll, turn: Turn)
    requires !p.aborted && WellFormed(turn.decision) && !IsPending(p.state.rows, turn.decision.approval.id)
    ensures var q := TakeTurn(pf, p, turn);
            && q.state == p.state
            && q.acks == AckLog(p.acks, turn.decision.queueId.value, turn.ack)
            && q.aborted == turn.ack.Raises?
            && q.counts == if q.aborted then p.counts else CountFailed(p.counts)
  {
    StaleDispatch(pf, p.state, turn);
  }

  /** The poll's reading of a decision in the queue. */
  function OnWire(d: Q.Decision): Wire {
    Wire(Some(d.queueId), Some(KindText(d.kind)), Id(d.approvalId), Some(d.who), d.reason)
  }

  function KindText(k: Q.Kind): string {
    match k
    case Approve => "approve"
    case Reject => "reject"
    case Regenerate => "regenerate"
  }

  // ---------- acked although the row stays pending ----------

  /** The dispatch ends in an ack. */
  predicate Answered(d: Dispatch) {
    d != Crashed && d != UnknownKind
  }

  /** A `jobs` collector is missing in the document, or in what the patch makes of it. */
  predicate LacksJobs(pf: Platform, base: Tree, ops: seq<PatchOp>) {
    && pf.validate(base).Some?
    && var before := pf.validate(base).value.collectors;
       || DryRun.COLLECTOR_NAME !in before
       || (&& before[DryRun.COLLECTOR_NAME].kind.ApiJobs?
           && ApplyPatch(base, ops).Success?
           && var patched := pf.validate(ApplyPatch(base, ops).value);
              patched.Some? && DryRun.COLLECTOR_NAME !in patched.value.collectors)
  }

  /** The site's file is there, and the LLM client raises a LookupError or the dry run misses a `jobs` collector. */
  predicate LookupFails(pf: Platform, texts: map<string, string>, site: string, reply: Reply) {
    && site in texts
    && (|| reply.RaisedLookup?
        || (&& reply.Candidate? && reply.ops != [] && Document(pf, texts[site]).Some?
            && LacksJobs(pf, Document(pf, texts[site]).value, reply.ops)))
  }

  /** What refuses a regenerate of a pending row without touching it, by an exception the poller acks. */
  predicate Refuses(pf: Platform, s: State, id: int, heal: Healing)
    requires id in s.rows
  {
    || |OfRun(s.rows, s.rows[id].runId)| >= REGENERATE_LIMIT_PER_RUN
    || (heal.enabled && heal.sample.None?)
    || (heal.enabled && heal.sample.Some? && LookupFails(pf, s.disk.texts, s.rows[id].site, heal.reply))
  }

  /**
   A decision for a pending row is acked and leaves the row pending exactly when it is a
   regenerate whose run is at the limit, whose sample is missing, or that ends in a
   LookupError: an IndexError of the LLM client, or the dry run's KeyError.
  */
  lemma AckedThoughPendingExactlyWhen(pf: Platform, s: State, turn: Turn)
    requires WellFormed(turn.decision) && IsPending(s.rows, turn.decision.approval.id) && s.nextId !in s.rows
    ensures var (t, d) := Dispatched(pf, s, turn);
            Answered(d) && IsPending(t.rows, turn.decision.approval.id) <==>
            turn.decision.kind.value == "regenerate" && Refuses(pf, s, turn.decision.approval.id, turn.heal)
  {
    var d := turn.decision;
    var id, who := d.approval.id, d.who.value;
    if d.kind.value == "approve" {
      ApprovedIsDecided(pf, s, id, who, turn.now, turn.rerun);
    } else if d.kind.value == "regenerate" {
      RegenerateEnds(pf, s, id, who, turn.now, turn.heal);
      RefusedExactlyWhen(pf, s, id, who, turn.now, turn.heal);
    }
  }

  lemma ApprovedIsDecided(pf: Platform, s: State, id: int, who: string, now: int, rerun: RunInput)
    requires IsPending(s.rows, id) && s.nextId !in s.rows
    ensures !IsPending(Approve(pf, s, id, who, now, rerun).0.rows, id)
  {
    var approved := Decide(s, id, Approved, who, None, now).value;
    ApplyApprovedRows(pf, approved, id, now, rerun);
    assert Approve(pf, s, id, who, now, rerun) == ApplyApproved(pf, approved, id, now, rerun);
  }

  lemma RefusedExactlyWhen(pf: Platform, s: State, id: int, who: string, now: int, heal: Healing)
    requires IsPending(s.rows, id) && s.nextId !in s.rows
    ensures var (t, r) := Regenerate(pf, s, id, who, now, heal);
            t == s && r.Threw? && OnError(r.error) == Ineligible <==> Refuses(pf, s, id, heal)
  {
    hide Propose, LookupFails;
    RegenerateEnds(pf, s, id, who, now, heal);
    if heal.sample.Some? {
      LookupFailsExactlyWhen(pf, s.disk.texts, s.rows[id].site, heal.sample.value, heal.reply);
    }
  }

  lemma LookupFailsExactlyWhen(pf: Platform, texts: map<string, string>, site: string, samples: seq<Tree>, reply: Reply)
    ensures Propose(pf, texts, site, samples, reply) in {NoChoice, DryRunRaised(DryRun.NoCollector)} <==>
            LookupFails(pf, texts, site, reply)
  {
    hide ApplyPatch;
  }

  // ---------- a poll is a serial run ----------

  /** The operations a poll carries out. */
  function OpsOf(pf: Platform, p: Poll, turns: seq<Turn>): seq<Op> {
    if turns == [] then []
    else
      var init, last := turns[..|turns| - 1], turns[|turns| - 1];
      OpsOf(pf, p, init) +
      if TakeTurns(pf, p, init).aborted || TurnOp(last).None? then [] else [TurnOp(last).value]
  }

  /** Everything proved of serial runs holds of polls: the state after a poll is the state after its operations. */
  lemma {:induction false} PollIsSerialRun(pf: Platform, p: Poll, turns: seq<Turn>)
    requires !p.aborted
    ensures TakeTurns(pf, p, turns).state == After(pf, p.state, OpsOf(pf, p, turns))
  {
    hide Dispatched, Step;
    if turns != [] {
      var init, last := turns[..|turns| - 1], turns[|turns| - 1];
      PollIsSerialRun(pf, p, init);
      var q, ops := TakeTurns(pf, p, init), OpsOf(pf, p, init);
      if q.aborted || TurnOp(last).None? {
        assert ops + [] == ops;
        DispatchIsStep(pf, q.state, last);
      } else {
        var op := TurnOp(last).value;
        DispatchIsStep(pf, q.state, last);
        assert (ops + [op])[..|ops|] == ops;
        assert TakeTurn(pf, q, last).state == Dispatched(pf, q.state, last).0;
      }
    }
  }

  lemma KeepsItself(pf: Platform, s: State)
    requires Sound(pf, s) && OnePending(s.rows)
    ensures Keeps(pf, s, s)
  {
  }

  lemma TurnKeeps(pf: Platform, p: Poll, turn: Turn)
    requires Sound(pf, p.state) && OnePending(p.state.rows)
    ensures Keeps(pf, p.state, TakeTurn(pf, p, turn).state)
  {
    hide Dispatched, Step, Sound, OnePending, Evolves;
    DispatchIsStep(pf, p.state, turn);
    KeepsItself(pf, p.state);
    if TurnOp(turn).Some? {
      StepKeeps(pf, p.state, TurnOp(turn).value);
    }
  }

  lemma {:induction false} PollKeeps(pf: Platform, p: Poll, turns: seq<Turn>)
    requires Sound(pf, p.state) && OnePending(p.state.rows)
    ensures Keeps(pf, p.state, TakeTurns(pf, p, turns).state)
  {
    hide TakeTurn, Sound, OnePending;
    if turns != [] {
      var q := TakeTurns(pf, p, turns[..|turns| - 1]);
      PollKeeps(pf, p, turns[..|turns| - 1]);
      TurnKeeps(pf, q, turns[|turns| - 1]);
      EvolvesTransitive(p.state, q.state, TakeTurn(pf, q, turns[|turns| - 1]).state);
    }
  }

  // ---------- at most one decision moves a row ----------

  /** Turn i of the batch took the row out of pending. */
  predicate Moved(pf: Platform, p: Poll, turns: seq<Turn>, i: int, id: int)
    requires 0 <= i < |turns|
  {
    && IsPending(TakeTurns(pf, p, turns[..i]).state.rows, id)
    && !IsPending(TakeTurns(pf, p, turns[..i + 1]).state.rows, id)
  }

  lemma MovedStays(pf: Platform, p: Poll, turns: seq<Turn>, id: int, i: int, j: int)
    requires Sound(pf, p.state) && OnePending(p.state.rows)
    requires 0 <= i < j <= |turns| && Moved(pf, p, turns, i, id)
    ensures !IsPending(TakeTurns(pf, p, turns[..j]).state.rows, id)
  {
    hide TakeTurn, Sound, OnePending;
    var a, b := TakeTurns(pf, p, turns[..i]), TakeTurns(pf, p, turns[..i + 1]);
    assert turns[..i + 1][..i] == turns[..i];
    PollKeeps(pf, p, turns[..i]);
    TurnKeeps(pf, a, turns[i]);
    TakeTurnsSplit(pf, p, turns[..i + 1], turns[i + 1..j]);
    assert turns[..i + 1] + turns[i + 1..j] == turns[..j];
    PollKeeps(pf, b, turns[i + 1..j]);
  }

  /**
   Of all turns of a batch, at most one moves a given row; every later decision for it leaves
   the state as it finds it.
  */
  lemma AtMostOneMoves(pf: Platform, p: Poll, turns: seq<Turn>, id: int, i: int, j: int)
    requires Sound(pf, p.state) && OnePending(p.state.rows)
    requires 0 <= i < j < |turns| && Moved(pf, p, turns, i, id)
    ensures !Moved(pf, p, turns, j, id)
    ensures WellFormed(turns[j].decision) && turns[j].decision.approval.id == id ==>
              TakeTurns(pf, p, turns[..j + 1]).state == TakeTurns(pf, p, turns[..j]).state
  {
    hide Dispatched, Sound, OnePending, Moved;
    MovedStays(pf, p, turns, id, i, j);
    StaysUnmoved(pf, p, turns, id, j);
    var c := TakeTurns(pf, p, turns[..j]);
    assert turns[..j + 1][..j] == turns[..j];
    if !c.aborted && WellFormed(turns[j].decision) && turns[j].decision.approval.id == id {
      StaleDispatch(pf, c.state, turns[j]);
    }
  }

  lemma StaysUnmoved(pf: Platform, p: Poll, turns: seq<Turn>, id: int, j: int)
    requires 0 <= j < |turns| && !IsPending(TakeTurns(pf, p, turns[..j]).state.rows, id)
    ensures !Moved(pf, p, turns, j, id)
  {
  }

  lemma {:induction false} TakeTurnsSplit(pf: Platform, p: Poll, first: seq<Turn>, rest: seq<Turn>)
    ensures TakeTurns(pf, p, first + rest) == TakeTurns(pf, TakeTurns(pf, p, first), rest)
    decreases |rest|
  {
    if rest == [] {
      assert first + rest == first;
    } else {
      var init, last := rest[..|rest| - 1], rest[|rest| - 1];
      TakeTurnsSplit(pf, p, first, init);
      assert (first + rest)[..|first + rest| - 1] == first + init;
    }
  }

  // ---------- the counters ----------

  /** The turns whose dispatch succeeded and whose ack then raised. */
  function CountedTwice(pf: Platform, p: Poll, turns: seq<Turn>): int {
    if turns == [] then 0
    else
      var init, last := turns[..|turns| - 1], turns[|turns| - 1];
      CountedTwice(pf, p, init) +
      if Dispatched(pf, TakeTurns(pf, p, init).state, last).1 in {Approval, Rejection, Regeneration}
          && last.ack.Raises? then 1 else 0
  }

  lemma {:induction false} CountedTwiceIsCount(pf: Platform, p: Poll, turns: seq<Turn>)
    ensures CountedTwice(pf, p, turns) >= 0
    ensures CountedTwice(pf, p, turns) == 0 <==>
            forall i | 0 <= i < |turns| ::
              turns[i].ack.Raises? ==>
                Dispatched(pf, TakeTurns(pf, p, turns[..i]).state, turns[i]).1 !in {Approval, Rejection, Regeneration}
  {
    hide Dispatched, TakeTurn;
    if turns != [] {
      var n := |turns| - 1;
      CountedTwiceIsCount(pf, p, turns[..n]);
      assert forall i | 0 <= i < n :: turns[..n][..i] == turns[..i] && turns[..n][i] == turns[i];
    }
  }

  /**
   A poll that is not ended by an exception counts every decision once, and those whose
   dispatch succeeded but whose ack raised an uncaught error a second time, as failed.
  */
  lemma {:induction false} CountersSum(pf: Platform, p: Poll, turns: seq<Turn>)
    requires !TakeTurns(pf, p, turns).aborted
    ensures TakeTurns(pf, p, turns).counts.Sum() == p.counts.Sum() + |turns| + CountedTwice(pf, p, turns)
  {
    if turns != [] {
      CountersSum(pf, p, turns[..|turns| - 1]);
    }
  }

  /** The four counters add up to the total exactly when no ack of a successful decision raises. */
  lemma CountersAreTotalExactlyWhen(pf: Platform, s: State, acks: seq<string>, turns: seq<Turn>)
    requires !TakeTurns(pf, Poll(s, acks, NO_DECISIONS, false), turns).aborted
    ensures var p := Poll(s, acks, NO_DECISIONS, false);
            TakeTurns(pf, p, turns).counts.Sum() == |turns| <==>
            forall i | 0 <= i < |turns| ::
              turns[i].ack.Raises? ==>
                Dispatched(pf, TakeTurns(pf, p, turns[..i]).state, turns[i]).1 !in {Approval, Rejection, Regeneration}
  {
    hide Dispatched, TakeTurn;
    CountersSum(pf, Poll(s, acks, NO_DECISIONS, false), turns);
    CountedTwiceIsCount(pf, Poll(s, acks, NO_DECISIONS, false), turns);
  }

  // ---------- the queue ----------

  /** Turn i ended with its ack in the server's log. */
  predicate AckedAt(pf: Platform, p: Poll, turns: seq<Turn>, i: int)
    requires 0 <= i < |turns|
  {
    var q := TakeTurns(pf, p, turns[..i]);
    && !q.aborted && turns[i].decision.queueId.Some?
    && Dispatched(pf, q.state, turns[i]).1 !in {Crashed, UnknownKind}
    && turns[i].ack in {Acked, Lost(true), Raises(true)}
  }

  lemma {:induction false} AcksAre(pf: Platform, p: Poll, turns: seq<Turn>, qid: string)
    ensures qid in TakeTurns(pf, p, turns).acks <==>
            || qid in p.acks
            || exists i | 0 <= i < |turns| :: AckedAt(pf, p, turns, i) && turns[i].decision.queueId.value == qid
  {
    hide Dispatched;
    if turns != [] {
      var n := |turns| - 1;
      AcksAre(pf, p, turns[..n], qid);
      assert forall i | 0 <= i < n :: turns[..n][..i] == turns[..i] && turns[..n][i] == turns[i];
      forall i | 0 <= i < n
        ensures AckedAt(pf, p, turns, i) == AckedAt(pf, p, turns[..n], i)
      {
      }
    }
  }

  /**
   What a poll takes out of the queue: a decision that was pending there is gone afterwards
   exactly when some turn with its queue id neither crashed nor was of unknown kind, and its
   ack was recorded. Everything else is fetched again by the next poll.
  */
  lemma PollDrains(pf: Platform, p: Poll, turns: seq<Turn>, log: seq<Q.Line>, d: Q.Decision)
    requires d in Q.Pending(log, Q.Ids(p.acks))
    ensures d !in Q.Pending(log, Q.Ids(TakeTurns(pf, p, turns).acks)) <==>
            exists i | 0 <= i < |turns| :: AckedAt(pf, p, turns, i) && turns[i].decision.queueId.value == d.queueId
  {
    var after := TakeTurns(pf, p, turns).acks;
    Q.PendingHolds(log, Q.Ids(p.acks), d);
    Q.PendingHolds(log, Q.Ids(after), d);
    AcksAre(pf, p, turns, d.queueId);
  }

  lemma KnownKinds(pf: Platform, s: State, turn: Turn, d: Q.Decision)
    requires turn.decision == OnWire(d)
    ensures Dispatched(pf, s, turn).1 != UnknownKind
  {
  }

  lemma {:induction false} NoAbort(pf: Platform, p: Poll, turns: seq<Turn>)
    requires !p.aborted
    requires forall i | 0 <= i < |turns| :: turns[i].decision.queueId.Some? && !turns[i].ack.Raises?
    ensures !TakeTurns(pf, p, turns).aborted
  {
    hide Dispatched;
    if turns != [] {
      NoAbort(pf, p, turns[..|turns| - 1]);
    }
  }

  /** A poll of a whole listing in which no dispatch crashes and every ack is recorded leaves the queue empty. */
  lemma PollEmptiesQueue(pf: Platform, p: Poll, turns: seq<Turn>, log: seq<Q.Line>)
    requires !p.aborted
    requires var out := Q.Pending(log, Q.Ids(p.acks));
             |turns| == |out| && forall i | 0 <= i < |out| :: turns[i].decision == OnWire(out[i])
    requires forall i | 0 <= i < |turns| :: turns[i].ack == Acked || turns[i].ack == Lost(true)
    requires forall i | 0 <= i < |turns| :: Dispatched(pf, TakeTurns(pf, p, turns[..i]).state, turns[i]).1 != Crashed
    ensures Q.Pending(log, Q.Ids(TakeTurns(pf, p, turns).acks)) == []
  {
    hide Dispatched, TakeTurn;
    var out, left := Q.Pending(log, Q.Ids(p.acks)), Q.Pending(log, Q.Ids(TakeTurns(pf, p, turns).acks));
    if left != [] {
      var d := left[0];
      StillPending(pf, p, turns, log, d);
      var i :| 0 <= i < |out| && out[i] == d;
      KnownKinds(pf, TakeTurns(pf, p, turns[..i]).state, turns[i], d);
      NoAbort(pf, p, turns[..i]);
      assert AckedAt(pf, p, turns, i);
      PollDrains(pf, p, turns, log, d);
    }
  }

  /** Acks are only added: what is pending after a poll was pending before it. */
  lemma StillPending(pf: Platform, p: Poll, turns: seq<Turn>, log: seq<Q.Line>, d: Q.Decision)
    requires d in Q.Pending(log, Q.Ids(TakeTurns(pf, p, turns).acks))
    ensures d in Q.Pending(log, Q.Ids(p.acks))
  {
    hide Dispatched, TakeTurn;
    Q.PendingHolds(log, Q.Ids(p.acks), d);
    Q.PendingHolds(log, Q.Ids(TakeTurns(pf, p, turns).acks), d);
    AcksAre(pf, p, turns, d.queueId);
  }
}
