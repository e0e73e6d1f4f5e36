/** What every serial run of the protocol keeps. */
module Soundness {
  import opened Results
  import opened Trees
  import opened Patch
  import opened RunLog
  import opened Approvals
  import opened SitePatching
  import opened Workflow
  import opened Lifecycle

  function RunIds(runs: seq<Run>): set<string> {
    set r | r in runs :: r.runId
  }

  /** Replaying the audit log gives the row its status, or shows that there is no row. */
  ghost predicate Told(s: State, id: int) {
    var stage := StageOf(s.audit, id);
    if id in s.rows then stage != Unborn && stage != Wrong && StatusOf(stage) == s.rows[id].status
    else stage == Unborn
  }

  ghost predicate AuditTells(s: State) {
    forall id :: Told(s, id)
  }

  /** Every row belongs to a run, and its patch fits the document it was tried on. */
  ghost predicate WellMade(pf: Platform, s: State) {
    && 1 <= s.nextId
    && s.madeOn.Keys == s.rows.Keys
    && forall id | id in s.rows ::
         && 1 <= id < s.nextId
         && s.rows[id].runId in RunIds(s.runs)
         && Fits(pf, s.madeOn[id], s.rows[id].ops)
  }

  ghost predicate Sound(pf: Platform, s: State) {
    WellMade(pf, s) && WithinLimit(s.rows) && AuditTells(s)
  }

  /** Rows stay, keep what they were made with, and never change once decided; new rows have new ids. */
  ghost predicate Evolves(s: State, t: State) {
    && s.nextId <= t.nextId
    && (forall id | id in s.rows ::
          && id in t.rows
          && (s.rows[id].status != Pending ==> t.rows[id] == s.rows[id])
          && t.rows[id].runId == s.rows[id].runId && t.rows[id].site == s.rows[id].site
          && t.rows[id].ops == s.rows[id].ops && t.rows[id].expiresAt == s.rows[id].expiresAt
          && t.rows[id].createdAt == s.rows[id].createdAt
          && (id in s.madeOn ==> id in t.madeOn && t.madeOn[id] == s.madeOn[id]))
    && forall id | id in t.rows && id !in s.rows :: s.nextId <= id
  }

  /** What every operation does: the invariants still hold, and the rows have evolved. */
  ghost predicate Keeps(pf: Platform, s: State, t: State) {
    Sound(pf, t) && OnePending(t.rows) && Evolves(s, t)
  }

  // ---------- single changes of the tables ----------

  lemma EvolvesTransitive(s: State, t: State, u: State)
    requires Evolves(s, t) && Evolves(t, u)
    ensures Evolves(s, u)
  {
  }

  lemma SameRunsWithinLimit(rows: Rows, later: Rows)
    requires WithinLimit(rows)
    requires forall id :: id in later <==> id in rows
    requires forall id | id in rows :: later[id].runId == rows[id].runId
    ensures WithinLimit(later)
  {
    forall runId
      ensures |OfRun(later, runId)| <= REGENERATE_LIMIT_PER_RUN
    {
      forall id
        ensures id in OfRun(later, runId) <==> id in OfRun(rows, runId)
      {
      }
      assert OfRun(later, runId) == OfRun(rows, runId);
    }
  }

  /** A new pending row of a site that has none, or whose only pending row has just been decided. */
  lemma InsertOnePending(rows: Rows, id: int, row: Row, card: Option<Thread>)
    requires OnePending(rows) && id !in rows
    requires forall i | IsPending(rows, i) :: rows[i].site != row.site
    ensures OnePending(rows[id := row.(slack := card)])
  {
  }

  lemma FewerPending(rows: Rows, later: Rows)
    requires OnePending(rows)
    requires forall i | IsPending(later, i) :: IsPending(rows, i) && later[i].site == rows[i].site
    ensures OnePending(later)
  {
  }

  lemma CreateTells(s: State, runId: string, site: string, ops: seq<PatchOp>, now: int, base: Tree)
    requires AuditTells(s) && s.nextId !in s.rows
    ensures var t := Create(s, runId, site, ops, now, base);
            AuditTells(t) && forall id | id in s.rows :: StageOf(t.audit, id) == StageOf(s.audit, id)
  {
    var t := Create(s, runId, site, ops, now, base);
    forall id
      ensures Told(t, id) && (id != s.nextId ==> StageOf(t.audit, id) == StageOf(s.audit, id))
    {
      assert Told(s, id);
      StageSnoc(s.audit, ApprovalCreated(s.nextId, runId, site), id);
    }
  }

  lemma InsertOfRun(rows: Rows, id: int, row: Row, runId: string)
    requires id !in rows
    ensures OfRun(rows[id := row], runId) == OfRun(rows, runId) + if runId == row.runId then {id} else {}
  {
  }

  lemma InsertWithinLimit(rows: Rows, id: int, row: Row)
    requires WithinLimit(rows) && id !in rows && |OfRun(rows, row.runId)| < REGENERATE_LIMIT_PER_RUN
    ensures WithinLimit(rows[id := row])
  {
    hide OfRun;
    var later := rows[id := row];
    forall runId
      ensures |OfRun(later, runId)| <= REGENERATE_LIMIT_PER_RUN
    {
      InsertOfRun(rows, id, row, runId);
    }
  }

  lemma CreateKeeps(pf: Platform, s: State, runId: string, site: string, ops: seq<PatchOp>, now: int, base: Tree)
    requires Sound(pf, s) && Fits(pf, base, ops)
    requires runId in RunIds(s.runs) && |OfRun(s.rows, runId)| < REGENERATE_LIMIT_PER_RUN
    ensures var t := Create(s, runId, site, ops, now, base);
            Sound(pf, t) && Evolves(s, t) && forall id | id in s.rows :: StageOf(t.audit, id) == StageOf(s.audit, id)
  {
    CreateTells(s, runId, site, ops, now, base);
    InsertWithinLimit(s.rows, s.nextId, Create(s, runId, site, ops, now, base).rows[s.nextId]);
  }

  lemma DecideKeeps(pf: Platform, s: State, id: int, status: Status, who: string, reason: Option<Reason>, now: int)
    requires Sound(pf, s) && IsPending(s.rows, id) && status in {Approved, Rejected, Superseded}
    ensures var t := Decide(s, id, status, who, reason, now).value;
            Sound(pf, t) && Evolves(s, t) && StageOf(t.audit, id) == Closed(status)
  {
    var t := Decide(s, id, status, who, reason, now).value;
    SameRunsWithinLimit(s.rows, t.rows);
    assert Told(s, id);
    assert StageOf(s.audit, id) == Open;
    forall i
      ensures Told(t, i)
    {
      assert Told(s, i);
      StageSnoc(s.audit, ApprovalDecided(id, status, who), i);
    }
    StageSnoc(s.audit, ApprovalDecided(id, status, who), id);
  }

  lemma AttachKeeps(pf: Platform, s: State, id: int, card: Option<Thread>)
    requires Sound(pf, s)
    ensures Sound(pf, Attach(s, id, card))
  {
    var t := Attach(s, id, card);
    SameRunsWithinLimit(s.rows, t.rows);
    forall i
      ensures Told(t, i)
    {
      assert Told(s, i);
    }
  }

  lemma ExpireTells(s: State, now: int)
    requires AuditTells(s) && forall id | id in s.rows :: 1 <= id < s.nextId
    ensures AuditTells(ExpireDue(s, now))
  {
    var t, ids := ExpireDue(s, now), DueIds(s.rows, s.nextId, now);
    forall i
      ensures Told(t, i)
    {
      assert Told(s, i);
      StageExpired(s.audit, ids, i);
    }
  }

  lemma SweepKeeps(rows: Rows, ids: seq<int>, now: int)
    requires OnePending(rows) && WithinLimit(rows)
    ensures OnePending(Swept(rows, ids, now)) && WithinLimit(Swept(rows, ids, now))
  {
    FewerPending(rows, Swept(rows, ids, now));
    SameRunsWithinLimit(rows, Swept(rows, ids, now));
  }

  lemma ExpireEvolves(s: State, now: int)
    ensures Evolves(s, ExpireDue(s, now))
  {
  }

  lemma ExpireKeeps(pf: Platform, s: State, now: int)
    requires Sound(pf, s) && OnePending(s.rows)
    ensures Keeps(pf, s, ExpireDue(s, now))
  {
    SweepKeeps(s.rows, DueIds(s.rows, s.nextId, now), now);
    ExpireTells(s, now);
    ExpireEvolves(s, now);
  }

  /** A line about a row's patch, at the stage it needs, with any change of the disk. */
  lemma LineKeeps(pf: Platform, s: State, e: Event, disk: Disk)
    requires Sound(pf, s) && e.id in s.rows && (e.PatchApplied? || e.ApplyFailed? || e.PatchRolledBack?)
    requires Next(StageOf(s.audit, e.id), e, e.id) != Wrong
    ensures var t := s.(audit := s.audit + [e], disk := disk);
            Sound(pf, t) && Evolves(s, t) && StageOf(t.audit, e.id) == Next(StageOf(s.audit, e.id), e, e.id)
  {
    var t := s.(audit := s.audit + [e], disk := disk);
    forall i
      ensures Told(t, i)
    {
      assert Told(s, i);
      StageSnoc(s.audit, e, i);
    }
    StageSnoc(s.audit, e, e.id);
  }

  lemma RunsKeep(pf: Platform, s: State, runs: seq<Run>)
    requires Sound(pf, s) && RunIds(s.runs) <= RunIds(runs)
    ensures Sound(pf, s.(runs := runs))
  {
    var t := s.(runs := runs);
    forall i
      ensures Told(t, i)
    {
      assert Told(s, i);
    }
  }

  lemma FinishedRunIds(runs: seq<Run>, runId: string, status: RunStatus, stats: Stats, now: int)
    ensures RunIds(Finished(runs, runId, status, stats, now)) == RunIds(runs)
  {
  }

  // ---------- collect runs ----------

  /** A proposal worth a row fits the document it was tried on. */
  lemma UsableFits(pf: Platform, texts: map<string, string>, site: string, samples: seq<Tree>, reply: Reply)
    requires Propose(pf, texts, site, samples, reply).Usable?
    ensures var base := Propose(pf, texts, site, samples, reply).base;
            site in texts && Document(pf, texts[site]) == Some(base) && Fits(pf, base, reply.ops)
  {
  }

  /** A new row with its card attached. */
  lemma MadeKeeps(pf: Platform, s: State, runId: string, site: string, ops: seq<PatchOp>, now: int, base: Tree,
                  card: Option<Thread>)
    requires Sound(pf, s) && Fits(pf, base, ops)
    requires runId in RunIds(s.runs) && |OfRun(s.rows, runId)| < REGENERATE_LIMIT_PER_RUN
    ensures var t := Attach(Create(s, runId, site, ops, now, base), s.nextId, card);
            Sound(pf, t) && Evolves(s, t) && forall id | id in s.rows :: StageOf(t.audit, id) == StageOf(s.audit, id)
  {
    CreateKeeps(pf, s, runId, site, ops, now, base);
    AttachKeeps(pf, Create(s, runId, site, ops, now, base), s.nextId, card);
  }

  lemma MadeOnePending(s: State, runId: string, site: string, ops: seq<PatchOp>, now: int, base: Tree,
                       card: Option<Thread>)
    requires OnePending(s.rows) && s.nextId !in s.rows && PendingIn(s.rows, site) == {}
    ensures OnePending(Attach(Create(s, runId, site, ops, now, base), s.nextId, card).rows)
  {
    var row := Create(s, runId, site, ops, now, base).rows[s.nextId];
    forall i | IsPending(s.rows, i)
      ensures s.rows[i].site != site
    {
      assert i !in PendingIn(s.rows, site);
    }
    InsertOnePending(s.rows, s.nextId, row, card);
    assert Attach(Create(s, runId, site, ops, now, base), s.nextId, card).rows
        == s.rows[s.nextId := row.(slack := card)];
  }

  lemma MaybeHealKeeps(pf: Platform, s: State, site: string, runId: string, codes: seq<string>, now: int, heal: Healing)
    requires Sound(pf, s) && OnePending(s.rows) && runId in RunIds(s.runs) && OfRun(s.rows, runId) == {}
    ensures var t := MaybeHeal(pf, s, site, runId, codes, now, heal);
            && Keeps(pf, s, t) && t.disk == s.disk
            && forall id | id in s.rows :: StageOf(t.audit, id) == StageOf(s.audit, id)
  {
    if MayHeal(s, site, Classify(codes), now, heal) {
      var p := Propose(pf, s.disk.texts, site, heal.sample.value, heal.reply);
      if p.Usable? {
        UsableFits(pf, s.disk.texts, site, heal.sample.value, heal.reply);
        MadeKeeps(pf, s, runId, site, heal.reply.ops, now, p.base, heal.card);
        MadeOnePending(s, runId, site, heal.reply.ops, now, p.base, heal.card);
      }
    }
  }

  lemma StartedRunIds(runs: seq<Run>, first: Run, status: RunStatus, stats: Stats, now: int)
    ensures RunIds(Finished(runs + [first], first.runId, status, stats, now)) == RunIds(runs) + {first.runId}
  {
    FinishedRunIds(runs + [first], first.runId, status, stats, now);
    forall r
      ensures r in runs + [first] <==> r in runs || r == first
    {
    }
  }

  lemma NewRunHasNoRows(pf: Platform, s: State, runId: string)
    requires WellMade(pf, s) && runId !in RunIds(s.runs)
    ensures OfRun(s.rows, runId) == {}
  {
    forall id | id in s.rows
      ensures id !in OfRun(s.rows, runId)
    {
    }
  }

  lemma RunSiteKeeps(pf: Platform, s: State, site: string, run: RunInput)
    requires Sound(pf, s) && OnePending(s.rows)
    ensures var t := RunSite(pf, s, site, run).0;
            && Keeps(pf, s, t) && t.disk == s.disk
            && forall id | id in s.rows :: StageOf(t.audit, id) == StageOf(s.audit, id)
  {
    if !exists r | r in s.runs :: r.runId == run.runId {
      var first := Run(run.runId, site, run.now, None, Running, NO_STATS);
      var t := TallyOf(run.readings);
      var status := if t.broke || t.failed then Failed else Succeeded;
      StartedRunIds(s.runs, first, status, t.total, run.now);
      var runs := Finished(s.runs + [first], run.runId, status, t.total, run.now);
      RunsKeep(pf, s, runs);
      NewRunHasNoRows(pf, s, run.runId);
      if !t.broke && t.failed {
        MaybeHealKeeps(pf, s.(runs := runs), site, run.runId, t.codes, run.now, run.heal);
      }
    }
  }

  // ---------- decisions ----------

  lemma RerunSiteKeeps(pf: Platform, s: State, site: string, run: RunInput)
    requires Sound(pf, s) && OnePending(s.rows)
    ensures var t := RerunSite(pf, s, site, run).0;
            && Keeps(pf, s, t) && t.disk == s.disk
            && forall id | id in s.rows :: StageOf(t.audit, id) == StageOf(s.audit, id)
  {
    if AllLoad(pf, s.disk.texts) && Configured(pf, s.disk.texts, site) {
      RunSiteKeeps(pf, s, site, run);
    }
  }

  lemma AfterRerunKeeps(pf: Platform, s: State, id: int, site: string, now: int, result: Rerun)
    requires Sound(pf, s) && OnePending(s.rows) && id in s.rows && StageOf(s.audit, id) == Live
    ensures Keeps(pf, s, AfterRerun(s, id, site, now, result).0)
  {
    var t := AfterRerun(s, id, site, now, result).0;
    if t != s {
      LineKeeps(pf, s, PatchRolledBack(id, site), t.disk);
      assert t == s.(audit := s.audit + [PatchRolledBack(id, site)], disk := t.disk);
    }
  }

  lemma ApplyApprovedKeeps(pf: Platform, s: State, id: int, now: int, rerun: RunInput)
    requires Sound(pf, s) && OnePending(s.rows) && id in s.rows && StageOf(s.audit, id) == Closed(Approved)
    ensures Keeps(pf, s, ApplyApproved(pf, s, id, now, rerun).0)
  {
    var site := s.rows[id].site;
    var doc := PatchedDocument(pf, s.disk.texts, site, s.rows[id].ops);
    if doc.Success? {
      var w := WritePatch(pf, s, id, doc.value, now);
      LineKeeps(pf, s, PatchApplied(id, site), w.disk);
      RerunSiteKeeps(pf, w, site, rerun);
      var (ran, result) := RerunSite(pf, w, site, rerun);
      AfterRerunKeeps(pf, ran, id, site, now, result);
      EvolvesTransitive(s, w, ran);
      EvolvesTransitive(s, ran, AfterRerun(ran, id, site, now, result).0);
      assert ApplyApproved(pf, s, id, now, rerun) == AfterRerun(ran, id, site, now, result);
    } else {
      LineKeeps(pf, s, ApplyFailed(id, site), s.disk);
    }
  }

  lemma ApproveKeeps(pf: Platform, s: State, id: int, who: string, now: int, rerun: RunInput)
    requires Sound(pf, s) && OnePending(s.rows)
    ensures Keeps(pf, s, Approve(pf, s, id, who, now, rerun).0)
  {
    if IsPending(s.rows, id) {
      DecideKeeps(pf, s, id, Approved, who, None, now);
      var t := Decide(s, id, Approved, who, None, now).value;
      FewerPending(s.rows, t.rows);
      ApplyApprovedKeeps(pf, t, id, now, rerun);
      EvolvesTransitive(s, t, ApplyApproved(pf, t, id, now, rerun).0);
    }
  }

  lemma AttachNewEvolves(s: State, t: State, id: int, card: Option<Thread>)
    requires Evolves(s, t) && id !in s.rows
    ensures Evolves(s, Attach(t, id, card))
  {
  }

  /** Superseding the only pending row of a site makes room for its successor. */
  lemma SupplantOnePending(rows: Rows, prev: int, id: int, row: Row, settled: Row, card: Option<Thread>)
    requires OnePending(rows) && IsPending(rows, prev) && id !in rows
    requires settled.status != Pending && row.site == rows[prev].site
    ensures OnePending(rows[prev := settled][id := row.(slack := card)])
  {
  }

  /** The successful path of regenerate_approval: a new row, the old one superseded, the card attached. */
  lemma SupplantKeeps(pf: Platform, s: State, id: int, who: string, ops: seq<PatchOp>, now: int, base: Tree,
                      card: Option<Thread>)
    requires Sound(pf, s) && OnePending(s.rows) && IsPending(s.rows, id) && Fits(pf, base, ops)
    requires |OfRun(s.rows, s.rows[id].runId)| < REGENERATE_LIMIT_PER_RUN
    ensures var (t, r) := Supplant(s, id, ops, who, now, base, card); Keeps(pf, s, t) && r == Regenerated(s.nextId)
  {
    var prev := s.rows[id];
    CreateKeeps(pf, s, prev.runId, prev.site, ops, now, base);
    var c := Create(s, prev.runId, prev.site, ops, now, base);
    DecideKeeps(pf, c, id, Superseded, who, Some(FollowedBy(s.nextId)), now);
    var d := Decide(c, id, Superseded, who, Some(FollowedBy(s.nextId)), now).value;
    EvolvesTransitive(s, c, d);
    AttachKeeps(pf, d, s.nextId, card);
    AttachNewEvolves(s, d, s.nextId, card);
    SupplantOnePending(s.rows, id, s.nextId, c.rows[s.nextId], d.rows[id], card);
    assert Attach(d, s.nextId, card).rows == s.rows[id := d.rows[id]][s.nextId := c.rows[s.nextId].(slack := card)];
  }

  lemma SupersedeOnlyKeeps(pf: Platform, s: State, id: int, who: string, now: int)
    requires Sound(pf, s) && OnePending(s.rows) && IsPending(s.rows, id)
    ensures var t := SupersedeOnly(s, id, who, now).0; Keeps(pf, s, t)
  {
    DecideKeeps(pf, s, id, Superseded, who, Some(Followed), now);
    FewerPending(s.rows, Settled(s.rows, id, Superseded, now, who, Some(Followed)));
  }

  lemma RegenerateKeeps(pf: Platform, s: State, id: int, who: string, now: int, heal: Healing)
    requires Sound(pf, s) && OnePending(s.rows)
    ensures Keeps(pf, s, Regenerate(pf, s, id, who, now, heal).0)
  {
    var t := Regenerate(pf, s, id, who, now, heal).0;
    if t == s {
    } else {
      var site := s.rows[id].site;
      var p := Propose(pf, s.disk.texts, site, heal.sample.value, heal.reply);
      if p.Usable? {
        UsableFits(pf, s.disk.texts, site, heal.sample.value, heal.reply);
        SupplantKeeps(pf, s, id, who, heal.reply.ops, now, p.base, heal.card);
        assert t == Supplant(s, id, heal.reply.ops, who, now, p.base, heal.card).0;
      } else {
        SupersedeOnlyKeeps(pf, s, id, who, now);
        assert t == SupersedeOnly(s, id, who, now).0;
      }
    }
  }

  lemma StepKeeps(pf: Platform, s: State, op: Op)
    requires Sound(pf, s) && OnePending(s.rows)
    ensures var t := Step(pf, s, op).0; Keeps(pf, s, t)
  {
    match op
    case Collect(site, run) => RunSiteKeeps(pf, s, site, run);
    case ApproveOp(id, who, now, rerun) => ApproveKeeps(pf, s, id, who, now, rerun);
    case RejectOp(id, who, reason, now) =>
      if IsPending(s.rows, id) {
        DecideKeeps(pf, s, id, Rejected, who, Some(Given(reason)), now);
        FewerPending(s.rows, Settled(s.rows, id, Rejected, now, who, Some(Given(reason))));
      }
    case RegenerateOp(id, who, now, heal) => RegenerateKeeps(pf, s, id, who, now, heal);
    case ExpireOp(now) => ExpireKeeps(pf, s, now);
  }

  // ---------- whole runs ----------

  /**
   From an empty table, after any serial run: at most one pending row per site, at most
   REGENERATE_LIMIT_PER_RUN rows per run id, every row's status is what the audit log
   replays to, and every row's patch fits the document it was tried on.
  */
  lemma {:induction false} RunsAreSound(pf: Platform, texts: map<string, string>, ops: seq<Op>)
    ensures var t := After(pf, Fresh(texts), ops); Sound(pf, t) && OnePending(t.rows)
  {
    if ops == [] {
      assert forall runId :: OfRun(map[], runId) == {};
      assert forall id :: Told(Fresh(texts), id);
    } else {
      RunsAreSound(pf, texts, ops[..|ops| - 1]);
      StepKeeps(pf, After(pf, Fresh(texts), ops[..|ops| - 1]), ops[|ops| - 1]);
    }
  }

  /** Over any further run a decided row never changes, and no row loses what it was made with. */
  lemma {:induction false} DecidedForever(pf: Platform, s: State, ops: seq<Op>)
    requires Sound(pf, s) && OnePending(s.rows)
    ensures var t := After(pf, s, ops); Keeps(pf, s, t)
  {
    if ops != [] {
      var t := After(pf, s, ops[..|ops| - 1]);
      DecidedForever(pf, s, ops[..|ops| - 1]);
      StepKeeps(pf, t, ops[|ops| - 1]);
      EvolvesTransitive(s, t, Step(pf, t, ops[|ops| - 1]).0);
    }
  }
}
