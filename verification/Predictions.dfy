/** What a row's dry run predicts about its approval, and when healing makes rows at all. */
module Predictions {
  import opened Results
  import opened Trees
  import opened Patch
  import opened RunLog
  import opened Approvals
  import opened SitePatching
  import opened Workflow
  import opened Soundness
  import opened Ledger

  // ---------- approving ----------

  /** Approving a pending row fails to apply exactly when its patch does not fit the document that is there now. */
  lemma NotAppliedExactlyWhen(pf: Platform, s: State, id: int, who: string, now: int, rerun: RunInput)
    requires IsPending(s.rows, id)
    ensures var row := s.rows[id];
            Approve(pf, s, id, who, now, rerun).1 == NotApplied <==>
            && row.site in s.disk.texts && Document(pf, s.disk.texts[row.site]).Some?
            && !Fits(pf, Document(pf, s.disk.texts[row.site]).value, row.ops)
  {
  }

  /** The site's document is the one the row's patch was tried on. */
  ghost predicate OnItsBase(pf: Platform, s: State, id: int) {
    && id in s.rows && id in s.madeOn && s.rows[id].site in s.disk.texts
    && Document(pf, s.disk.texts[s.rows[id].site]) == Some(s.madeOn[id])
  }

  /** On its base a row's patch always applies; with valid configs the rerun is reached and returns. */
  lemma DryRunPredictsApply(pf: Platform, s: State, id: int, who: string, now: int, rerun: RunInput)
    requires Sound(pf, s) && IsPending(s.rows, id) && OnItsBase(pf, s, id)
    ensures var r := Approve(pf, s, id, who, now, rerun).1;
            && r != NotApplied
            && (RoundTrips(pf) && AllLoad(pf, s.disk.texts) ==> r.Applied?)
  {
    NotAppliedExactlyWhen(pf, s, id, who, now, rerun);
    var approved := Decide(s, id, Approved, who, None, now).value;
    assert Approve(pf, s, id, who, now, rerun) == ApplyApproved(pf, approved, id, now, rerun);
    var row := s.rows[id];
    var doc := PatchedDocument(pf, s.disk.texts, row.site, row.ops).value;
    RerunKeepsDisk(pf, WritePatch(pf, approved, id, doc, now), row.site, rerun);
    if RoundTrips(pf) && AllLoad(pf, s.disk.texts) {
      WritingKeepsAllLoad(pf, s.disk, row.site, row.ops, now);
    }
  }

  lemma MaybeHealOnBase(pf: Platform, s: State, site: string, runId: string, codes: seq<string>, now: int,
                        heal: Healing, id: int)
    requires id !in s.rows
    ensures var t := MaybeHeal(pf, s, site, runId, codes, now, heal);
            id in t.rows ==> id == s.nextId && OnItsBase(pf, t, id)
  {
  }

  /** A row is made on the document that is in the file, unless the operation that made it rolled that document back. */
  lemma NewRowsOnBase(pf: Platform, s: State, op: Op, id: int)
    requires Sound(pf, s) && OnePending(s.rows) && id !in s.rows
    ensures var (t, r) := Step(pf, s, op); id in t.rows && r != Applied(false) ==> OnItsBase(pf, t, id)
  {
    if id !in Step(pf, s, op).0.rows || Step(pf, s, op).1 == Applied(false) {
      return;
    }
    match op
    case Collect(site, run) => RunSiteOnBase(pf, s, site, run, id);
    case ApproveOp(a, who, now, rerun) =>
      var approved := Decide(s, a, Approved, who, None, now).value;
      assert Step(pf, s, op) == ApplyApproved(pf, approved, a, now, rerun);
      ApplyApprovedOnBase(pf, approved, a, now, rerun, id);
    case RegenerateOp(prev, who, now, heal) => RegenerateOnBase(pf, s, prev, who, now, heal, id);
    case _ =>
  }

  lemma RunSiteOnBase(pf: Platform, s: State, site: string, run: RunInput, id: int)
    requires id !in s.rows
    ensures id in RunSite(pf, s, site, run).0.rows ==> OnItsBase(pf, RunSite(pf, s, site, run).0, id)
  {
    if id !in RunSite(pf, s, site, run).0.rows {
      return;
    }
    var t := TallyOf(run.readings);
    var first := Run(run.runId, site, run.now, None, Running, NO_STATS);
    var finished := s.(runs := Finished(s.runs + [first], run.runId, Failed, t.total, run.now));
    assert RunSite(pf, s, site, run).0 == MaybeHeal(pf, finished, site, run.runId, t.codes, run.now, run.heal);
    MaybeHealOnBase(pf, finished, site, run.runId, t.codes, run.now, run.heal, id);
  }

  lemma RegenerateOnBase(pf: Platform, s: State, prev: int, who: string, now: int, heal: Healing, id: int)
    requires s.nextId !in s.rows
    requires id in Regenerate(pf, s, prev, who, now, heal).0.rows && id !in s.rows
    ensures OnItsBase(pf, Regenerate(pf, s, prev, who, now, heal).0, id)
  {
    var site := s.rows[prev].site;
    UsableFits(pf, s.disk.texts, site, heal.sample.value, heal.reply);
    var base := Propose(pf, s.disk.texts, site, heal.sample.value, heal.reply).base;
    assert Regenerate(pf, s, prev, who, now, heal) == Supplant(s, prev, heal.reply.ops, who, now, base, heal.card);
  }

  lemma ApplyApprovedOnBase(pf: Platform, s: State, a: int, now: int, rerun: RunInput, id: int)
    requires a in s.rows && id !in s.rows
    ensures var (t, r) := ApplyApproved(pf, s, a, now, rerun);
            id in t.rows && r != Applied(false) ==> OnItsBase(pf, t, id)
  {
    var (t, r) := ApplyApproved(pf, s, a, now, rerun);
    if id !in t.rows || r == Applied(false) {
      return;
    }
    var site := s.rows[a].site;
    var w := WritePatch(pf, s, a, PatchedDocument(pf, s.disk.texts, site, s.rows[a].ops).value, now);
    var (ran, result) := RerunSite(pf, w, site, rerun);
    assert ApplyApproved(pf, s, a, now, rerun) == AfterRerun(ran, a, site, now, result);
    assert ran == RunSite(pf, w, site, rerun).0;
    RunSiteOnBase(pf, w, site, rerun, id);
  }

  /**
   A row that the system made can only fail to apply after its site's file has changed:
   by a later write, or by the rollback in the very operation that made it.
  */
  lemma FailureNeedsAChange(pf: Platform, s: State, op: Op, ops: seq<Op>, id: int, who: string, now: int,
                            rerun: RunInput)
    requires Sound(pf, s) && OnePending(s.rows) && id !in s.rows
    ensures var (t, r) := Step(pf, s, op);
            var u := After(pf, t, ops);
            id in t.rows && r != Applied(false) && IsPending(u.rows, id) && SameText(t, u, t.rows[id].site) ==>
              Approve(pf, u, id, who, now, rerun).1 != NotApplied
  {
    var (t, r) := Step(pf, s, op);
    var u := After(pf, t, ops);
    StepKeeps(pf, s, op);
    if id in t.rows && r != Applied(false) && IsPending(u.rows, id) && SameText(t, u, t.rows[id].site) {
      NewRowsOnBase(pf, s, op, id);
      DecidedForever(pf, t, ops);
      DryRunPredictsApply(pf, u, id, who, now, rerun);
    }
  }

  predicate SameText(s: State, t: State, site: string) {
    site in s.disk.texts && site in t.disk.texts && s.disk.texts[site] == t.disk.texts[site]
  }

  /** What a decision writes into its row. */
  function DecidedRow(row: Row, status: Status, who: string, now: int, reason: Option<Reason>): Row {
    row.(status := status, decidedAt := Some(now), decidedBy := Some(who), reason := reason)
  }

  /**
   Whatever becomes of its patch, approving a pending row approves it and leaves every other
   row alone; approving anything else raises and changes nothing.
  */
  lemma ApproveDecides(pf: Platform, s: State, id: int, who: string, now: int, rerun: RunInput)
    requires Sound(pf, s) && OnePending(s.rows)
    ensures var (t, r) := Approve(pf, s, id, who, now, rerun);
            if id !in s.rows then t == s && r == Threw(LookupErr)
            else if s.rows[id].status != Pending then t == s && r == Threw(NotPending)
            else
              && id in t.rows && t.rows[id] == DecidedRow(s.rows[id], Approved, who, now, None)
              && forall other | other in s.rows && other != id :: other in t.rows && t.rows[other] == s.rows[other]
  {
    if IsPending(s.rows, id) {
      var approved := Decide(s, id, Approved, who, None, now).value;
      DecideKeeps(pf, s, id, Approved, who, None, now);
      FewerPending(s.rows, approved.rows);
      assert Approve(pf, s, id, who, now, rerun) == ApplyApproved(pf, approved, id, now, rerun);
      ApplyApprovedRows(pf, approved, id, now, rerun);
    }
  }

  /** Applying and rerunning change no row that is there. */
  lemma ApplyApprovedRows(pf: Platform, s: State, id: int, now: int, rerun: RunInput)
    requires id in s.rows && s.nextId !in s.rows
    ensures forall other | other in s.rows ::
              other in ApplyApproved(pf, s, id, now, rerun).0.rows
                && ApplyApproved(pf, s, id, now, rerun).0.rows[other] == s.rows[other]
  {
    var site := s.rows[id].site;
    var doc := PatchedDocument(pf, s.disk.texts, site, s.rows[id].ops);
    if doc.Success? {
      var w := WritePatch(pf, s, id, doc.value, now);
      var (ran, result) := RerunSite(pf, w, site, rerun);
      assert ApplyApproved(pf, s, id, now, rerun) == AfterRerun(ran, id, site, now, result);
      RerunRows(pf, w, site, rerun);
    }
  }

  lemma RerunRows(pf: Platform, s: State, site: string, run: RunInput)
    requires s.nextId !in s.rows
    ensures var t := RerunSite(pf, s, site, run).0;
            forall id | id in s.rows :: id in t.rows && t.rows[id] == s.rows[id]
  {
  }

  /** Rejecting a pending row decides it and does nothing else; rejecting anything else raises and changes nothing. */
  lemma RejectDecides(s: State, id: int, who: string, reason: string, now: int)
    ensures var (t, r) := Reject(s, id, who, reason, now);
            if id !in s.rows then t == s && r == Threw(LookupErr)
            else if s.rows[id].status != Pending then t == s && r == Threw(NotPending)
            else
              && r == RejectDone
              && t.rows == s.rows[id := DecidedRow(s.rows[id], Rejected, who, now, Some(Given(reason)))]
              && t.audit == s.audit + [ApprovalDecided(id, Rejected, who)]
              && t.disk == s.disk && t.runs == s.runs
  {
  }

  // ---------- when a rerun counts as a success ----------

  /** What upserts count is never negative. */
  ghost predicate CountsUp(readings: seq<Reading>) {
    forall r | r in readings && r.Read? :: r.stats.inserted >= 0 && r.stats.updated >= 0 && r.stats.same >= 0
  }

  predicate Stores(r: Reading) {
    r.Read? && r.records > 0 && r.stats.Total() > 0
  }

  lemma StoresSnoc(init: seq<Reading>, last: Reading)
    ensures (exists r | r in init + [last] :: Stores(r)) <==> (exists r | r in init :: Stores(r)) || Stores(last)
  {
  }

  lemma {:induction false} TallyTotals(readings: seq<Reading>)
    requires CountsUp(readings) && !TallyOf(readings).broke
    ensures var t := TallyOf(readings).total;
            && t.inserted >= 0 && t.updated >= 0 && t.same >= 0
            && (t.Total() > 0 <==> exists r | r in readings :: Stores(r))
  {
    hide Stores;
    if readings != [] {
      var init, last := readings[..|readings| - 1], readings[|readings| - 1];
      assert readings == init + [last];
      StoresSnoc(init, last);
      TallyTotals(init);
      TotalSnoc(TallyOf(init), last);
    }
  }

  lemma TotalSnoc(t: Tally, r: Reading)
    requires r.Read? ==> r.stats.inserted >= 0 && r.stats.updated >= 0 && r.stats.same >= 0
    requires t.total.inserted >= 0 && t.total.updated >= 0 && t.total.same >= 0
    ensures var u := Counted(t, r).total;
            && u.inserted >= 0 && u.updated >= 0 && u.same >= 0
            && (u.Total() > 0 <==> t.total.Total() > 0 || Stores(r))
  {
  }

  /**
   A rerun succeeds exactly when all configs load, the site has one, its run id is new, no
   collector raises, and some collector stores a record.
  */
  lemma RerunSucceedsExactlyWhen(pf: Platform, s: State, site: string, run: RunInput)
    requires CountsUp(run.readings)
    ensures RerunSite(pf, s, site, run).1 == RerunEnded(true) <==>
            && AllLoad(pf, s.disk.texts) && Configured(pf, s.disk.texts, site)
            && run.runId !in RunIds(s.runs)
            && Broke !in run.readings
            && exists r | r in run.readings :: Stores(r)
  {
    TallyMeans(run.readings);
    if !TallyOf(run.readings).broke {
      TallyTotals(run.readings);
    }
  }

  // ---------- when healing makes a row ----------

  /** A failed run is healable when nothing points at the network and the response changed shape or came back empty. */
  lemma HealableWhen(codes: seq<string>)
    ensures Classify(codes) in {SchemaChange, EmptyResults} <==>
            && "fetch_failed" !in codes
            && (|| "items_path_not_list" in codes
                || "missing_external_id" in codes
                || ("empty_results" in codes && "missing_required_field" !in codes && "volume_drop" !in codes))
  {
  }

  /** The diagnosis of a failed run, by its issue codes. */
  lemma DiagnosisMeans(codes: seq<string>)
    ensures Classify(codes) ==
            if codes == [] then NoFailure
            else if "fetch_failed" in codes then NetworkBlocked
            else if "items_path_not_list" in codes || "missing_external_id" in codes then SchemaChange
            else if "missing_required_field" in codes then MissingFields
            else if "volume_drop" in codes then VolumeDrop
            else if "empty_results" in codes then EmptyResults
            else Unknown
  {
  }

  /**
   The loop over the collectors: it breaks at the first exception, and fails on a collector
   with issues and no record.
  */
  lemma {:induction false} TallyMeans(readings: seq<Reading>)
    ensures var t := TallyOf(readings);
            && (t.broke <==> Broke in readings)
            && (!t.broke ==> (t.failed <==> exists r | r in readings :: r.Read? && r.records <= 0 && r.codes != []))
            && (!t.broke ==> forall c :: c in t.codes <==> exists r | r in readings :: r.Read? && c in r.codes)
  {
    if readings != [] {
      var init, last := readings[..|readings| - 1], readings[|readings| - 1];
      TallyMeans(init);
      assert readings == init + [last];
    }
  }

  /**
   No row of the site is pending, and none was rejected at or after the given time. The query
   for pending rows filters by site only if the name is not empty: a site without a name
   waits for every site.
  */
  ghost predicate AtRest(rows: Rows, site: string, since: int) {
    forall id | id in rows ::
      && (site == "" || rows[id].site == site ==> rows[id].status != Pending)
      && !(rows[id].site == site && rows[id].status == Rejected && rows[id].decidedAt.Some?
          && since <= rows[id].decidedAt.value)
  }

  lemma AtRestMeans(rows: Rows, site: string, since: int)
    ensures AtRest(rows, site, since) <==> PendingIn(rows, site) == {} && RejectedSince(rows, site, since) == {}
  {
    if AtRest(rows, site, since) {
      forall id
        ensures id !in PendingIn(rows, site) && id !in RejectedSince(rows, site, since)
      {
      }
      assert PendingIn(rows, site) == {} && RejectedSince(rows, site, since) == {};
    }
    if PendingIn(rows, site) == {} && RejectedSince(rows, site, since) == {} {
      forall id | id in rows
        ensures site == "" || rows[id].site == site ==> rows[id].status != Pending
        ensures !(rows[id].site == site && rows[id].status == Rejected && rows[id].decidedAt.Some?
          && since <= rows[id].decidedAt.value)
      {
        assert id !in PendingIn(rows, site) && id !in RejectedSince(rows, site, since);
      }
    }
  }

  /** What a failed run of a site has to meet for healing to make a row. */
  ghost predicate Healable(pf: Platform, s: State, site: string, codes: seq<string>, now: int, heal: Healing) {
    && Classify(codes) in {SchemaChange, EmptyResults}
    && HasHistory(s.runs, site)
    && AtRest(s.rows, site, now - 24 * 3600)
    && heal.enabled && heal.sample.Some?
    && Propose(pf, s.disk.texts, site, heal.sample.value, heal.reply).Usable?
  }

  function HealedRow(site: string, run: RunInput): Row
    requires run.heal.reply.Candidate?
  {
    Row(run.runId, site, run.heal.reply.ops, Pending, run.now, run.now + 24 * 3600, None, None, None, run.heal.card)
  }

  lemma MadeRow(s: State, runId: string, site: string, ops: seq<PatchOp>, now: int, base: Tree, card: Option<Thread>)
    ensures Attach(Create(s, runId, site, ops, now, base), s.nextId, card).rows ==
            s.rows[s.nextId := Row(runId, site, ops, Pending, now, now + 24 * 3600, None, None, None, card)]
  {
  }

  lemma MayHealMeans(s: State, site: string, category: Category, now: int, heal: Healing)
    ensures MayHeal(s, site, category, now, heal) <==>
            && category in {SchemaChange, EmptyResults} && HasHistory(s.runs, site)
            && AtRest(s.rows, site, now - 24 * 3600) && heal.enabled && heal.sample.Some?
  {
    AtRestMeans(s.rows, site, now - 24 * 3600);
  }

  lemma MaybeHealRows(pf: Platform, s: State, site: string, codes: seq<string>, run: RunInput)
    ensures var t := MaybeHeal(pf, s, site, run.runId, codes, run.now, run.heal);
            if Healable(pf, s, site, codes, run.now, run.heal) then t.rows == s.rows[s.nextId := HealedRow(site, run)]
            else t == s
  {
    hide Propose, HasHistory, AtRest, Classify;
    MayHealMeans(s, site, Classify(codes), run.now, run.heal);
    var t := MaybeHeal(pf, s, site, run.runId, codes, run.now, run.heal);
    if Healable(pf, s, site, codes, run.now, run.heal) {
      var base := Propose(pf, s.disk.texts, site, run.heal.sample.value, run.heal.reply).base;
      MadeRow(s, run.runId, site, run.heal.reply.ops, run.now, base, run.heal.card);
      assert t == Attach(Create(s, run.runId, site, run.heal.reply.ops, run.now, base), s.nextId, run.heal.card);
    } else {
      assert t == s;
    }
  }

  /**
   A collect run makes at most one row, and makes it exactly when the run is new, failed
   without an exception on a healable issue, the site has succeeded before, has no pending
   row and no row rejected in the last 24 hours, and the LLM's patch holds up in the dry run.
   The row is pending, belongs to the run and the site, and expires 24 hours later.
  */
  lemma CollectHealsExactlyWhen(pf: Platform, s: State, site: string, run: RunInput)
    ensures var tally := TallyOf(run.readings);
            RunSite(pf, s, site, run).0.rows ==
            if run.runId !in RunIds(s.runs) && !tally.broke && tally.failed
              && Healable(pf, s, site, tally.codes, run.now, run.heal)
            then s.rows[s.nextId := HealedRow(site, run)]
            else s.rows
  {
    var tally := TallyOf(run.readings);
    if run.runId !in RunIds(s.runs) && !tally.broke && tally.failed {
      var first := Run(run.runId, site, run.now, None, Running, NO_STATS);
      var finished := s.(runs := Finished(s.runs + [first], run.runId, Failed, tally.total, run.now));
      FailedRunIsNoHistory(s.runs, first, tally.total, run.now, site);
      assert Healable(pf, finished, site, tally.codes, run.now, run.heal)
          == Healable(pf, s, site, tally.codes, run.now, run.heal);
      MaybeHealRows(pf, finished, site, tally.codes, run);
      FailedRunIsHealed(pf, s, site, run, finished);
    }
  }

  lemma FailedRunIsHealed(pf: Platform, s: State, site: string, run: RunInput, finished: State)
    requires var t := TallyOf(run.readings);
             && run.runId !in RunIds(s.runs) && !t.broke && t.failed
             && finished == s.(runs := Finished(s.runs + [Run(run.runId, site, run.now, None, Running, NO_STATS)],
                                                run.runId, Failed, t.total, run.now))
    ensures RunSite(pf, s, site, run).0 ==
            MaybeHeal(pf, finished, site, run.runId, TallyOf(run.readings).codes, run.now, run.heal)
  {
  }

  lemma FailedRunIsNoHistory(runs: seq<Run>, first: Run, stats: Stats, now: int, site: string)
    requires first.runId !in RunIds(runs)
    ensures HasHistory(Finished(runs + [first], first.runId, Failed, stats, now), site) <==> HasHistory(runs, site)
  {
    var after := Finished(runs + [first], first.runId, Failed, stats, now);
    assert forall i | 0 <= i < |runs| :: runs[i].runId in RunIds(runs) && after[i] == runs[i];
    assert after == runs + [after[|runs|]];
  }

  /** After a rejection, whatever happens next, no collect run of that site makes a row for 24 hours. */
  lemma RejectionQuietsHealing(pf: Platform, s: State, id: int, who: string, reason: string, now: int, ops: seq<Op>,
                               run: RunInput)
    requires Sound(pf, s) && OnePending(s.rows) && IsPending(s.rows, id)
    requires run.now <= now + 24 * 3600
    ensures var t := After(pf, Reject(s, id, who, reason, now).0, ops);
            RunSite(pf, t, s.rows[id].site, run).0.rows == t.rows
  {
    var after := Reject(s, id, who, reason, now).0;
    assert after == Step(pf, s, RejectOp(id, who, reason, now)).0;
    StepKeeps(pf, s, RejectOp(id, who, reason, now));
    DecidedForever(pf, after, ops);
    var t := After(pf, after, ops);
    StaysRejected(s, id, who, reason, now, t, run.now);
    CollectHealsExactlyWhen(pf, t, s.rows[id].site, run);
  }

  lemma StaysRejected(s: State, id: int, who: string, reason: string, now: int, t: State, later: int)
    requires IsPending(s.rows, id) && Evolves(Reject(s, id, who, reason, now).0, t) && later <= now + 24 * 3600
    ensures !AtRest(t.rows, s.rows[id].site, later - 24 * 3600)
  {
    assert t.rows[id] == Reject(s, id, who, reason, now).0.rows[id];
  }

  /** The row was rejected at the given time, and its site has no pending row. */
  ghost predicate Quieted(rows: Rows, id: int, now: int) {
    && id in rows && rows[id].status == Rejected && rows[id].decidedAt == Some(now)
    && forall other | other in rows && rows[other].site == rows[id].site :: rows[other].status != Pending
  }

  /** The clock of a collect run or a rerun; other operations never start a healing. */
  predicate NotAfter(op: Op, until: int) {
    match op
    case Collect(_, run) => run.now <= until
    case ApproveOp(_, _, _, rerun) => rerun.now <= until
    case _ => true
  }

  /** The rows an operation makes are of the site it runs, or of a row that was pending. */
  lemma NewRowsSite(pf: Platform, s: State, op: Op, id: int)
    requires Sound(pf, s) && id !in s.rows
    ensures var rows := Step(pf, s, op).0.rows;
            id in rows ==>
              match op
              case Collect(site, run) => rows[id].site == site && AtRest(s.rows, site, run.now - 24 * 3600)
              case ApproveOp(a, _, _, _) => IsPending(s.rows, a) && rows[id].site == s.rows[a].site
              case RegenerateOp(prev, _, _, _) => IsPending(s.rows, prev) && rows[id].site == s.rows[prev].site
              case _ => false
  {
    if id !in Step(pf, s, op).0.rows {
      return;
    }
    match op
    case Collect(site, run) => CollectHealsExactlyWhen(pf, s, site, run);
    case ApproveOp(a, who, now, rerun) =>
      var approved := Decide(s, a, Approved, who, None, now).value;
      assert Step(pf, s, op) == ApplyApproved(pf, approved, a, now, rerun);
      ApplyApprovedNewRow(pf, approved, a, now, rerun, id);
    case RegenerateOp(prev, who, now, heal) => RegenerateEnds(pf, s, prev, who, now, heal);
    case _ =>
  }

  lemma ApplyApprovedNewRow(pf: Platform, s: State, a: int, now: int, rerun: RunInput, id: int)
    requires a in s.rows && id !in s.rows
    ensures var t := ApplyApproved(pf, s, a, now, rerun).0; id in t.rows ==> t.rows[id].site == s.rows[a].site
  {
    if id !in ApplyApproved(pf, s, a, now, rerun).0.rows {
      return;
    }
    var site := s.rows[a].site;
    var w := WritePatch(pf, s, a, PatchedDocument(pf, s.disk.texts, site, s.rows[a].ops).value, now);
    var (ran, result) := RerunSite(pf, w, site, rerun);
    assert ApplyApproved(pf, s, a, now, rerun) == AfterRerun(ran, a, site, now, result);
    assert ran == RunSite(pf, w, site, rerun).0;
    CollectHealsExactlyWhen(pf, w, site, rerun);
  }

  lemma StepStaysQuiet(pf: Platform, s: State, op: Op, id: int, now: int)
    requires Sound(pf, s) && OnePending(s.rows) && Quieted(s.rows, id, now) && NotAfter(op, now + 24 * 3600)
    ensures Quieted(Step(pf, s, op).0.rows, id, now)
  {
    var t := Step(pf, s, op).0;
    StepKeeps(pf, s, op);
    forall other | other in t.rows && t.rows[other].site == t.rows[id].site
      ensures t.rows[other].status != Pending
    {
      if other !in s.rows {
        NewRowsSite(pf, s, op, other);
      }
    }
  }

  /**
   For 24 hours after a rejection, whatever operations follow, healing nested in reruns
   included, the site has no pending row.
  */
  lemma {:induction false} RejectionQuietsSite(pf: Platform, s: State, id: int, who: string, reason: string, now: int,
                                               ops: seq<Op>)
    requires Sound(pf, s) && OnePending(s.rows) && IsPending(s.rows, id)
    requires forall op | op in ops :: NotAfter(op, now + 24 * 3600)
    ensures Quieted(After(pf, Reject(s, id, who, reason, now).0, ops).rows, id, now)
    decreases |ops|
  {
    var after := Reject(s, id, who, reason, now).0;
    assert after == Step(pf, s, RejectOp(id, who, reason, now)).0;
    StepKeeps(pf, s, RejectOp(id, who, reason, now));
    if ops != [] {
      var init, op := ops[..|ops| - 1], ops[|ops| - 1];
      assert op in ops && forall o | o in init :: o in ops;
      RejectionQuietsSite(pf, s, id, who, reason, now, init);
      DecidedForever(pf, after, init);
      StepStaysQuiet(pf, After(pf, after, init), op, id, now);
    }
  }

  // ---------- regenerate ----------

  lemma SupplantRows(s: State, id: int, ops: seq<PatchOp>, who: string, now: int, base: Tree, card: Option<Thread>)
    requires IsPending(s.rows, id) && s.nextId !in s.rows
    ensures var (t, r) := Supplant(s, id, ops, who, now, base, card);
            && r == Regenerated(s.nextId)
            && t.rows == s.rows[id := DecidedRow(s.rows[id], Superseded, who, now, Some(FollowedBy(s.nextId)))]
                               [s.nextId := Row(s.rows[id].runId, s.rows[id].site, ops, Pending, now, now + 24 * 3600,
                                               None, None, None, card)]
  {
  }

  /**
   Regenerating either changes nothing, or supersedes the pending row it was asked for; and
   then either nothing takes its place and it raises, or one new pending row of the same run
   and site does. It changes something only for a run that has fewer than three rows.
  */
  lemma RegenerateEnds(pf: Platform, s: State, id: int, who: string, now: int, heal: Healing)
    requires s.nextId !in s.rows
    ensures var (t, r) := Regenerate(pf, s, id, who, now, heal);
            if t == s then r.Threw?
            else
              && IsPending(s.rows, id) && |OfRun(s.rows, s.rows[id].runId)| < 3
              && if r.Threw? then
                   && r == Threw(NotEligible)
                   && t.rows == s.rows[id := DecidedRow(s.rows[id], Superseded, who, now, Some(Followed))]
                 else
                   && r == Regenerated(s.nextId) && heal.reply.Candidate?
                   && t.rows == s.rows[id := DecidedRow(s.rows[id], Superseded, who, now, Some(FollowedBy(s.nextId)))]
                                      [s.nextId := Row(s.rows[id].runId, s.rows[id].site, heal.reply.ops, Pending,
                                        now, now + 24 * 3600,
                                                       None, None, None, heal.card)]
  {
    if IsPending(s.rows, id) && heal.sample.Some? {
      var p := Propose(pf, s.disk.texts, s.rows[id].site, heal.sample.value, heal.reply);
      if p.Usable? {
        SupplantRows(s, id, heal.reply.ops, who, now, p.base, heal.card);
      }
    }
  }
}
