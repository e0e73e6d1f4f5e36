/**
 The runner: the procedures of the protocol step by step on the tables, the audit log and
 the files, each proved to do what its function in Workflow says.
*/
module Runner {
  import opened Results
  import opened Trees
  import opened Patch
  import opened DryRun
  import opened RunLog
  import opened Approvals
  import opened SitePatching
  import opened Workflow

  class SiteRunner {
    const pf: Platform
    const repo: ApprovalRepository
    const table: RunTable
    const store: ConfigStore
    var audit: seq<Event>
    ghost var madeOn: map<int, Tree>

    ghost predicate Valid()
      reads this, repo, table
    {
      repo.Valid() && table.Valid()
    }

    ghost function Snapshot(): State
      reads this, repo, table, store
    {
      State(repo.rows, repo.nextId, audit, store.Contents(), table.runs, madeOn)
    }

    constructor (pf: Platform, texts: map<string, string>)
      ensures Valid() && Snapshot() == Fresh(texts)
      ensures fresh(repo) && fresh(table) && fresh(store) && this.pf == pf
    {
      this.pf := pf;
      repo := new ApprovalRepository();
      table := new RunTable();
      store := new ConfigStore(texts);
      audit, madeOn := [], map[];
    }

    // ---------- app/approval/state_machine.py ----------

    method CreateApproval(runId: string, site: string, ops: seq<PatchOp>, now: int, ghost base: Tree) returns (id: int)
      requires Valid()
      modifies this`audit, this`madeOn, repo
      ensures Valid() && id == old(repo.nextId) && Snapshot() == Create(old(Snapshot()), runId, site, ops, now, base)
    {
      id := repo.Insert(runId, site, ops, now, now + EXPIRY);
      audit := audit + [ApprovalCreated(id, runId, site)];
      madeOn := madeOn[id := base];
    }

    method DecideRow(id: int, status: Status, who: string, reason: Option<Reason>, now: int) returns (e: Option<Exn>)
      requires Valid()
      modifies this`audit, repo`rows
      ensures Valid()
      ensures match Decide(old(Snapshot()), id, status, who, reason, now)
              case Failure(x) => e == Some(x) && Snapshot() == old(Snapshot())
              case Success(t) => e == None && Snapshot() == t
    {
      var current := repo.Get(id);
      if current.None? {
        return Some(LookupErr);
      }
      if current.value.status != Pending {
        return Some(AlreadyDecided);
      }
      var changed := repo.UpdateStatus(id, status, now, who, reason);
      if changed == 0 {
        return Some(AlreadyDecided);
      }
      audit := audit + [ApprovalDecided(id, status, who)];
      e := None;
    }

    method ExpireDueRows(now: int) returns (ids: seq<int>)
      requires Valid()
      modifies this`audit, repo`rows
      ensures Valid() && Snapshot() == ExpireDue(old(Snapshot()), now)
      ensures ids == DueIds(old(repo.rows), old(repo.nextId), now)
    {
      ids := repo.ExpirePendingUntil(now);
      LogExpired(ids);
    }

    method LogExpired(ids: seq<int>)
      modifies this`audit
      ensures audit == old(audit) + ExpiredEvents(ids)
    {
      for i := 0 to |ids|
        invariant audit == old(audit) + ExpiredEvents(ids[..i])
      {
        assert ids[..i + 1][..i] == ids[..i];
        audit := audit + [ApprovalExpired(ids[i])];
      }
      assert ids[..|ids|] == ids;
    }

    method AttachCard(id: int, card: Option<Thread>)
      requires Valid()
      modifies repo`rows
      ensures Valid() && Snapshot() == Attach(old(Snapshot()), id, card)
    {
      if card.Some? {
        repo.AttachSlack(id, card.value);
      }
    }

    // ---------- app/runner/healing_flow.py ----------

    /** From the site's file and the LLM's reply to a patch worth a row. */
    method ProposePatch(site: string, samples: seq<Tree>, reply: Reply) returns (p: Proposal)
      ensures p == Propose(pf, store.texts, site, samples, reply)
    {
      if site !in store.texts {
        return Unreadable;
      }
      if reply.Refused? {
        return NoReply;
      }
      if reply.RaisedLookup? {
        return NoChoice;
      }
      if reply.ops == [] {
        return Infeasible;
      }
      var loaded := pf.load(store.texts[site]);
      if loaded.None? {
        return Unreadable;
      }
      var base := OrEmpty(loaded.value);
      var r := RunDryRun(pf.show, pf.validate, site, base, reply.ops, samples);
      match r
      case Raised(c) => p := DryRunRaised(c);
      case PatchApplyFailed(_) => p := Unusable;
      case PatchInvalid => p := Unusable;
      case Compared(_, _, _, _, _, _) => p := Usable(base);
    }

    method MaybeTriggerHealing(site: string, runId: string, codes: seq<string>, now: int, heal: Healing)
      requires Valid()
      modifies this`audit, this`madeOn, repo
      ensures Valid() && Snapshot() == MaybeHeal(pf, old(Snapshot()), site, runId, codes, now, heal)
    {
      var category := Classify(codes);
      if category != SchemaChange && category != EmptyResults {
        return;
      }
      var history := table.HasSuccessfulHistory(site);
      if !history {
        return;
      }
      var pending := repo.ListPending(site);
      if pending != {} {
        return;
      }
      var rejected := repo.ListRecentRejected(site, now - REJECT_GUARD);
      if rejected != {} {
        return;
      }
      if heal.sample.None? || !heal.enabled {
        return;
      }
      var p := ProposePatch(site, heal.sample.value, heal.reply);
      if p.Usable? {
        var id := CreateApproval(runId, site, heal.reply.ops, now, p.base);
        AttachCard(id, heal.card);
      }
    }

    method RegenerateApproval(id: int, who: string, now: int, heal: Healing) returns (r: Outcome)
      requires Valid()
      modifies this`audit, this`madeOn, repo
      ensures Valid() && (Snapshot(), r) == Regenerate(pf, old(Snapshot()), id, who, now, heal)
    {
      var prev := repo.Get(id);
      if prev.None? || prev.value.status != Pending {
        return Threw(NotEligible);
      }
      var made := repo.CountForRun(prev.value.runId);
      if made >= REGENERATE_LIMIT_PER_RUN {
        return Threw(LimitReached);
      }
      if !heal.enabled {
        return Threw(OtherError);
      }
      if heal.sample.None? {
        return Threw(NotEligible);
      }
      var p := ProposePatch(prev.value.site, heal.sample.value, heal.reply);
      match p
      case Unreadable => r := Threw(OtherError);
      case NoReply => r := Threw(OtherError);
      case NoChoice => r := Threw(LookupErr);
      case DryRunRaised(c) => r := Threw(if c == NoCollector then LookupErr else OtherError);
      case Infeasible => r := SupersedeAndRaise(id, who, now);
      case Unusable => r := SupersedeAndRaise(id, who, now);
      case Usable(base) =>
        var newId := CreateApproval(prev.value.runId, prev.value.site, heal.reply.ops, now, base);
        var e := DecideRow(id, Superseded, who, Some(FollowedBy(newId)), now);
        if e.Some? {
          return Threw(e.value);
        }
        AttachCard(newId, heal.card);
        r := Regenerated(newId);
    }

    method SupersedeAndRaise(id: int, who: string, now: int) returns (r: Outcome)
      requires Valid()
      modifies this`audit, repo`rows
      ensures Valid() && (Snapshot(), r) == SupersedeOnly(old(Snapshot()), id, who, now)
    {
      var e := DecideRow(id, Superseded, who, Some(Followed), now);
      r := Threw(if e.Some? then e.value else NotEligible);
    }

    // ---------- _run_site and the rerun callback of app/runner/cli.py ----------

    /** The loop over the collectors; it ends at the first exception. */
    method RunCollectors(readings: seq<Reading>) returns (t: Tally)
      ensures t == TallyOf(readings)
    {
      t := Tally(NO_STATS, false, [], false);
      for i := 0 to |readings|
        invariant t == TallyOf(readings[..i]) && !t.broke
      {
        assert readings[..i + 1][..i] == readings[..i];
        match readings[i]
        case Broke =>
          t := t.(broke := true);
          BrokenStays(readings, i + 1);
          return;
        case Read(records, stats, codes) =>
          t := t.(codes := t.codes + codes);
          if records > 0 {
            t := t.(total := t.total.Plus(stats));
          }
          if records <= 0 && codes != [] {
            t := t.(failed := true);
          }
      }
      assert readings[..|readings|] == readings;
    }

    method RunSite(site: string, run: RunInput) returns (stats: Option<Stats>)
      requires Valid()
      modifies this`audit, this`madeOn, repo, table
      ensures Valid() && (Snapshot(), stats) == Workflow.RunSite(pf, old(Snapshot()), site, run)
    {
      var started := table.StartRun(site, run.runId, run.now);
      if !started {
        return None;
      }
      var t := RunCollectors(run.readings);
      table.FinishRun(run.runId, if t.broke || t.failed then Failed else Succeeded, t.total, run.now);
      if t.broke {
        return None;
      }
      if t.failed {
        MaybeTriggerHealing(site, run.runId, t.codes, run.now, run.heal);
      }
      stats := Some(t.total);
    }

    method RerunSite(site: string, run: RunInput) returns (r: Rerun)
      requires Valid()
      modifies this`audit, this`madeOn, repo, table
      ensures Valid() && (Snapshot(), r) == Workflow.RerunSite(pf, old(Snapshot()), site, run)
    {
      var sites := store.LoadAllSites(pf);
      if sites.None? {
        return RerunRaised;
      }
      if site !in sites.value {
        return RerunEnded(false);
      }
      var stats := RunSite(site, run);
      r := RerunEnded(stats.Some? && (stats.value.inserted > 0 || stats.value.updated > 0 || stats.value.same > 0));
    }

    // ---------- app/patching/decision.py ----------

    method ApproveAndApply(id: int, who: string, now: int, rerun: RunInput) returns (r: Outcome)
      requires Valid()
      modifies this`audit, this`madeOn, repo, table, store
      ensures Valid() && (Snapshot(), r) == Approve(pf, old(Snapshot()), id, who, now, rerun)
    {
      var row := repo.Get(id);
      if row.None? {
        return Threw(LookupErr);
      }
      if row.value.status != Pending {
        return Threw(NotPending);
      }
      var e := DecideRow(id, Approved, who, None, now);
      if e.Some? {
        return Threw(e.value);
      }
      r := ApplyRow(id, row.value.site, row.value.ops, now, rerun);
    }

    method ApplyRow(id: int, site: string, ops: seq<PatchOp>, now: int, rerun: RunInput) returns (r: Outcome)
      requires Valid() && id in repo.rows && repo.rows[id].site == site && repo.rows[id].ops == ops
      modifies this`audit, this`madeOn, repo, table, store
      ensures Valid() && (Snapshot(), r) == ApplyApproved(pf, old(Snapshot()), id, now, rerun)
    {
      var applied := store.ApplyPatchToFile(pf, site, ops, now);
      if applied.Failure? {
        if applied.error == FileMissing || applied.error == NotYaml {
          return Threw(OtherError);
        }
        audit := audit + [ApplyFailed(id, site)];
        return NotApplied;
      }
      audit := audit + [PatchApplied(id, site)];
      var result := RerunSite(site, rerun);
      if result.RerunRaised? {
        return Threw(RerunCrash);
      }
      if result.success {
        return Applied(true);
      }
      var restored := store.RollbackFromBackup(site, applied.value);
      if !restored {
        return Threw(OtherError);
      }
      audit := audit + [PatchRolledBack(id, site)];
      r := Applied(false);
    }

    method RejectDecision(id: int, who: string, reason: string, now: int) returns (r: Outcome)
      requires Valid()
      modifies this`audit, repo`rows
      ensures Valid() && (Snapshot(), r) == Reject(old(Snapshot()), id, who, reason, now)
    {
      var row := repo.Get(id);
      if row.None? {
        return Threw(LookupErr);
      }
      if row.value.status != Pending {
        return Threw(NotPending);
      }
      var e := DecideRow(id, Rejected, who, Some(Given(reason)), now);
      r := if e.Some? then Threw(e.value) else RejectDone;
    }
  }

  /** Readings after an exception are never looked at. */
  lemma {:induction false} BrokenStays(readings: seq<Reading>, n: int)
    requires 0 <= n <= |readings| && TallyOf(readings[..n]).broke
    ensures TallyOf(readings) == TallyOf(readings[..n])
    decreases |readings|
  {
    if n == |readings| {
      assert readings[..n] == readings;
    } else {
      var init := readings[..|readings| - 1];
      assert init[..n] == readings[..n];
      BrokenStays(init, n);
    }
  }
}
