/**
 How approving, regenerating and collecting end (approve_and_apply in app/patching/decision.py,
 regenerate_approval and maybe_trigger_healing in app/runner/healing_flow.py), and when: said by
 the rows and runs of the tables, the texts of the files, the patch and what collectors read.
*/
module Endings {
  import opened Results
  import opened Trees
  import opened Patch
  import opened RunLog
  import opened Approvals
  import opened SitePatching
  import opened Workflow
  import opened Soundness
  import opened Ledger
  import opened Predictions

  /** The texts once the patch has been written to the site's file. */
  function Written(pf: Platform, texts: map<string, string>, site: string, base: Tree, ops: seq<PatchOp>):
    map<string, string>
    requires ApplyPatch(base, ops).Success?
  {
    texts[site := pf.dump(ApplyPatch(base, ops).value)]
  }

  /** All configs load, some is for the site, the run id is new, no collector raises, and some stores a record. */
  ghost predicate RerunWorks(pf: Platform, s: State, texts: map<string, string>, site: string, run: RunInput) {
    && AllLoad(pf, texts) && Configured(pf, texts, site)
    && (forall r | r in s.runs :: r.runId != run.runId)
    && Broke !in run.readings
    && exists r | r in run.readings :: r.Read? && r.records > 0 && r.stats.Total() > 0
  }

  /** The log has grown, and only by the creation of rows. */
  predicate OnlyCreations(audit: seq<Event>, more: seq<Event>) {
    audit <= more && forall i | |audit| <= i < |more| :: more[i].ApprovalCreated?
  }

  /**
   How the approval of a pending row ends. If the site has no file, or one that is not YAML, the
   call raises; if the patch does not fit the document, it is not applied. Otherwise it is
   written and the site is run again. If some config does not load then, the call raises and
   the patch stays; if the rerun works, the patch stays; and if it does not, the old text
   comes back. The audit log says which it was; the rerun's healing can add the rows it makes.
  */
  lemma ApproveEnds(pf: Platform, s: State, id: int, who: string, now: int, rerun: RunInput)
    requires IsPending(s.rows, id) && CountsUp(rerun.readings)
    ensures var (t, r) := Approve(pf, s, id, who, now, rerun);
            var texts, site, ops := s.disk.texts, s.rows[id].site, s.rows[id].ops;
            var decided := s.audit + [ApprovalDecided(id, Approved, who)];
            if site !in texts || pf.load(texts[site]).None? then
              r == Threw(OtherError) && t.disk == s.disk && t.audit == decided
            else
              var base := OrEmpty(pf.load(texts[site]).value);
              if ApplyPatch(base, ops).Failure? || pf.validate(ApplyPatch(base, ops).value).None? then
                r == NotApplied && t.disk == s.disk && t.audit == decided + [ApplyFailed(id, site)]
              else
                var written, applied := Written(pf, texts, site, base, ops), decided + [PatchApplied(id, site)];
                if !AllLoad(pf, written) then
                  r == Threw(RerunCrash) && t.disk.texts == written && t.audit == applied
                else if RerunWorks(pf, s, written, site, rerun) then
                  r == Applied(true) && t.disk.texts == written && OnlyCreations(applied, t.audit)
                else
                  && r == Applied(false) && t.disk.texts == texts
                  && t.audit != [] && t.audit[|t.audit| - 1] == PatchRolledBack(id, site)
                  && OnlyCreations(applied, t.audit[..|t.audit| - 1])
  {
    var site, approved := s.rows[id].site, Decide(s, id, Approved, who, None, now).value;
    var doc := PatchedDocument(pf, s.disk.texts, site, s.rows[id].ops);
    assert Approve(pf, s, id, who, now, rerun) == ApplyApproved(pf, approved, id, now, rerun);
    if doc.Success? {
      WrittenEnds(pf, approved, id, doc.value, now, rerun);
    }
  }

  lemma WrittenEnds(pf: Platform, s: State, id: int, doc: Tree, now: int, rerun: RunInput)
    requires id in s.rows && CountsUp(rerun.readings)
    requires PatchedDocument(pf, s.disk.texts, s.rows[id].site, s.rows[id].ops) == Success(doc)
    ensures var (t, r) := ApplyApproved(pf, s, id, now, rerun);
            var site := s.rows[id].site;
            var written, applied := s.disk.texts[site := pf.dump(doc)], s.audit + [PatchApplied(id, site)];
            if !AllLoad(pf, written) then
              r == Threw(RerunCrash) && t.disk.texts == written && t.audit == applied
            else if RerunWorks(pf, s, written, site, rerun) then
              r == Applied(true) && t.disk.texts == written && OnlyCreations(applied, t.audit)
            else
              && r == Applied(false) && t.disk.texts == s.disk.texts
              && t.audit != [] && t.audit[|t.audit| - 1] == PatchRolledBack(id, site)
              && OnlyCreations(applied, t.audit[..|t.audit| - 1])
  {
    var site := s.rows[id].site;
    assert site in s.disk.texts;
    var w := WritePatch(pf, s, id, doc, now);
    hide AllLoad, Configured, RunSite, PatchedDocument;
    RerunKeepsDisk(pf, w, site, rerun);
    RerunSucceedsExactlyWhen(pf, w, site, rerun);
    RerunAudit(pf, w, site, rerun);
    var (ran, result) := RerunSite(pf, w, site, rerun);
    assert ApplyApproved(pf, s, id, now, rerun) == AfterRerun(ran, id, site, now, result);
    RollbackRestores(pf, s.disk, site, doc, now);
    assert RerunWorks(pf, s, w.disk.texts, site, rerun) <==> result == RerunEnded(true) by {
      assert forall r :: r in rerun.readings && Stores(r) <==>
        r in rerun.readings && r.Read? && r.records > 0 && r.stats.Total() > 0;
    }
  }

  /** A rerun adds the creations of its healing to the audit log, and nothing if it raises. */
  lemma RerunAudit(pf: Platform, s: State, site: string, run: RunInput)
    ensures var (t, r) := RerunSite(pf, s, site, run);
            OnlyCreations(s.audit, t.audit) && (r == RerunRaised ==> t == s)
  {
  }

  // ---------- regenerating ----------

  /** The document is a valid config with a `jobs` collector that calls an API. */
  predicate HasJobs(pf: Platform, doc: Tree) {
    && pf.validate(doc).Some? && "jobs" in pf.validate(doc).value.collectors
    && pf.validate(doc).value.collectors["jobs"].kind.ApiJobs?
  }

  /** And that collector has a request and a mapping. */
  predicate CanCollect(pf: Platform, doc: Tree) {
    && HasJobs(pf, doc)
    && var jobs := pf.validate(doc).value.collectors["jobs"]; jobs.hasRequest && jobs.mapping.Some?
  }

  /** The proposal can be tried out: it applies, and both documents have a collector that can run. */
  predicate TriedOut(pf: Platform, text: string, ops: seq<PatchOp>) {
    && ops != [] && pf.load(text).Some?
    && var base := OrEmpty(pf.load(text).value);
       CanCollect(pf, base) && ApplyPatch(base, ops).Success? && CanCollect(pf, ApplyPatch(base, ops).value)
  }

  /** There is nothing to try out, or it does not apply or does not give a valid config. */
  predicate NothingUsable(pf: Platform, text: string, ops: seq<PatchOp>) {
    || ops == []
    || (&& pf.load(text).Some?
        && var base := OrEmpty(pf.load(text).value);
           && HasJobs(pf, base)
           && (ApplyPatch(base, ops).Failure? || pf.validate(ApplyPatch(base, ops).value).None?))
  }

  lemma ProposeEnds(pf: Platform, texts: map<string, string>, site: string, samples: seq<Tree>, reply: Reply)
    ensures var p := Propose(pf, texts, site, samples, reply);
            && (p.Usable? <==> site in texts && reply.Candidate? && TriedOut(pf, texts[site], reply.ops))
            && (p.Infeasible? || p.Unusable? <==>
                site in texts && reply.Candidate? && NothingUsable(pf, texts[site], reply.ops))
  {
    hide ApplyPatch;
  }

  /** The run has room, the LLM is configured and answers with a proposal, and sample and file are there. */
  predicate Asked(s: State, id: int, heal: Healing)
    requires id in s.rows
  {
    && |OfRun(s.rows, s.rows[id].runId)| < 3 && heal.enabled && heal.sample.Some?
    && s.rows[id].site in s.disk.texts && heal.reply.Candidate?
  }

  /**
   A regenerate of a pending row makes a successor exactly when the proposal can be tried out,
   and supersedes the row alone exactly when the proposal has nothing usable. In every other
   case it raises and changes nothing.
  */
  lemma RegenerateEndsWhen(pf: Platform, s: State, id: int, who: string, now: int, heal: Healing)
    requires IsPending(s.rows, id) && s.nextId !in s.rows
    ensures var (t, r) := Regenerate(pf, s, id, who, now, heal);
            var made := Asked(s, id, heal) && TriedOut(pf, s.disk.texts[s.rows[id].site], heal.reply.ops);
            var alone := Asked(s, id, heal) && NothingUsable(pf, s.disk.texts[s.rows[id].site], heal.reply.ops);
            && (r.Regenerated? <==> made)
            && (r.Threw? && !IsPending(t.rows, id) <==> alone)
            && (!made && !alone ==> r.Threw? && t == s)
  {
    hide Propose, TriedOut, NothingUsable;
    if heal.sample.Some? {
      ProposeEnds(pf, s.disk.texts, s.rows[id].site, heal.sample.value, heal.reply);
    }
  }

  // ---------- healing ----------

  /** Some collector of the run reported the issue. */
  predicate Reported(readings: seq<Reading>, code: string) {
    exists r | r in readings :: r.Read? && code in r.codes
  }

  /** The run is new, no collector raises, and one has issues and no record. */
  predicate RunFails(s: State, run: RunInput) {
    && (forall r | r in s.runs :: r.runId != run.runId)
    && Broke !in run.readings
    && exists r | r in run.readings :: r.Read? && r.records <= 0 && r.codes != []
  }

  /** No fetch failed, and the response changed its shape, or was empty and nothing else. */
  predicate ResponseChanged(readings: seq<Reading>) {
    && !Reported(readings, "fetch_failed")
    && (|| Reported(readings, "items_path_not_list")
        || Reported(readings, "missing_external_id")
        || (&& Reported(readings, "empty_results")
            && !Reported(readings, "missing_required_field") && !Reported(readings, "volume_drop")))
  }

  /** The site has had a good run, has no pending row, and no row rejected in the last day. */
  predicate SiteIsQuiet(s: State, site: string, now: int) {
    && (exists r | r in s.runs :: r.site == site && r.status == Succeeded && r.stats.inserted + r.stats.updated > 0)
    && (forall id | id in s.rows && (site == "" || s.rows[id].site == site) :: s.rows[id].status != Pending)
    && (forall id | id in s.rows && s.rows[id].site == site && s.rows[id].status == Rejected ::
          s.rows[id].decidedAt.None? || s.rows[id].decidedAt.value < now - 86400)
  }

  /**
   A collect run makes a row exactly when it fails on a changed response of a quiet site, and
   what the LLM proposes for the stored sample can be tried out. The row is pending for a day.
  */
  lemma CollectHealsWhen(pf: Platform, s: State, site: string, run: RunInput)
    ensures var heal := run.heal;
            RunSite(pf, s, site, run).0.rows ==
            if && RunFails(s, run) && ResponseChanged(run.readings) && SiteIsQuiet(s, site, run.now)
               && heal.enabled && heal.sample.Some? && heal.reply.Candidate?
               && site in s.disk.texts && TriedOut(pf, s.disk.texts[site], heal.reply.ops)
            then s.rows[s.nextId := Row(run.runId, site, heal.reply.ops, Pending, run.now, run.now + 86400,
                                        None, None, None, heal.card)]
            else s.rows
  {
    hide RunSite, Propose, TriedOut, Classify, TallyOf, ResponseChanged, SiteIsQuiet, AtRest, HasHistory;
    var heal, tally := run.heal, TallyOf(run.readings);
    CollectHealsExactlyWhen(pf, s, site, run);
    FailsMeans(s, run);
    if Broke !in run.readings {
      ChangedMeans(run.readings);
    }
    hide RunFails;
    QuietMeans(s, site, run.now);
    if heal.sample.Some? {
      ProposeEnds(pf, s.disk.texts, site, heal.sample.value, heal.reply);
    }
  }

  lemma FailsMeans(s: State, run: RunInput)
    ensures var tally := TallyOf(run.readings);
            && (RunFails(s, run) <==> run.runId !in RunIds(s.runs) && !tally.broke && tally.failed)
            && (tally.broke <==> Broke in run.readings)
  {
    TallyMeans(run.readings);
  }

  lemma ChangedMeans(readings: seq<Reading>)
    requires Broke !in readings
    ensures ResponseChanged(readings) <==> Classify(TallyOf(readings).codes) in {SchemaChange, EmptyResults}
  {
    hide Classify;
    TallyMeans(readings);
    HealableWhen(TallyOf(readings).codes);
  }

  lemma QuietMeans(s: State, site: string, now: int)
    ensures SiteIsQuiet(s, site, now) <==> HasHistory(s.runs, site) && AtRest(s.rows, site, now - 24 * 3600)
  {
  }
}
