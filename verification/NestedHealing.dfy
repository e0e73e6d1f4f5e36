/**
 Where the dry run's promise ends. The rerun of an approval sees the patched file, so a
 healing inside it tries its patch on the patched document; when the rerun then fails, that
 document is rolled back under the row the healing made.
*/
module NestedHealing {
  import opened Results
  import opened Trees
  import opened Patch
  import opened Collector
  import opened DryRun
  import opened RunLog
  import opened Approvals
  import opened SitePatching
  import opened Workflow
  import opened Soundness
  import opened Ledger
  import opened Predictions

  /** What the rerun of an approval finds: valid configs, and a failure that healing turns into a row. */
  ghost predicate RerunHeals(pf: Platform, s: State, id: int, now: int, rerun: RunInput)
    requires id in s.rows && PatchedDocument(pf, s.disk.texts, s.rows[id].site, s.rows[id].ops).Success?
  {
    var site, tally := s.rows[id].site, TallyOf(rerun.readings);
    var w := WritePatch(pf, s, id, PatchedDocument(pf, s.disk.texts, site, s.rows[id].ops).value, now);
    && AllLoad(pf, w.disk.texts) && Configured(pf, w.disk.texts, site)
    && rerun.runId !in RunIds(s.runs)
    && tally.total == NO_STATS && tally.failed && !tally.broke
    && Healable(pf, w, site, tally.codes, rerun.now, rerun.heal)
  }

  /**
   Such an approval is rolled back and leaves a new pending row behind, whose patch was tried
   on the patched document that is no longer there.
  */
  lemma RolledBackBase(pf: Platform, s: State, id: int, now: int, rerun: RunInput)
    requires id in s.rows && s.nextId !in s.rows
    requires PatchedDocument(pf, s.disk.texts, s.rows[id].site, s.rows[id].ops).Success?
    requires RerunHeals(pf, s, id, now, rerun)
    ensures var (t, r) := ApplyApproved(pf, s, id, now, rerun);
            r == Applied(false) && t.disk.texts == s.disk.texts
            && t.rows == s.rows[s.nextId := HealedRow(s.rows[id].site, rerun)]
            && (RoundTrips(pf) ==>
                s.nextId in t.madeOn
                && t.madeOn[s.nextId] ==
                   OrEmpty(PatchedDocument(pf, s.disk.texts, s.rows[id].site, s.rows[id].ops).value))
  {
    var site, tally := s.rows[id].site, TallyOf(rerun.readings);
    var w := WritePatch(pf, s, id, PatchedDocument(pf, s.disk.texts, site, s.rows[id].ops).value, now);
    var (ran, result) := RerunSite(pf, w, site, rerun);
    CollectHealsExactlyWhen(pf, w, site, rerun);
    RerunKeepsDisk(pf, w, site, rerun);
    ApplyApprovedTexts(pf, s, id, now, rerun);
    assert ran == RunSite(pf, w, site, rerun).0;
    assert result == RerunEnded(false);
    RunSiteOnBase(pf, w, site, rerun, s.nextId);
    assert ApplyApproved(pf, s, id, now, rerun) == AfterRerun(ran, id, site, now, result);
  }

  // ---------- an instance, from an empty table ----------

  const PLAIN := Dict(map["a" := Null])
  const ADDED := Dict(map["a" := Null, "x" := Str("1")])
  const REPLACED := Dict(map["a" := Null, "x" := Str("2")])
  const ADD_X := [PatchOp(Add, "x", Some("1"))]
  const REPLACE_X := [PatchOp(Replace, "x", Some("2"))]
  const EMPTY: seq<Reading> := [Read(0, NO_STATS, ["empty_results"])]

  /** One collector that stored n new records and had no issue. */
  function Good(n: int): seq<Reading> {
    [Read(n, Stats(n, 0, 0), [])]
  }

  function Suggest(ops: seq<PatchOp>): Healing {
    Healing(Some([]), true, Candidate(ops), None)
  }

  lemma Patches()
    ensures ApplyPatch(PLAIN, ADD_X) == Success(ADDED)
    ensures ApplyPatch(ADDED, REPLACE_X) == Success(REPLACED)
    ensures ApplyPatch(PLAIN, REPLACE_X).Failure?
  {
    assert Parts("x") == PartsFrom("x", "") by {
      assert "" + ['x'] == "x" && "x"[1..] == "";
    }
    assert ADD_X[1..] == [] && REPLACE_X[1..] == [];
    assert ApplyOne(PLAIN, ADD_X[0]) == Success(ADDED) by {
      assert map["a" := Null]["x" := Str("1")] == map["a" := Null, "x" := Str("1")];
    }
    assert ApplyOne(ADDED, REPLACE_X[0]) == Success(REPLACED) by {
      assert map["a" := Null, "x" := Str("1")]["x" := Str("2")] == map["a" := Null, "x" := Str("2")];
    }
  }

  lemma TallyOne(records: int, stats: Stats, codes: seq<string>)
    ensures TallyOf([Read(records, stats, codes)]) ==
            Tally(if records > 0 then stats else NO_STATS, records <= 0 && codes != [], codes, false)
  {
  }

  lemma EmptyIsHealable()
    ensures Classify(["empty_results"]) in {SchemaChange, EmptyResults}
  {
    HealableWhen(["empty_results"]);
  }

  /** The three documents configure the site with a collector that can run. */
  ghost predicate Accepts(pf: Platform, site: string, config: SiteConfig) {
    && pf.validate(PLAIN) == Some(config) && pf.validate(ADDED) == Some(config) && pf.validate(REPLACED) == Some(config)
    && config.site == site
    && COLLECTOR_NAME in config.collectors && Runnable(config.collectors[COLLECTOR_NAME])
  }

  lemma Suggested(pf: Platform, site: string, config: SiteConfig, texts: map<string, string>, base: Tree,
                  ops: seq<PatchOp>)
    requires Accepts(pf, site, config) && site in texts && pf.load(texts[site]) == Some(base)
    requires (base == PLAIN && ops == ADD_X) || (base == ADDED && ops == REPLACE_X)
    ensures Propose(pf, texts, site, [], Candidate(ops)) == Usable(base)
  {
    Patches();
    assert "a" in PLAIN.entries && "a" in ADDED.entries;
    ComparesWhen(pf.show, pf.validate, site, base, ops, []);
  }

  /** A good run of a site, and one that fails and is healed. */
  function TwoRuns(site: string, r1: string, n: int, r2: string): seq<Op> {
    [Collect(site, RunInput(r1, 0, Good(n), Suggest([]))), Collect(site, RunInput(r2, 10, EMPTY, Suggest(ADD_X)))]
  }

  /** After them there is one pending row, whose patch is ADD_X, and the files are as they were. */
  lemma OneRow(pf: Platform, site: string, config: SiteConfig, texts: map<string, string>, r1: string, n: int,
               r2: string)
    requires Accepts(pf, site, config) && site in texts && pf.load(texts[site]) == Some(PLAIN) && r1 != r2 && n > 0
    ensures var s := After(pf, Fresh(texts), TwoRuns(site, r1, n, r2));
            && s.rows == map[1 := Row(r2, site, ADD_X, Pending, 10, 10 + 24 * 3600, None, None, None, None)]
            && s.nextId == 2 && s.disk == Disk(texts, map[])
            && HasHistory(s.runs, site) && RunIds(s.runs) == {r1, r2}
  {
    var s0 := Fresh(texts);
    var run1, run2 := RunInput(r1, 0, Good(n), Suggest([])), RunInput(r2, 10, EMPTY, Suggest(ADD_X));
    var s1 := RunSite(pf, s0, site, run1).0;
    FirstRun(pf, s0, site, r1, n);
    SecondRun(pf, site, config, texts, s1, Run(r1, site, 0, Some(0), Succeeded, Stats(n, 0, 0)), n, r2);
    TwoSteps(pf, s0, site, run1, run2);
  }

  lemma TwoSteps(pf: Platform, s: State, site: string, run1: RunInput, run2: RunInput)
    ensures After(pf, s, [Collect(site, run1), Collect(site, run2)]) ==
            RunSite(pf, RunSite(pf, s, site, run1).0, site, run2).0
  {
    hide RunSite;
    var a, b := Collect(site, run1), Collect(site, run2);
    assert [a, b][..1] == [a] && [a][..0] == [];
    assert After(pf, s, [a]) == RunSite(pf, s, site, run1).0;
  }

  lemma SuccessfulRun(pf: Platform, s: State, site: string, run: RunInput)
    requires run.runId !in RunIds(s.runs) && !TallyOf(run.readings).broke && !TallyOf(run.readings).failed
    ensures RunSite(pf, s, site, run).0 ==
            s.(runs := Finished(s.runs + [Run(run.runId, site, run.now, None, Running, NO_STATS)], run.runId, Succeeded,
                                TallyOf(run.readings).total, run.now))
  {
  }

  lemma FirstRun(pf: Platform, s: State, site: string, r1: string, n: int)
    requires s.runs == [] && n > 0
    ensures RunSite(pf, s, site, RunInput(r1, 0, Good(n), Suggest([]))).0 ==
            s.(runs := [Run(r1, site, 0, Some(0), Succeeded, Stats(n, 0, 0))])
  {
    TallyOne(n, Stats(n, 0, 0), []);
    SuccessfulRun(pf, s, site, RunInput(r1, 0, Good(n), Suggest([])));
    FinishedOne(s.runs, Run(r1, site, 0, None, Running, NO_STATS), Stats(n, 0, 0));
  }

  lemma FinishedOne(runs: seq<Run>, first: Run, stats: Stats)
    requires runs == []
    ensures Finished(runs + [first], first.runId, Succeeded, stats, 0) ==
            [first.(finishedAt := Some(0), status := Succeeded, stats := stats)]
  {
  }

  lemma SecondRun(pf: Platform, site: string, config: SiteConfig, texts: map<string, string>, s1: State, done: Run,
                  n: int, r2: string)
    requires Accepts(pf, site, config) && site in texts && pf.load(texts[site]) == Some(PLAIN) && n > 0
    requires s1 == Fresh(texts).(runs := [done])
    requires done.runId != r2 && done.site == site && done.status == Succeeded && done.stats == Stats(n, 0, 0)
    ensures var s := RunSite(pf, s1, site, RunInput(r2, 10, EMPTY, Suggest(ADD_X))).0;
            && s.rows == map[1 := Row(r2, site, ADD_X, Pending, 10, 10 + 24 * 3600, None, None, None, None)]
            && s.nextId == 2 && s.disk == s1.disk
            && HasHistory(s.runs, site) && RunIds(s.runs) == {done.runId, r2}
  {
    var run := RunInput(r2, 10, EMPTY, Suggest(ADD_X));
    var s := RunSite(pf, s1, site, run).0;
    TallyOne(0, NO_STATS, ["empty_results"]);
    EmptyIsHealable();
    Suggested(pf, site, config, texts, PLAIN, ADD_X);
    assert RunIds(s1.runs) == {done.runId};
    assert done in s1.runs;
    CollectHealsExactlyWhen(pf, s1, site, run);
    var first := Run(r2, site, 10, None, Running, NO_STATS);
    var runs := Finished([done] + [first], r2, Failed, NO_STATS, 10);
    assert s.runs == runs;
    FailedRunIsNoHistory([done], first, NO_STATS, 10, site);
    StartedRunIds([done], first, Failed, NO_STATS, 10);
  }

  /**
   From an empty table and valid configs: a good run, a healed failure, and an approval
   whose rerun fails and is healed leave a pending row, made by the system, that fails to
   apply although nobody has touched the file.
  */
  lemma NestedHealingMisfires(pf: Platform, site: string, config: SiteConfig, text: string, r1: string, n: int,
                              r2: string, r3: string,
                              who: string, now: int, rerun: RunInput)
    requires RoundTrips(pf) && Accepts(pf, site, config) && pf.load(text) == Some(PLAIN)
    requires n > 0 && r1 != r2 && r1 != r3 && r2 != r3
    ensures var s := After(pf, Fresh(map[site := text]),
                           TwoRuns(site, r1, n, r2) +
                           [ApproveOp(1, who, 20, RunInput(r3, 30, EMPTY, Suggest(REPLACE_X)))]);
            && s.disk.texts == map[site := text]
            && IsPending(s.rows, 2) && s.rows[2].ops == REPLACE_X
            && Approve(pf, s, 2, who, now, rerun).1 == NotApplied
  {
    var runs, run3 := TwoRuns(site, r1, n, r2), RunInput(r3, 30, EMPTY, Suggest(REPLACE_X));
    var op := ApproveOp(1, who, 20, run3);
    OneRow(pf, site, config, map[site := text], r1, n, r2);
    var s := After(pf, Fresh(map[site := text]), runs);
    ApproveFirst(pf, site, config, text, s, who, run3);
    assert (runs + [op])[..2] == runs;
    assert After(pf, Fresh(map[site := text]), runs + [op]) == Approve(pf, s, 1, who, 20, run3).0;
    Misfires(pf, Approve(pf, s, 1, who, 20, run3).0, site, text, who, now, rerun);
  }

  lemma Misfires(pf: Platform, s: State, site: string, text: string, who: string, now: int, rerun: RunInput)
    requires pf.load(text) == Some(PLAIN) && s.disk.texts == map[site := text]
    requires IsPending(s.rows, 2) && s.rows[2].site == site && s.rows[2].ops == REPLACE_X
    ensures Approve(pf, s, 2, who, now, rerun).1 == NotApplied
  {
    Patches();
    assert "a" in PLAIN.entries;
    NotAppliedExactlyWhen(pf, s, 2, who, now, rerun);
  }

  lemma ApproveFirst(pf: Platform, site: string, config: SiteConfig, text: string, s: State, who: string,
                     rerun: RunInput)
    requires RoundTrips(pf) && Accepts(pf, site, config) && pf.load(text) == Some(PLAIN)
    requires IsPending(s.rows, 1) && s.rows[1].site == site && s.rows[1].ops == ADD_X
    requires s.nextId == 2 && s.rows.Keys == {1} && s.disk == Disk(map[site := text], map[])
    requires HasHistory(s.runs, site) && rerun.runId !in RunIds(s.runs)
    requires rerun.readings == EMPTY && rerun.heal == Suggest(REPLACE_X)
    ensures var (t, r) := Approve(pf, s, 1, who, 20, rerun);
            && r == Applied(false) && t.disk.texts == map[site := text]
            && IsPending(t.rows, 2) && t.rows[2].site == site && t.rows[2].ops == REPLACE_X
  {
    var approved := Decide(s, 1, Approved, who, None, 20).value;
    Patches();
    assert "a" in PLAIN.entries;
    assert PatchedDocument(pf, approved.disk.texts, site, ADD_X) == Success(ADDED);
    ApproveFirstHeals(pf, site, config, text, approved, rerun);
    RolledBackBase(pf, approved, 1, 20, rerun);
    assert Approve(pf, s, 1, who, 20, rerun) == ApplyApproved(pf, approved, 1, 20, rerun);
  }

  lemma ApproveFirstHeals(pf: Platform, site: string, config: SiteConfig, text: string, s: State, rerun: RunInput)
    requires RoundTrips(pf) && Accepts(pf, site, config)
    requires s.rows.Keys == {1} && s.rows[1].status == Approved && s.rows[1].site == site && s.rows[1].ops == ADD_X
    requires s.disk == Disk(map[site := text], map[])
    requires PatchedDocument(pf, s.disk.texts, site, ADD_X) == Success(ADDED)
    requires HasHistory(s.runs, site) && rerun.runId !in RunIds(s.runs)
    requires rerun.readings == EMPTY && rerun.heal == Suggest(REPLACE_X)
    ensures RerunHeals(pf, s, 1, 20, rerun)
  {
    TallyOne(0, NO_STATS, ["empty_results"]);
    EmptyIsHealable();
    var w := WritePatch(pf, s, 1, ADDED, 20);
    assert w.disk.texts == map[site := pf.dump(ADDED)];
    Suggested(pf, site, config, w.disk.texts, ADDED, REPLACE_X);
  }
}
