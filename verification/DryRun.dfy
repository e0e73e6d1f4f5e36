/**
 The dry run (app/healing/dry_run.py): a patch is tried on a copy of the site's config, the
 collector runs on stored samples before and after, and the two results are compared.
*/
module DryRun {
  import opened Results
  import opened Trees
  import opened Patch
  import opened Collector

  /** A site config that has passed schema validation. */
  datatype SiteConfig = SiteConfig(site: string, collectors: map<string, CollectorConfig>)

  /** SiteConfig.model_validate: None where it raises. */
  type Validate = Tree -> Option<SiteConfig>

  datatype Verdict = Improved | Regressed | Unchanged

  /** What the comparison is about: the number of records, and of those that lack a required field. */
  datatype Measure = Measure(count: nat, missing: nat)

  /** Exceptions of the dry run; a KeyError is a LookupError in Python. */
  datatype Crash = InvalidBase | NoCollector | NotApiJobs | NotRunnable

  datatype DryRunResult =
    | Raised(crash: Crash)
    | PatchApplyFailed(error: PatchError)
    | PatchInvalid
    | Compared(verdict: Verdict, before: Measure, after: Measure,
               beforeIssues: seq<Issue>, afterIssues: seq<Issue>, sample: seq<Posting>)

  const SAMPLE_RECORD_LIMIT := 5
  const COLLECTOR_NAME := "jobs"

  function GetCollector(config: SiteConfig, name: string): Result<CollectorConfig, Crash> {
    if name !in config.collectors then Failure(NoCollector)
    else if config.collectors[name].kind != ApiJobs then Failure(NotApiJobs)
    else Success(config.collectors[name])
  }

  // ---------- counting records that lack a required field ----------

  /** The attribute is None or "" or does not exist. A posting's methods exist and are neither. */
  predicate EmptyAttribute(p: Posting, site: string, name: string) {
    if name == "external_id" then p.externalId == ""
    else if name == "site" then site == ""
    else if name == "title" then p.title.None? || p.title.value == ""
    else if name == "company" then p.company.None? || p.company.value == ""
    else if name == "deadline" then p.deadline.None? || p.deadline.value == ""
    else if name == "link" then p.link.None? || p.link.value == ""
    else if name == "raw" then p.raw.None?
    else name != "content_hash" && name != "raw_json"
  }

  predicate Lacks(p: Posting, site: string, required: seq<string>) {
    exists name | name in required :: EmptyAttribute(p, site, name)
  }

  function MissingRequired(ps: seq<Posting>, site: string, required: seq<string>): nat {
    if ps == [] then 0
    else MissingRequired(ps[..|ps| - 1], site, required) + if Lacks(ps[|ps| - 1], site, required) then 1 else 0
  }

  method CountMissingRequired(ps: seq<Posting>, site: string, required: seq<string>) returns (missing: nat)
    ensures missing == MissingRequired(ps, site, required)
  {
    if required == [] {
      NoneRequired(ps, site);
      return 0;
    }
    missing := 0;
    for i := 0 to |ps|
      invariant missing == MissingRequired(ps[..i], site, required)
    {
      assert ps[..i + 1][..i] == ps[..i];
      if exists name | name in required :: EmptyAttribute(ps[i], site, name) {
        missing := missing + 1;
      }
    }
    assert ps[..|ps|] == ps;
  }

  lemma {:induction false} NoneRequired(ps: seq<Posting>, site: string)
    ensures MissingRequired(ps, site, []) == 0
  {
    if ps != [] {
      NoneRequired(ps[..|ps| - 1], site);
    }
  }

  /** The count is the number of records that lack a required field. */
  lemma {:induction false} MissingRequiredCounts(ps: seq<Posting>, site: string, required: seq<string>)
    ensures MissingRequired(ps, site, required) == |set i | 0 <= i < |ps| && Lacks(ps[i], site, required)|
  {
    hide Lacks;
    var hits := set i | 0 <= i < |ps| && Lacks(ps[i], site, required);
    if ps == [] {
      assert hits == {};
    } else {
      var n := |ps| - 1;
      var before := set i | 0 <= i < n && Lacks(ps[..n][i], site, required);
      MissingRequiredCounts(ps[..n], site, required);
      assert hits == if Lacks(ps[n], site, required) then before + {n} else before;
    }
  }

  // ---------- the verdict ----------

  function Judge(before: Measure, after: Measure): Verdict {
    if after.count > before.count then Improved
    else if after.count < before.count then Regressed
    else if after.missing < before.missing then Improved
    else if after.missing > before.missing then Regressed
    else Unchanged
  }

  /**
   `Improved` is the strict lexicographic order on (more records, fewer missing): it is
   irreflexive, transitive and total, and exchanging before and after exchanges improved
   and regressed.
  */
  lemma JudgeIsStrictOrder(a: Measure, b: Measure, c: Measure)
    ensures Judge(a, b) == Unchanged <==> a == b
    ensures Judge(a, b) == Improved <==> Judge(b, a) == Regressed
    ensures Judge(a, b) == Improved && Judge(b, c) == Improved ==> Judge(a, c) == Improved
    ensures Judge(a, b) == Improved <==> a.count < b.count || (a.count == b.count && b.missing < a.missing)
  {
  }

  // ---------- the dry run ----------

  function Measured(r: CollectorResult, site: string, cfg: CollectorConfig): Measure {
    Measure(|r.records|, MissingRequired(r.records, site, cfg.requiredFields))
  }

  function FirstRecords(ps: seq<Posting>): seq<Posting> {
    if |ps| <= SAMPLE_RECORD_LIMIT then ps else ps[..SAMPLE_RECORD_LIMIT]
  }

  function CompareConfigs(show: Show, site: string, before: CollectorConfig, after: CollectorConfig,
                          samples: seq<Tree>): DryRunResult
  {
    if !Runnable(before) || !Runnable(after) then Raised(NotRunnable)
    else
      var b, a := Collect(show, before, FakeScript(samples)), Collect(show, after, FakeScript(samples));
      var mb, ma := Measured(b, site, before), Measured(a, site, after);
      Compared(Judge(mb, ma), mb, ma, b.issues, a.issues, FirstRecords(a.records))
  }

  /** run_dry_run on a document: what the whole procedure returns or raises. */
  function DryRunOf(show: Show, validate: Validate, site: string, base: Tree, ops: seq<PatchOp>,
                    samples: seq<Tree>): DryRunResult
  {
    if validate(base).None? then Raised(InvalidBase)
    else match GetCollector(validate(base).value, COLLECTOR_NAME)
      case Failure(e) => Raised(e)
      case Success(before) =>
        match ApplyPatch(base, ops)
        case Failure(e) => PatchApplyFailed(e)
        case Success(patched) =>
          if validate(patched).None? then PatchInvalid
          else match GetCollector(validate(patched).value, COLLECTOR_NAME)
            case Failure(e) => Raised(e)
            case Success(after) => CompareConfigs(show, site, before, after, samples)
  }

  method RunDryRun(show: Show, validate: Validate, site: string, base: Tree, ops: seq<PatchOp>, samples: seq<Tree>)
    returns (r: DryRunResult)
    ensures r == DryRunOf(show, validate, site, base, ops, samples)
  {
    var baseConfig := validate(base);
    if baseConfig.None? {
      return Raised(InvalidBase);
    }
    var before := GetCollector(baseConfig.value, COLLECTOR_NAME);
    if before.Failure? {
      return Raised(before.error);
    }
    var patched := ApplyPatch(base, ops);
    if patched.Failure? {
      return PatchApplyFailed(patched.error);
    }
    var patchedConfig := validate(patched.value);
    if patchedConfig.None? {
      return PatchInvalid;
    }
    var after := GetCollector(patchedConfig.value, COLLECTOR_NAME);
    if after.Failure? {
      return Raised(after.error);
    }
    var b := RunCollector(show, before.value, samples);
    if b.None? {
      return Raised(NotRunnable);
    }
    var a := RunCollector(show, after.value, samples);
    if a.None? {
      return Raised(NotRunnable);
    }
    var beforeMissing := CountMissingRequired(b.value.records, site, before.value.requiredFields);
    var afterMissing := CountMissingRequired(a.value.records, site, after.value.requiredFields);
    var mb, ma := Measure(|b.value.records|, beforeMissing), Measure(|a.value.records|, afterMissing);
    return Compared(Judge(mb, ma), mb, ma, b.value.issues, a.value.issues, FirstRecords(a.value.records));
  }

  /** The collector on a fresh fake fetcher. */
  method RunCollector(show: Show, cfg: CollectorConfig, samples: seq<Tree>) returns (r: Option<CollectorResult>)
    ensures r == if Runnable(cfg) then Some(Collect(show, cfg, FakeScript(samples))) else None
  {
    var fetcher := new ScriptedFetcher(FakeScript(samples));
    r := Run(show, cfg, fetcher);
  }

  // ---------- what a verdict says about documents and patches ----------

  /** The collector config a valid document gives. */
  function JobsOf(validate: Validate, t: Tree): Result<CollectorConfig, Crash> {
    if validate(t).None? then Failure(InvalidBase) else GetCollector(validate(t).value, COLLECTOR_NAME)
  }

  /** A dry run compares exactly when both documents are valid and have a collector that can run. */
  lemma ComparesWhen(show: Show, validate: Validate, site: string, base: Tree, ops: seq<PatchOp>, samples: seq<Tree>)
    ensures DryRunOf(show, validate, site, base, ops, samples).Compared? <==>
            && JobsOf(validate, base).Success? && Runnable(JobsOf(validate, base).value)
            && ApplyPatch(base, ops).Success?
            && var patched := ApplyPatch(base, ops).value;
               JobsOf(validate, patched).Success? && Runnable(JobsOf(validate, patched).value)
  {
  }

  /** Some required attribute of the posting is None or "". */
  predicate Incomplete(p: Posting, site: string, required: seq<string>) {
    || ("external_id" in required && p.externalId == "")
    || ("site" in required && site == "")
    || ("title" in required && (p.title.None? || p.title.value == ""))
    || ("company" in required && (p.company.None? || p.company.value == ""))
    || ("deadline" in required && (p.deadline.None? || p.deadline.value == ""))
    || ("link" in required && (p.link.None? || p.link.value == ""))
    || ("raw" in required && p.raw.None?)
    || exists name | name in required ::
         name !in {"external_id", "site", "title", "company", "deadline", "link", "raw", "content_hash", "raw_json"}
  }

  lemma LacksMeans(p: Posting, site: string, required: seq<string>)
    ensures Lacks(p, site, required) <==> Incomplete(p, site, required)
  {
    if Lacks(p, site, required) {
      var name :| name in required && EmptyAttribute(p, site, name);
    } else {
      forall name | name in required
        ensures !EmptyAttribute(p, site, name)
      {
      }
    }
  }

  /** What the fake fetcher answers: the samples one after another, and then empty dicts. */
  ghost predicate AnswersSamples(script: Script, samples: seq<Tree>) {
    forall i: nat :: script.Fetch(i) == FetchResult(200, if i < |samples| then samples[i] else Dict(map[]), false)
  }

  lemma {:induction false} SameOutcomes(show: Show, cfg: CollectorConfig, script: Script, samples: seq<Tree>, n: nat)
    requires cfg.mapping.Some? && AnswersSamples(script, samples)
    ensures Outcomes(show, cfg, FakeScript(samples), n) == Outcomes(show, cfg, script, n)
  {
    if n > 0 {
      hide OutcomeOf;
      SameOutcomes(show, cfg, script, samples, n - 1);
    }
  }

  lemma SameCollect(show: Show, cfg: CollectorConfig, script: Script, samples: seq<Tree>)
    requires cfg.mapping.Some? && AnswersSamples(script, samples)
    ensures Collect(show, cfg, FakeScript(samples)) == Collect(show, cfg, script)
  {
    SameOutcomes(show, cfg, script, samples, PageLimit(cfg));
  }

  /** How many records are incomplete. */
  function CountIncomplete(ps: seq<Posting>, site: string, required: seq<string>): nat {
    |set i | 0 <= i < |ps| && Incomplete(ps[i], site, required)|
  }

  lemma MissingAreIncomplete(ps: seq<Posting>, site: string, required: seq<string>)
    ensures MissingRequired(ps, site, required) == CountIncomplete(ps, site, required)
  {
    MissingRequiredCounts(ps, site, required);
    forall i | 0 <= i < |ps|
      ensures Lacks(ps[i], site, required) <==> Incomplete(ps[i], site, required)
    {
      LacksMeans(ps[i], site, required);
    }
    hide Lacks, Incomplete;
    assert (set i | 0 <= i < |ps| && Lacks(ps[i], site, required)) ==
           set i | 0 <= i < |ps| && Incomplete(ps[i], site, required);
  }

  /**
   What a dry run reports: the collector runs on the samples by the config before and by the
   one after the patch; counted are their records and those of them that are incomplete by
   their own config's required fields; the issues are those of each, and the sample is the
   first five records after the patch, or all if there are fewer. More records are an
   improvement and fewer a regression; of as many, fewer or more incomplete ones.
  */
  lemma ReportMeans(show: Show, validate: Validate, site: string, base: Tree, ops: seq<PatchOp>, samples: seq<Tree>,
                    script: Script)
    requires AnswersSamples(script, samples)
    ensures var r := DryRunOf(show, validate, site, base, ops, samples);
            r.Compared? ==>
              var patched := ApplyPatch(base, ops).value;
              var before, after := validate(base).value.collectors["jobs"], validate(patched).value.collectors["jobs"];
              var b, a := Collect(show, before, script), Collect(show, after, script);
              && r.before == Measure(|b.records|, CountIncomplete(b.records, site, before.requiredFields))
              && r.after == Measure(|a.records|, CountIncomplete(a.records, site, after.requiredFields))
              && r.beforeIssues == b.issues && r.afterIssues == a.issues
              && r.sample == (if |a.records| < 5 then a.records else a.records[..5])
              && (r.verdict == Improved <==>
                  |a.records| > |b.records| || (|a.records| == |b.records| && r.after.missing < r.before.missing))
              && (r.verdict == Regressed <==>
                  |a.records| < |b.records| || (|a.records| == |b.records| && r.after.missing > r.before.missing))
  {
    hide Collect, MissingRequired, CountIncomplete, AnswersSamples;
    var r := DryRunOf(show, validate, site, base, ops, samples);
    if r.Compared? {
      var patched := ApplyPatch(base, ops).value;
      var before, after := validate(base).value.collectors["jobs"], validate(patched).value.collectors["jobs"];
      SameCollect(show, before, script, samples);
      SameCollect(show, after, script, samples);
      MissingAreIncomplete(Collect(show, before, script).records, site, before.requiredFields);
      MissingAreIncomplete(Collect(show, after, script).records, site, after.requiredFields);
    }
  }

  /** A patch that leaves the collector's config as it is changes nothing: the verdict is unchanged. */
  lemma SameConfigUnchanged(show: Show, validate: Validate, site: string, base: Tree, ops: seq<PatchOp>,
                            samples: seq<Tree>)
    requires ApplyPatch(base, ops).Success?
    requires JobsOf(validate, ApplyPatch(base, ops).value) == JobsOf(validate, base)
    ensures var r := DryRunOf(show, validate, site, base, ops, samples);
            r.Compared? ==> r.verdict == Unchanged && r.before == r.after && r.beforeIssues == r.afterIssues
  {
  }

  predicate Improves(r: DryRunResult) {
    r.Compared? && r.verdict == Improved
  }

  /** Two improving patches, one after the other, are together an improving patch. */
  lemma ImprovementsCompose(show: Show, validate: Validate, site: string, base: Tree, p: seq<PatchOp>,
                            q: seq<PatchOp>, samples: seq<Tree>)
    requires ApplyPatch(base, p).Success?
    ensures && Improves(DryRunOf(show, validate, site, base, p, samples))
            && Improves(DryRunOf(show, validate, site, ApplyPatch(base, p).value, q, samples)) ==>
              Improves(DryRunOf(show, validate, site, base, p + q, samples))
  {
    hide ApplyPatch, MissingRequired;
    ApplyPatchConcat(base, p, q);
  }

  /** A patch that takes an improvement back is a regression. */
  lemma UndoingAnImprovementRegresses(show: Show, validate: Validate, site: string, base: Tree,
                                      p: seq<PatchOp>, undo: seq<PatchOp>, samples: seq<Tree>)
    requires ApplyPatch(base, p).Success? && ApplyPatch(ApplyPatch(base, p).value, undo) == Success(base)
    ensures Improves(DryRunOf(show, validate, site, base, p, samples)) ==>
              var r := DryRunOf(show, validate, site, ApplyPatch(base, p).value, undo, samples);
              r.Compared? && r.verdict == Regressed
  {
  }
}
