/**
 The approval protocol as its code runs it: collect runs with healing, approve, reject,
 regenerate and expiry (app/runner/healing_flow.py, app/patching/decision.py,
 app/approval/state_machine.py, _run_site and _rerun of app/runner/cli.py). Every procedure
 is a function on the whole state and a method on the tables and files that refines it.
*/
module Workflow {
  import opened Results
  import opened Trees
  import opened Patch
  import opened DryRun
  import opened RunLog
  import opened Approvals
  import opened SitePatching

  const EXPIRY := 24 * 3600
  const REJECT_GUARD := 24 * 3600

  /** The lines of the audit log. */
  datatype Event =
    | ApprovalCreated(id: int, runId: string, site: string)
    | ApprovalDecided(id: int, status: Status, who: string)
    | ApprovalExpired(id: int)
    | PatchApplied(id: int, site: string)
    | ApplyFailed(id: int, site: string)
    | PatchRolledBack(id: int, site: string)

  /** `madeOn` is history: the document each row's patch was tried on when the row was made. */
  datatype State = State(rows: Rows, nextId: int, audit: seq<Event>, disk: Disk, runs: seq<Run>, madeOn: map<int, Tree>)

  /** What the code raises. A KeyError is a LookupError. RerunCrash is an exception out of the rerun callback. */
  datatype Exn = LookupErr | NotPending | AlreadyDecided | NotEligible | LimitReached | OtherError | RerunCrash

  // ---------- inputs from outside ----------

  /** One collector's turn in a run: what it read and what the upsert counted, or an exception. */
  datatype Reading = Read(records: int, stats: Stats, codes: seq<string>) | Broke

  /**
   What the LLM client returns or raises. RaisedLookup is a LookupError, as from a response
   without choices; Refused is every other exception.
  */
  datatype Reply = Refused | RaisedLookup | Candidate(ops: seq<PatchOp>)

  /** The stored API sample, whether the LLM is configured, its reply, and Slack's answer to the card. */
  datatype Healing = Healing(sample: Option<seq<Tree>>, enabled: bool, reply: Reply, card: Option<Thread>)

  datatype RunInput = RunInput(runId: string, now: int, readings: seq<Reading>, heal: Healing)

  // ---------- rows and their audit lines ----------

  /** create_approval: a pending row for 24 hours. */
  function Create(s: State, runId: string, site: string, ops: seq<PatchOp>, now: int, base: Tree): State {
    s.(rows := s.rows[s.nextId := Row(runId, site, ops, Pending, now, now + EXPIRY, None, None, None, None)],
       nextId := s.nextId + 1,
       audit := s.audit + [ApprovalCreated(s.nextId, runId, site)],
       madeOn := s.madeOn[s.nextId := base])
  }

  /** _decide */
  function Decide(s: State, id: int, status: Status, who: string, reason: Option<Reason>,
                  now: int): Result<State, Exn> {
    if id !in s.rows then Failure(LookupErr)
    else if s.rows[id].status != Pending then Failure(AlreadyDecided)
    else Success(s.(rows := Settled(s.rows, id, status, now, who, reason),
                    audit := s.audit + [ApprovalDecided(id, status, who)]))
  }

  function ExpiredEvents(ids: seq<int>): seq<Event> {
    if ids == [] then [] else ExpiredEvents(ids[..|ids| - 1]) + [ApprovalExpired(ids[|ids| - 1])]
  }

  /** expire_due */
  function ExpireDue(s: State, now: int): State {
    var ids := DueIds(s.rows, s.nextId, now);
    s.(rows := Swept(s.rows, ids, now), audit := s.audit + ExpiredEvents(ids))
  }

  function Attach(s: State, id: int, card: Option<Thread>): State {
    if card.None? then s else s.(rows := Threaded(s.rows, id, card.value))
  }

  // ---------- a collect run ----------

  datatype Category = NoFailure | NetworkBlocked | EmptyResults | SchemaChange | VolumeDrop | MissingFields | Unknown

  function CategoryOf(code: string): Category {
    if code == "fetch_failed" then NetworkBlocked
    else if code == "empty_results" then EmptyResults
    else if code == "items_path_not_list" || code == "missing_external_id" then SchemaChange
    else if code == "missing_required_field" then MissingFields
    else if code == "volume_drop" then VolumeDrop
    else Unknown
  }

  /** classify_failure: the first category of the priority list that some issue has. */
  function Classify(codes: seq<string>): Category {
    if codes == [] then NoFailure
    else
      var seen := set c | c in codes :: CategoryOf(c);
      if NetworkBlocked in seen then NetworkBlocked
      else if SchemaChange in seen then SchemaChange
      else if MissingFields in seen then MissingFields
      else if VolumeDrop in seen then VolumeDrop
      else if EmptyResults in seen then EmptyResults
      else Unknown
  }

  /** What the loop over the collectors accumulates. */
  datatype Tally = Tally(total: Stats, failed: bool, codes: seq<string>, broke: bool)

  function Counted(t: Tally, r: Reading): Tally {
    match r
    case Broke => t.(broke := true)
    case Read(records, stats, codes) =>
      Tally(if records > 0 then t.total.Plus(stats) else t.total,
            t.failed || (records <= 0 && codes != []), t.codes + codes, false)
  }

  function TallyOf(readings: seq<Reading>): Tally {
    if readings == [] then Tally(NO_STATS, false, [], false)
    else
      var t := TallyOf(readings[..|readings| - 1]);
      if t.broke then t else Counted(t, readings[|readings| - 1])
  }

  /** The guards of maybe_trigger_healing. */
  predicate MayHeal(s: State, site: string, category: Category, now: int, heal: Healing) {
    && category in {SchemaChange, EmptyResults}
    && HasHistory(s.runs, site)
    && PendingIn(s.rows, site) == {}
    && RejectedSince(s.rows, site, now - REJECT_GUARD) == {}
    && heal.sample.Some?
    && heal.enabled
  }

  datatype Proposal =
    | Unreadable
    | NoReply
    | NoChoice
    | Infeasible
    | DryRunRaised(crash: DryRun.Crash)
    | Unusable
    | Usable(base: Tree)

  /**
   From the site's file, the samples and the LLM's reply to a patch worth a row; Usable names
   the document it was tried on.
  */
  function Propose(pf: Platform, texts: map<string, string>, site: string, samples: seq<Tree>,
                   reply: Reply): (p: Proposal)
    ensures p.Usable? ==> reply.Candidate? && reply.ops != [] && site in texts
  {
    if site !in texts then Unreadable
    else if reply.Refused? then NoReply
    else if reply.RaisedLookup? then NoChoice
    else if reply.ops == [] then Infeasible
    else match Document(pf, texts[site])
      case None => Unreadable
      case Some(base) =>
        match DryRunOf(pf.show, pf.validate, site, base, reply.ops, samples)
        case Raised(c) => DryRunRaised(c)
        case PatchApplyFailed(_) => Unusable
        case PatchInvalid => Unusable
        case Compared(_, _, _, _, _, _) => Usable(base)
  }

  /** maybe_trigger_healing with its pipeline: a new row, or nothing. */
  function MaybeHeal(pf: Platform, s: State, site: string, runId: string, codes: seq<string>, now: int,
                     heal: Healing): State {
    if !MayHeal(s, site, Classify(codes), now, heal) then s
    else
      var p := Propose(pf, s.disk.texts, site, heal.sample.value, heal.reply);
      if p.Usable? then Attach(Create(s, runId, site, heal.reply.ops, now, p.base), s.nextId, heal.card) else s
  }

  /** _run_site: None where it raises. */
  function RunSite(pf: Platform, s: State, site: string, run: RunInput): (State, Option<Stats>) {
    if exists r | r in s.runs :: r.runId == run.runId then (s, None)
    else
      var started := s.runs + [Run(run.runId, site, run.now, None, Running, NO_STATS)];
      var t := TallyOf(run.readings);
      var status := if t.broke || t.failed then Failed else Succeeded;
      var finished := s.(runs := Finished(started, run.runId, status, t.total, run.now));
      if t.broke then (finished, None)
      else if t.failed then (MaybeHeal(pf, finished, site, run.runId, t.codes, run.now, run.heal), Some(t.total))
      else (finished, Some(t.total))
  }

  // ---------- decisions ----------

  /** Rolled back exactly when applied without a successful rerun. */
  datatype Outcome =
    | Applied(rerunSucceeded: bool)
    | NotApplied
    | RejectDone
    | Regenerated(newId: int)
    | Expirations(ids: seq<int>)
    | Collected(stats: Option<Stats>)
    | Threw(error: Exn)

  datatype Rerun = RerunRaised | RerunEnded(success: bool)

  /** The rerun callback: all configs are loaded outside its try; no stored record counts as failure. */
  function RerunSite(pf: Platform, s: State, site: string, run: RunInput): (State, Rerun) {
    if !AllLoad(pf, s.disk.texts) then (s, RerunRaised)
    else if !Configured(pf, s.disk.texts, site) then (s, RerunEnded(false))
    else
      var (after, stats) := RunSite(pf, s, site, run);
      (after, RerunEnded(stats.Some? && (stats.value.inserted > 0 || stats.value.updated > 0 || stats.value.same > 0)))
  }

  /** The state in which an approval's patch has just been written. */
  function WritePatch(pf: Platform, s: State, id: int, doc: Tree, now: int): State
    requires id in s.rows && s.rows[id].site in s.disk.texts
  {
    var site := s.rows[id].site;
    s.(disk := Saved(pf, s.disk, site, doc, now), audit := s.audit + [PatchApplied(id, site)])
  }

  function Rollback(s: State, id: int, site: string, now: int): State
    requires Slot(site, now) in s.disk.backups
  {
    s.(disk := Restored(s.disk, site, Slot(site, now)), audit := s.audit + [PatchRolledBack(id, site)])
  }

  /** approve_and_apply */
  function Approve(pf: Platform, s: State, id: int, who: string, now: int, rerun: RunInput): (State, Outcome) {
    if id !in s.rows then (s, Threw(LookupErr))
    else if s.rows[id].status != Pending then (s, Threw(NotPending))
    else match Decide(s, id, Approved, who, None, now)
      case Failure(e) => (s, Threw(e))
      case Success(approved) => ApplyApproved(pf, approved, id, now, rerun)
  }

  /** What approve_and_apply does once the row is approved. */
  function ApplyApproved(pf: Platform, s: State, id: int, now: int, rerun: RunInput): (State, Outcome)
    requires id in s.rows
  {
    var row := s.rows[id];
    match PatchedDocument(pf, s.disk.texts, row.site, row.ops)
    case Failure(FileMissing) => (s, Threw(OtherError))
    case Failure(NotYaml) => (s, Threw(OtherError))
    case Failure(_) => (s.(audit := s.audit + [ApplyFailed(id, row.site)]), NotApplied)
    case Success(doc) =>
      var written := WritePatch(pf, s, id, doc, now);
      var (ran, result) := RerunSite(pf, written, row.site, rerun);
      AfterRerun(ran, id, row.site, now, result)
  }

  /** A rerun that raises is not caught, so it leaves the patch in the file; one that fails is rolled back. */
  function AfterRerun(s: State, id: int, site: string, now: int, result: Rerun): (State, Outcome) {
    match result
    case RerunRaised => (s, Threw(RerunCrash))
    case RerunEnded(success) =>
      if success then (s, Applied(true))
      else if Slot(site, now) !in s.disk.backups then (s, Threw(OtherError))
      else (Rollback(s, id, site, now), Applied(false))
  }

  /** reject_decision */
  function Reject(s: State, id: int, who: string, reason: string, now: int): (State, Outcome) {
    if id !in s.rows then (s, Threw(LookupErr))
    else if s.rows[id].status != Pending then (s, Threw(NotPending))
    else match Decide(s, id, Rejected, who, Some(Given(reason)), now)
      case Failure(e) => (s, Threw(e))
      case Success(after) => (after, RejectDone)
  }

  /** The supersede-only failure paths of regenerate_approval. */
  function SupersedeOnly(s: State, id: int, who: string, now: int): (State, Outcome) {
    match Decide(s, id, Superseded, who, Some(Followed), now)
    case Failure(e) => (s, Threw(e))
    case Success(after) => (after, Threw(NotEligible))
  }

  /** The successful path of regenerate_approval: a new row first, then the old one superseded, then the card. */
  function Supplant(s: State, id: int, ops: seq<PatchOp>, who: string, now: int, base: Tree,
                    card: Option<Thread>): (State, Outcome)
    requires id in s.rows
  {
    var created := Create(s, s.rows[id].runId, s.rows[id].site, ops, now, base);
    match Decide(created, id, Superseded, who, Some(FollowedBy(s.nextId)), now)
    case Failure(e) => (created, Threw(e))
    case Success(after) => (Attach(after, s.nextId, card), Regenerated(s.nextId))
  }

  /** regenerate_approval */
  function Regenerate(pf: Platform, s: State, id: int, who: string, now: int, heal: Healing): (State, Outcome) {
    if id !in s.rows then (s, Threw(NotEligible))
    else if s.rows[id].status != Pending then (s, Threw(NotEligible))
    else if |OfRun(s.rows, s.rows[id].runId)| >= REGENERATE_LIMIT_PER_RUN then (s, Threw(LimitReached))
    else if !heal.enabled then (s, Threw(OtherError))
    else if heal.sample.None? then (s, Threw(NotEligible))
    else
      var prev := s.rows[id];
      match Propose(pf, s.disk.texts, prev.site, heal.sample.value, heal.reply)
      case Unreadable => (s, Threw(OtherError))
      case NoReply => (s, Threw(OtherError))
      case NoChoice => (s, Threw(LookupErr))
      case DryRunRaised(c) => (s, Threw(if c == NoCollector then LookupErr else OtherError))
      case Infeasible => SupersedeOnly(s, id, who, now)
      case Unusable => SupersedeOnly(s, id, who, now)
      case Usable(base) => Supplant(s, id, heal.reply.ops, who, now, base, heal.card)
  }

  // ---------- serial runs ----------

  datatype Op =
    | Collect(site: string, run: RunInput)
    | ApproveOp(id: int, who: string, now: int, rerun: RunInput)
    | RejectOp(id: int, who: string, reason: string, now: int)
    | RegenerateOp(id: int, who: string, now: int, heal: Healing)
    | ExpireOp(now: int)

  function Step(pf: Platform, s: State, op: Op): (State, Outcome) {
    match op
    case Collect(site, run) => var (after, stats) := RunSite(pf, s, site, run); (after, Collected(stats))
    case ApproveOp(id, who, now, rerun) => Approve(pf, s, id, who, now, rerun)
    case RejectOp(id, who, reason, now) => Reject(s, id, who, reason, now)
    case RegenerateOp(id, who, now, heal) => Regenerate(pf, s, id, who, now, heal)
    case ExpireOp(now) => (ExpireDue(s, now), Expirations(DueIds(s.rows, s.nextId, now)))
  }

  /** The state after a run of operations, one at a time. */
  function After(pf: Platform, s: State, ops: seq<Op>): State {
    if ops == [] then s else Step(pf, After(pf, s, ops[..|ops| - 1]), ops[|ops| - 1]).0
  }

  /** No rows, no audit lines, no backups, no runs. */
  function Fresh(texts: map<string, string>): State {
    State(map[], 1, [], Disk(texts, map[]), [], map[])
  }
}
