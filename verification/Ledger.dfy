/** What serial runs leave in the YAML files. */
module Ledger {
  import opened Results
  import opened Trees
  import opened Patch
  import opened Approvals
  import opened SitePatching
  import opened Workflow
  import opened Lifecycle
  import opened Soundness

  /** The operation leaves its patch in the file: the rerun succeeded, or raised and was not rolled back. */
  predicate Wrote(op: Op, r: Outcome) {
    op.ApproveOp? && (r == Applied(true) || r == Threw(RerunCrash))
  }

  /** The ids whose patches a run leaves in the files, in the order of their decisions. */
  function Kept(pf: Platform, s: State, ops: seq<Op>): seq<int> {
    if ops == [] then []
    else
      var init, last := ops[..|ops| - 1], ops[|ops| - 1];
      Kept(pf, s, init) + if Wrote(last, Step(pf, After(pf, s, init), last).1) then [last.id] else []
  }

  /** The patches of those ids that belong to a site. */
  function PatchesOf(rows: Rows, ids: seq<int>, site: string): seq<seq<PatchOp>> {
    if ids == [] then []
    else
      var last := ids[|ids| - 1];
      PatchesOf(rows, ids[..|ids| - 1], site) + if last in rows && rows[last].site == site then [rows[last].ops] else []
  }

  // ---------- one operation ----------

  lemma RerunKeepsDisk(pf: Platform, s: State, site: string, run: RunInput)
    ensures RunSite(pf, s, site, run).0.disk == s.disk && RerunSite(pf, s, site, run).0.disk == s.disk
  {
  }

  /** The text a site's file has after its approval has been applied. */
  function PatchedText(pf: Platform, s: State, id: int): string
    requires id in s.rows && PatchedDocument(pf, s.disk.texts, s.rows[id].site, s.rows[id].ops).Success?
  {
    pf.dump(PatchedDocument(pf, s.disk.texts, s.rows[id].site, s.rows[id].ops).value)
  }

  lemma ApplyApprovedTexts(pf: Platform, s: State, id: int, now: int, rerun: RunInput)
    requires id in s.rows
    ensures var (t, r) := ApplyApproved(pf, s, id, now, rerun);
            if r == Applied(true) || r == Threw(RerunCrash) then
              && PatchedDocument(pf, s.disk.texts, s.rows[id].site, s.rows[id].ops).Success?
              && t.disk.texts == s.disk.texts[s.rows[id].site := PatchedText(pf, s, id)]
            else t.disk.texts == s.disk.texts
  {
    var site := s.rows[id].site;
    var doc := PatchedDocument(pf, s.disk.texts, site, s.rows[id].ops);
    if doc.Success? {
      var w := WritePatch(pf, s, id, doc.value, now);
      RerunKeepsDisk(pf, w, site, rerun);
      RollbackRestores(pf, s.disk, site, doc.value, now);
      assert Slot(site, now) in w.disk.backups;
      var (ran, result) := RerunSite(pf, w, site, rerun);
      assert ApplyApproved(pf, s, id, now, rerun) == AfterRerun(ran, id, site, now, result);
    }
  }

  lemma ApproveTexts(pf: Platform, s: State, id: int, who: string, now: int, rerun: RunInput)
    ensures var (t, r) := Approve(pf, s, id, who, now, rerun);
            if r == Applied(true) || r == Threw(RerunCrash) then
              && IsPending(s.rows, id)
              && PatchedDocument(pf, s.disk.texts, s.rows[id].site, s.rows[id].ops).Success?
              && t.disk.texts == s.disk.texts[s.rows[id].site := PatchedText(pf, s, id)]
            else t.disk.texts == s.disk.texts
  {
    if IsPending(s.rows, id) {
      var approved := Decide(s, id, Approved, who, None, now).value;
      ApplyApprovedTexts(pf, approved, id, now, rerun);
      assert Approve(pf, s, id, who, now, rerun) == ApplyApproved(pf, approved, id, now, rerun);
    }
  }

  lemma OthersKeepTexts(pf: Platform, s: State, op: Op)
    requires !op.ApproveOp?
    ensures Step(pf, s, op).0.disk == s.disk
  {
    if op.Collect? {
      RerunKeepsDisk(pf, s, op.site, op.run);
    }
  }

  /**
   One operation changes at most one file, and only to the patched text; in every other case
   all files are byte-identical.
  */
  lemma StepTexts(pf: Platform, s: State, op: Op)
    ensures var (t, r) := Step(pf, s, op);
            if Wrote(op, r) then
              && IsPending(s.rows, op.id)
              && PatchedDocument(pf, s.disk.texts, s.rows[op.id].site, s.rows[op.id].ops).Success?
              && t.disk.texts == s.disk.texts[s.rows[op.id].site := PatchedText(pf, s, op.id)]
            else t.disk.texts == s.disk.texts
  {
    if op.ApproveOp? {
      ApproveTexts(pf, s, op.id, op.who, op.now, op.rerun);
      assert Step(pf, s, op) == Approve(pf, s, op.id, op.who, op.now, op.rerun);
    } else {
      OthersKeepTexts(pf, s, op);
    }
  }

  // ---------- whole runs ----------

  lemma {:induction false} PatchesStay(s: State, t: State, ids: seq<int>, site: string)
    requires Evolves(s, t) && forall id | id in ids :: id in s.rows
    ensures PatchesOf(t.rows, ids, site) == PatchesOf(s.rows, ids, site)
  {
    if ids != [] {
      assert ids[|ids| - 1] in ids;
      PatchesStay(s, t, ids[..|ids| - 1], site);
    }
  }

  /** The file of a site, and whether each patch fitted what it was written to. */
  ghost predicate Accounted(pf: Platform, text: string, patches: seq<seq<PatchOp>>, now: string) {
    now == Replay(pf, text, patches) && AllApply(pf, text, patches)
  }

  lemma AccountedSnoc(pf: Platform, text: string, patches: seq<seq<PatchOp>>, now: string, ops: seq<PatchOp>)
    requires Accounted(pf, text, patches, now)
    requires Document(pf, now).Some? && Fits(pf, Document(pf, now).value, ops)
    ensures Accounted(pf, text, patches + [ops], pf.dump(ApplyPatch(Document(pf, now).value, ops).value))
  {
  }

  /**
   After any serial run every site's text is its initial text with exactly the patches of
   the kept approvals written to it, in decision order, each of which fitted.
  */
  lemma {:induction false} FilesAreReplays(pf: Platform, s: State, ops: seq<Op>, site: string)
    requires Sound(pf, s) && OnePending(s.rows) && site in s.disk.texts
    ensures var t := After(pf, s, ops);
            && site in t.disk.texts
            && (forall id | id in Kept(pf, s, ops) :: id in t.rows)
            && Accounted(pf, s.disk.texts[site], PatchesOf(t.rows, Kept(pf, s, ops), site), t.disk.texts[site])
  {
    if ops != [] {
      var init, op := ops[..|ops| - 1], ops[|ops| - 1];
      var t := After(pf, s, init);
      FilesAreReplays(pf, s, init, site);
      DecidedForever(pf, s, init);
      StepKeeps(pf, t, op);
      FilesAreReplaysStep(pf, t, op, Kept(pf, s, init), s.disk.texts[site], site);
    }
  }

  lemma PatchesSnoc(rows: Rows, ids: seq<int>, id: int, site: string)
    ensures PatchesOf(rows, ids + [id], site) ==
            PatchesOf(rows, ids, site) + if id in rows && rows[id].site == site then [rows[id].ops] else []
  {
  }

  /** One more kept patch. */
  lemma KeptGrows(pf: Platform, t: State, u: State, id: int, kept: seq<int>, text: string, site: string)
    requires Evolves(t, u) && id in t.rows && site in t.disk.texts
    requires forall i | i in kept :: i in t.rows
    requires PatchedDocument(pf, t.disk.texts, t.rows[id].site, t.rows[id].ops).Success?
    requires u.disk.texts == t.disk.texts[t.rows[id].site := PatchedText(pf, t, id)]
    requires Accounted(pf, text, PatchesOf(t.rows, kept, site), t.disk.texts[site])
    ensures site in u.disk.texts && Accounted(pf, text, PatchesOf(u.rows, kept + [id], site), u.disk.texts[site])
  {
    PatchesStay(t, u, kept, site);
    PatchesSnoc(u.rows, kept, id, site);
    var before := PatchesOf(t.rows, kept, site);
    if t.rows[id].site == site {
      AccountedSnoc(pf, text, before, t.disk.texts[site], t.rows[id].ops);
    } else {
      assert before + [] == before;
    }
  }

  lemma FilesAreReplaysStep(pf: Platform, t: State, op: Op, kept: seq<int>, text: string, site: string)
    requires Evolves(t, Step(pf, t, op).0) && site in t.disk.texts
    requires forall id | id in kept :: id in t.rows
    requires Accounted(pf, text, PatchesOf(t.rows, kept, site), t.disk.texts[site])
    ensures var (u, r) := Step(pf, t, op);
            var now := kept + if Wrote(op, r) then [op.id] else [];
            && site in u.disk.texts
            && (forall id | id in now :: id in u.rows)
            && Accounted(pf, text, PatchesOf(u.rows, now, site), u.disk.texts[site])
  {
    var (u, r) := Step(pf, t, op);
    StepTexts(pf, t, op);
    if Wrote(op, r) {
      KeptGrows(pf, t, u, op.id, kept, text, site);
    } else {
      PatchesStay(t, u, kept, site);
      assert kept + [] == kept;
    }
  }

  /** As parsed documents: the initial one with the kept patches applied as one. */
  lemma DocumentsAreOnePatch(pf: Platform, s: State, ops: seq<Op>, site: string)
    requires RoundTrips(pf) && Sound(pf, s) && OnePending(s.rows)
    requires site in s.disk.texts && Document(pf, s.disk.texts[site]).Some?
    ensures var t := After(pf, s, ops);
            site in t.disk.texts && Document(pf, t.disk.texts[site]).Some? &&
            ApplyPatch(Document(pf, s.disk.texts[site]).value, Joined(PatchesOf(t.rows, Kept(pf, s, ops), site)))
            == Success(Document(pf, t.disk.texts[site]).value)
  {
    FilesAreReplays(pf, s, ops, site);
    ReplayIsOnePatch(pf, s.disk.texts[site], PatchesOf(After(pf, s, ops).rows, Kept(pf, s, ops), site));
  }

  /** When every config loads and validates, a rerun cannot raise, and afterwards every config still does. */
  lemma StepStaysValid(pf: Platform, s: State, op: Op)
    requires RoundTrips(pf) && AllLoad(pf, s.disk.texts)
    ensures var (t, r) := Step(pf, s, op); AllLoad(pf, t.disk.texts) && r != Threw(RerunCrash)
  {
    StepTexts(pf, s, op);
    if op.ApproveOp? && IsPending(s.rows, op.id) {
      var row := s.rows[op.id];
      var approved := Decide(s, op.id, Approved, op.who, None, op.now).value;
      if PatchedDocument(pf, s.disk.texts, row.site, row.ops).Success? {
        WritingKeepsAllLoad(pf, s.disk, row.site, row.ops, op.now);
        assert Step(pf, s, op) == ApplyApproved(pf, approved, op.id, op.now, op.rerun);
      }
    }
  }

  /**
   A rerun raises, and its patch stays in the file without having succeeded, exactly when the
   patch could be written and some other site's file does not load or validate.
  */
  lemma StrandedExactlyWhen(pf: Platform, s: State, id: int, who: string, now: int, rerun: RunInput)
    requires RoundTrips(pf) && IsPending(s.rows, id)
    ensures var site := s.rows[id].site;
            Approve(pf, s, id, who, now, rerun).1 == Threw(RerunCrash) <==>
            && PatchedDocument(pf, s.disk.texts, site, s.rows[id].ops).Success?
            && exists f | f in s.disk.texts && f != site :: !Loads(pf, s.disk.texts[f])
  {
    var site, approved := s.rows[id].site, Decide(s, id, Approved, who, None, now).value;
    var doc := PatchedDocument(pf, s.disk.texts, site, s.rows[id].ops);
    assert Approve(pf, s, id, who, now, rerun) == ApplyApproved(pf, approved, id, now, rerun);
    if doc.Success? {
      var w := WritePatch(pf, approved, id, doc.value, now);
      RerunKeepsDisk(pf, w, site, rerun);
      assert Loads(pf, w.disk.texts[site]);
      forall f | f in s.disk.texts && f != site
        ensures w.disk.texts[f] == s.disk.texts[f]
      {
      }
      assert AllLoad(pf, w.disk.texts) <==> forall f | f in s.disk.texts && f != site :: Loads(pf, s.disk.texts[f]);
    }
  }

  /** What it leaves behind: the row approved, the patch in the file, and no rollback in the audit log. */
  lemma StrandedPatchStays(pf: Platform, s: State, id: int, other: string, who: string, now: int, rerun: RunInput)
    requires IsPending(s.rows, id)
    requires PatchedDocument(pf, s.disk.texts, s.rows[id].site, s.rows[id].ops).Success?
    requires other in s.disk.texts && other != s.rows[id].site && !Loads(pf, s.disk.texts[other])
    ensures var (t, r) := Approve(pf, s, id, who, now, rerun);
            && r == Threw(RerunCrash)
            && t.rows == Settled(s.rows, id, Approved, now, who, None)
            && t.disk.texts == s.disk.texts[s.rows[id].site := PatchedText(pf, s, id)]
            && t.audit == s.audit + [ApprovalDecided(id, Approved, who), PatchApplied(id, s.rows[id].site)]
  {
    var site, approved := s.rows[id].site, Decide(s, id, Approved, who, None, now).value;
    var w := WritePatch(pf, approved, id, PatchedDocument(pf, s.disk.texts, site, s.rows[id].ops).value, now);
    assert !Loads(pf, w.disk.texts[other]);
    assert RerunSite(pf, w, site, rerun) == (w, RerunRaised);
    assert Approve(pf, s, id, who, now, rerun) == ApplyApproved(pf, approved, id, now, rerun);
  }

  /** The ids whose approval was applied and whose rerun succeeded. */
  function Succeeded(pf: Platform, s: State, ops: seq<Op>): seq<int> {
    if ops == [] then []
    else
      var init, last := ops[..|ops| - 1], ops[|ops| - 1];
      Succeeded(pf, s, init) +
      if last.ApproveOp? && Step(pf, After(pf, s, init), last).1 == Applied(true) then [last.id] else []
  }

  /**
   From valid configs, over any serial run: the configs stay valid, and the patches left in
   the files are exactly those of the approvals whose rerun succeeded.
  */
  lemma {:induction false} ValidRunsKeepSuccesses(pf: Platform, s: State, ops: seq<Op>)
    requires RoundTrips(pf) && AllLoad(pf, s.disk.texts)
    ensures AllLoad(pf, After(pf, s, ops).disk.texts) && Kept(pf, s, ops) == Succeeded(pf, s, ops)
  {
    if ops != [] {
      ValidRunsKeepSuccesses(pf, s, ops[..|ops| - 1]);
      StepStaysValid(pf, After(pf, s, ops[..|ops| - 1]), ops[|ops| - 1]);
    }
  }

  // ---------- the audit log agrees ----------

  predicate AboutFiles(e: Event) {
    e.PatchApplied? || e.PatchRolledBack?
  }

  /** Lines that are not about files neither put a patch into one nor take it out. */
  lemma {:induction false} SameLive(audit: seq<Event>, more: seq<Event>, id: int)
    requires forall e | e in more :: !AboutFiles(e)
    requires StageOf(audit + more, id) != Wrong
    ensures StageOf(audit + more, id) == Live <==> StageOf(audit, id) == Live
  {
    if more == [] {
      assert audit + [] == audit;
    } else {
      var init, last := more[..|more| - 1], more[|more| - 1];
      assert audit + more == (audit + init) + [last];
      StageSnoc(audit + init, last, id);
      SameLive(audit, init, id);
      assert !AboutFiles(last);
    }
  }

  /** The audit log of the second state continues that of the first with lines that are not about files. */
  ghost predicate Quiet(s: State, t: State) {
    exists more: seq<Event> :: t.audit == s.audit + more && forall e | e in more :: !AboutFiles(e)
  }

  lemma QuietBy(s: State, t: State, more: seq<Event>)
    requires t.audit == s.audit + more && forall e | e in more :: !AboutFiles(e)
    ensures Quiet(s, t)
  {
  }

  lemma {:induction false} ExpiriesAreQuiet(ids: seq<int>)
    ensures forall e | e in ExpiredEvents(ids) :: !AboutFiles(e)
  {
    if ids != [] {
      ExpiriesAreQuiet(ids[..|ids| - 1]);
    }
  }

  lemma RunSiteIsQuiet(pf: Platform, s: State, site: string, run: RunInput)
    ensures Quiet(s, RunSite(pf, s, site, run).0) && Quiet(s, RerunSite(pf, s, site, run).0)
  {
    QuietBy(s, s, []);
    var t := RunSite(pf, s, site, run).0;
    if t.audit == s.audit {
      QuietBy(s, t, []);
    } else {
      QuietBy(s, t, [ApprovalCreated(s.nextId, run.runId, site)]);
    }
  }

  lemma RegenerateIsQuiet(pf: Platform, s: State, id: int, who: string, now: int, heal: Healing)
    requires s.nextId !in s.rows
    ensures Quiet(s, Regenerate(pf, s, id, who, now, heal).0)
  {
    var t := Regenerate(pf, s, id, who, now, heal).0;
    if t == s {
      QuietBy(s, t, []);
    } else {
      var made := ApprovalCreated(s.nextId, s.rows[id].runId, s.rows[id].site);
      var gone := ApprovalDecided(id, Superseded, who);
      if t.nextId == s.nextId {
        assert t == SupersedeOnly(s, id, who, now).0;
        QuietBy(s, t, [gone]);
      } else {
        SupplantLines(s, id, who, now, heal.reply.ops, t.madeOn[s.nextId], heal.card);
        QuietBy(s, t, [made, gone]);
      }
    }
  }

  lemma SupplantLines(s: State, id: int, who: string, now: int, ops: seq<PatchOp>, base: Tree, card: Option<Thread>)
    requires IsPending(s.rows, id) && id != s.nextId
    ensures Supplant(s, id, ops, who, now, base, card).0.audit ==
            s.audit + [ApprovalCreated(s.nextId, s.rows[id].runId, s.rows[id].site),
                       ApprovalDecided(id, Superseded, who)]
  {
  }

  lemma OthersAreQuiet(pf: Platform, s: State, op: Op)
    requires !op.ApproveOp? && s.nextId !in s.rows
    ensures Quiet(s, Step(pf, s, op).0)
  {
    QuietBy(s, s, []);
    var t := Step(pf, s, op).0;
    match op
    case Collect(site, run) => RunSiteIsQuiet(pf, s, site, run);
    case RejectOp(id, who, reason, now) =>
      if t != s {
        QuietBy(s, t, [ApprovalDecided(id, Rejected, who)]);
      }
    case RegenerateOp(id, who, now, heal) => RegenerateIsQuiet(pf, s, id, who, now, heal);
    case ExpireOp(now) =>
      ExpiriesAreQuiet(DueIds(s.rows, s.nextId, now));
      QuietBy(s, t, ExpiredEvents(DueIds(s.rows, s.nextId, now)));
  }

  lemma QuietLive(s: State, t: State, id: int)
    requires Quiet(s, t) && StageOf(t.audit, id) != Wrong
    ensures StageOf(t.audit, id) == Live <==> StageOf(s.audit, id) == Live
  {
    var more :| t.audit == s.audit + more && forall e | e in more :: !AboutFiles(e);
    SameLive(s.audit, more, id);
  }

  lemma AfterRerunLive(s: State, id: int, site: string, now: int, result: Rerun, i: int)
    requires Slot(site, now) in s.disk.backups
    requires StageOf(AfterRerun(s, id, site, now, result).0.audit, i) != Wrong
    ensures var (t, r) := AfterRerun(s, id, site, now, result);
            && StageOf(s.audit, i) != Wrong
            && (StageOf(t.audit, i) == Live <==>
                StageOf(s.audit, i) == Live && (i != id || r == Applied(true) || r == Threw(RerunCrash)))
  {
  }

  /** From an approved row on: its patch ends up in the file exactly when the operation leaves it there. */
  lemma ApplyApprovedLive(pf: Platform, s: State, id: int, now: int, rerun: RunInput, i: int)
    requires id in s.rows && StageOf(s.audit, id) == Closed(Approved)
    ensures var (t, r) := ApplyApproved(pf, s, id, now, rerun);
            StageOf(t.audit, i) != Wrong ==>
              (StageOf(t.audit, i) == Live <==>
               StageOf(s.audit, i) == Live || (i == id && (r == Applied(true) || r == Threw(RerunCrash))))
  {
    if StageOf(ApplyApproved(pf, s, id, now, rerun).0.audit, i) == Wrong {
      return;
    }
    var site := s.rows[id].site;
    var doc := PatchedDocument(pf, s.disk.texts, site, s.rows[id].ops);
    if doc.Success? {
      var w := WritePatch(pf, s, id, doc.value, now);
      var (ran, result) := RerunSite(pf, w, site, rerun);
      assert ApplyApproved(pf, s, id, now, rerun) == AfterRerun(ran, id, site, now, result);
      RunSiteIsQuiet(pf, w, site, rerun);
      RerunKeepsDisk(pf, w, site, rerun);
      AfterRerunLive(ran, id, site, now, result, i);
      QuietLive(w, ran, i);
      StageSnoc(s.audit, PatchApplied(id, site), i);
    } else {
      StageSnoc(s.audit, ApplyFailed(id, site), i);
    }
  }

  lemma StepLive(pf: Platform, s: State, op: Op, id: int)
    requires Sound(pf, s) && OnePending(s.rows)
    ensures var (t, r) := Step(pf, s, op);
            StageOf(t.audit, id) == Live <==> StageOf(s.audit, id) == Live || (Wrote(op, r) && op.id == id)
  {
    var (t, r) := Step(pf, s, op);
    StepKeeps(pf, s, op);
    assert Told(t, id) && Told(s, id);
    if op.ApproveOp? {
      if IsPending(s.rows, op.id) {
        assert Told(s, op.id);
        var approved := Decide(s, op.id, Approved, op.who, None, op.now).value;
        StageSnoc(s.audit, ApprovalDecided(op.id, Approved, op.who), id);
        StageSnoc(s.audit, ApprovalDecided(op.id, Approved, op.who), op.id);
        ApplyApprovedLive(pf, approved, op.id, op.now, op.rerun, id);
        assert Step(pf, s, op) == ApplyApproved(pf, approved, op.id, op.now, op.rerun);
      }
    } else {
      OthersAreQuiet(pf, s, op);
      QuietLive(s, t, id);
    }
  }

  /**
   The audit log names the patches in the files: an approval is among the kept ones exactly
   when its last line about files is a patch_applied. No approval is kept twice.
  */
  lemma {:induction false} KeptAreLive(pf: Platform, texts: map<string, string>, ops: seq<Op>, id: int)
    ensures var s, kept := Fresh(texts), Kept(pf, Fresh(texts), ops);
            && (id in kept <==> StageOf(After(pf, s, ops).audit, id) == Live)
            && (forall i, j | 0 <= i < j < |kept| && kept[i] == id :: kept[j] != id)
  {
    if ops != [] {
      var s, init, op := Fresh(texts), ops[..|ops| - 1], ops[|ops| - 1];
      var t := After(pf, s, init);
      KeptAreLive(pf, texts, init, id);
      RunsAreSound(pf, texts, init);
      StepLive(pf, t, op, id);
      StepTexts(pf, t, op);
      assert Told(t, id);
    }
  }
}
