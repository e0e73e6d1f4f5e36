/**
 More about interleavings: the audit log has one decision line per approval at most; no file
 ever holds a patch twice, or one that was not approved; and what the expiry sweep, whose
 UPDATE does not look at the status again, does to decided rows.
*/
module InterleavingFacts {
  import opened Results
  import opened Approvals
  import opened Interleaving

  // ---------- what a statement leaves alone ----------

  /** t differs from s in process i, and otherwise only in what the statement is about. */
  predicate Framed(s: Sys, i: int, t: Sys)
    requires 0 <= i < |s.procs|
  {
    var pc := s.procs[i].pc;
    && t.log == s.log && |t.procs| == |s.procs| && (forall j | 0 <= j < |s.procs| && j != i :: t.procs[j] == s.procs[j])
    && (pc.Updating? || pc.Making? || pc.Sweeping? || t.rows == s.rows)
    && (pc.Updating? || t.wins == s.wins)
    && (pc.Recording? || t.lines == s.lines)
    && (pc.Saving? || t.writes == s.writes)
    && (pc.Saving? || pc.Undoing? || t.files == s.files)
    && (pc.Copying? || t.backups == s.backups)
  }

  /** Which statement comes before those of _decide, and before the backup and the write of a patch. */
  predicate Follows(s: Sys, pc: Pc, next: Pc) {
    && (next.Checking? ==> pc.Looking? || pc.Making?)
    && (next.Updating? ==> pc.Checking?)
    && (next.Recording? ==> pc.Updating?)
    && (next.Copying? ==> pc.Reading? && next.base == Content(s, pc.d.approvalId))
    && (next.Saving? ==> pc.Copying? && next.base == pc.base)
  }

  lemma DecidesFramed(s: Sys, i: int, c: Choice)
    requires 0 <= i < |s.procs|
    requires OnTable(s.procs[i].pc)
    ensures var t := Decides(s, i, s.procs[i].pc, c);
            Framed(s, i, t) && |t.procs| == |s.procs| && Follows(s, s.procs[i].pc, t.procs[i].pc)
  {
    hide Settled, Content;
  }

  lemma AppliesFramed(s: Sys, i: int, c: Choice)
    requires 0 <= i < |s.procs|
    requires OnFiles(s.procs[i].pc)
    ensures var t := Applies(s, i, s.procs[i].pc, c);
            Framed(s, i, t) && |t.procs| == |s.procs| && Follows(s, s.procs[i].pc, t.procs[i].pc)
  {
    hide Stored, Content, SlotOf;
  }

  lemma OthersFramed(s: Sys, i: int, c: Choice)
    requires 0 <= i < |s.procs|
    requires !OnTable(s.procs[i].pc) && !OnFiles(s.procs[i].pc)
    ensures var t := Executed(s, i, c);
            Framed(s, i, t) && |t.procs| == |s.procs| && Follows(s, s.procs[i].pc, t.procs[i].pc)
  {
    hide Swept, Content, Q.Pending;
  }

  lemma ExecutedFrame(s: Sys, i: int, c: Choice)
    requires 0 <= i < |s.procs|
    ensures var t := Executed(s, i, c); Framed(s, i, t)
    ensures var t := Executed(s, i, c); |t.procs| == |s.procs| && Follows(s, s.procs[i].pc, t.procs[i].pc)
  {
    hide Decides, Applies, Swept, Framed, Follows, Q.Pending;
    var pc := s.procs[i].pc;
    if OnFiles(pc) {
      AppliesFramed(s, i, c);
      assert Executed(s, i, c) == Applies(s, i, pc, c);
    } else if OnTable(pc) {
      DecidesFramed(s, i, c);
      assert Executed(s, i, c) == Decides(s, i, pc, c);
    } else {
      OthersFramed(s, i, c);
    }
  }

  // ---------- decision lines ----------

  /** The decision lines are of wins, no two of the same one, and a process about to write one has not written it. */
  ghost predicate LinesOnce(s: Sys) {
    && (forall k | 0 <= k < |s.lines| :: s.lines[k] in s.wins)
    && (forall k, l | 0 <= k < l < |s.lines| :: s.lines[k] != s.lines[l])
    && (forall i | 0 <= i < |s.procs| && s.procs[i].pc.Recording? ::
          Line(s.procs[i].pc, i) in s.wins && Line(s.procs[i].pc, i) !in s.lines)
  }

  function Line(pc: Pc, i: int): Win
    requires pc.Recording?
  {
    Win(pc.d.approvalId, pc.status, i)
  }

  lemma ExecutedLinesOnce(s: Sys, i: int, c: Choice)
    requires LinesOnce(s) && 0 <= i < |s.procs|
    requires forall w | w in s.wins :: !IsPending(s.rows, w.id)
    ensures LinesOnce(Executed(s, i, c))
  {
    ExecutedFrame(s, i, c);
    if s.procs[i].pc.Updating? {
      UpdateLinesOnce(s, i, c);
    } else if s.procs[i].pc.Recording? {
      RecordLinesOnce(s, i, c);
    } else {
      hide Executed;
    }
  }

  lemma UpdateLinesOnce(s: Sys, i: int, c: Choice)
    requires LinesOnce(s) && 0 <= i < |s.procs| && s.procs[i].pc.Updating?
    requires forall w | w in s.wins :: !IsPending(s.rows, w.id)
    ensures LinesOnce(Executed(s, i, c))
  {
    var pc, t := s.procs[i].pc, Executed(s, i, c);
    if IsPending(s.rows, pc.d.approvalId) {
      var win := Win(pc.d.approvalId, pc.status, i);
      assert t.wins == s.wins + [win] && win !in s.lines;
    }
  }

  lemma RecordLinesOnce(s: Sys, i: int, c: Choice)
    requires LinesOnce(s) && 0 <= i < |s.procs| && s.procs[i].pc.Recording?
    ensures LinesOnce(Executed(s, i, c))
  {
    assert Executed(s, i, c).lines == s.lines + [Line(s.procs[i].pc, i)];
  }

  lemma NextLinesOnce(s: Sys, a: Action)
    requires Inv(s) && LinesOnce(s)
    ensures LinesOnce(Next(s, a))
  {
    match a
    case Run(i, c) =>
      if 0 <= i < |s.procs| {
        forall w | w in s.wins
          ensures !IsPending(s.rows, w.id)
        {
          WinIsDecided(s, w);
        }
        ExecutedLinesOnce(s, i, c);
      }
    case _ =>
  }

  lemma {:induction false} FinalLinesOnce(sites: set<string>, actions: seq<Action>)
    ensures LinesOnce(Final(Start(sites), actions))
  {
    if actions != [] {
      FinalLinesOnce(sites, actions[..|actions| - 1]);
      FinalKeeps(sites, actions[..|actions| - 1]);
      NextLinesOnce(Final(Start(sites), actions[..|actions| - 1]), actions[|actions| - 1]);
    }
  }

  /**
   In every interleaving the audit log has at most one decision line per approval, and only for
   updates that succeeded.
  */
  lemma OneDecisionLine(sites: set<string>, actions: seq<Action>)
    ensures var s := Final(Start(sites), actions);
            && (forall k | 0 <= k < |s.lines| :: s.lines[k] in s.wins)
            && (forall k, l | 0 <= k < l < |s.lines| :: s.lines[k].id != s.lines[l].id)
  {
    FinalKeeps(sites, actions);
    FinalLinesOnce(sites, actions);
    var s := Final(Start(sites), actions);
    forall k, l | 0 <= k < l < |s.lines|
      ensures s.lines[k].id != s.lines[l].id
    {
      if s.lines[k].id == s.lines[l].id {
        SameIdSameWin(s, s.lines[k], s.lines[l]);
      }
    }
  }

  lemma SameIdSameWin(s: Sys, a: Win, b: Win)
    requires Inv(s) && a in s.wins && b in s.wins && a.id == b.id
    ensures a == b
  {
  }

  // ---------- what is in the files ----------

  /** The content a process carries from reading the file to writing it. */
  function Carried(pc: Pc): seq<int> {
    if pc.Copying? || pc.Saving? then pc.base else []
  }

  /** Patches that have been written, each once. */
  ghost predicate OnceEach(writes: seq<int>, ids: seq<int>) {
    && (forall id | id in ids :: id in writes)
    && (forall k, l | 0 <= k < l < |ids| :: ids[k] != ids[l])
  }

  /** Every file, every backup, and whatever a process is about to write holds written patches only, and each once. */
  ghost predicate FilesHold(s: Sys) {
    && (forall site | site in s.files :: OnceEach(s.writes, s.files[site]))
    && (forall slot | slot in s.backups :: OnceEach(s.writes, s.backups[slot]))
    && (forall i | 0 <= i < |s.procs| :: OnceEach(s.writes, Carried(s.procs[i].pc)))
  }

  lemma ExecutedFilesHold(s: Sys, i: int, c: Choice)
    requires Inv(s) && FilesHold(s) && 0 <= i < |s.procs|
    ensures FilesHold(Executed(s, i, c))
  {
    hide OnceEach, Inv;
    NothingHeld(s.writes);
    match s.procs[i].pc
    case Saving(d, base, slot) => SaveHolds(s, i, d, base, slot);
    case Copying(_, _) => FileStatementHolds(s, i, c);
    case Undoing(_, _) => FileStatementHolds(s, i, c);
    case _ =>
      hide Executed, Next;
      ExecutedFrame(s, i, c);
  }

  /** Backing a file up, and copying the backup back. */
  lemma FileStatementHolds(s: Sys, i: int, c: Choice)
    requires FilesHold(s) && 0 <= i < |s.procs| && (s.procs[i].pc.Copying? || s.procs[i].pc.Undoing?)
    ensures FilesHold(Executed(s, i, c))
  {
    hide OnceEach, SlotOf;
    NothingHeld(s.writes);
    assert OnceEach(s.writes, Carried(s.procs[i].pc));
  }

  /** A patch is written that had not been written yet. */
  lemma SaveHolds(s: Sys, i: int, d: Q.Decision, base: seq<int>, slot: SitePatching.Slot)
    requires Inv(s) && FilesHold(s) && 0 <= i < |s.procs| && s.procs[i].pc == Saving(d, base, slot)
    ensures FilesHold(s.(files := Stored(s, d.approvalId, base + [d.approvalId]), writes := s.writes + [d.approvalId],
                         procs := s.procs[i := s.procs[i].(pc := Rerunning(d, slot))]))
  {
    assert Holds(s.procs[i].pc, d.approvalId);
    assert OnceEach(s.writes, Carried(s.procs[i].pc));
    WriteHolds(s, d.approvalId, base);
  }

  /** Writing a patch that has not been written yet. */
  lemma WriteHolds(s: Sys, id: int, base: seq<int>)
    requires FilesHold(s) && OnceEach(s.writes, base) && id !in s.writes
    ensures OnceEach(s.writes + [id], base + [id])
    ensures FilesHold(s.(writes := s.writes + [id]))
  {
  }

  lemma NextFilesHold(s: Sys, a: Action)
    requires Inv(s) && FilesHold(s)
    ensures FilesHold(Next(s, a))
  {
    hide Inv, OnceEach;
    match a
    case Run(i, c) =>
      if 0 <= i < |s.procs| {
        ExecutedFilesHold(s, i, c);
      }
    case Spawn(todo) =>
      NothingHeld(s.writes);
    case _ =>
      NothingHeld(s.writes);
  }

  lemma NothingHeld(writes: seq<int>)
    ensures OnceEach(writes, [])
  {
  }

  /** In every interleaving no file, backup or carried content holds a patch twice, or one that was never written. */
  lemma {:induction false} FilesHoldOnce(sites: set<string>, actions: seq<Action>)
    ensures FilesHold(Final(Start(sites), actions))
  {
    if actions != [] {
      var s := Final(Start(sites), actions[..|actions| - 1]);
      FilesHoldOnce(sites, actions[..|actions| - 1]);
      FinalKeeps(sites, actions[..|actions| - 1]);
      NextFilesHold(s, actions[|actions| - 1]);
    }
  }

  /** In every interleaving, every patch whose text is in a file or a backup, or about to be written, was approved. */
  lemma OnlyApprovedInFiles(sites: set<string>, actions: seq<Action>)
    ensures var s := Final(Start(sites), actions);
            && (forall site, id | site in s.files && id in s.files[site] :: WonApproval(s.wins, id))
            && (forall slot, id | slot in s.backups && id in s.backups[slot] :: WonApproval(s.wins, id))
            && (forall i, id | 0 <= i < |s.procs| && id in Carried(s.procs[i].pc) :: WonApproval(s.wins, id))
  {
    FilesHoldOnce(sites, actions);
    FinalKeeps(sites, actions);
    WrittenWasWon(Final(Start(sites), actions));
  }

  lemma WrittenWasWon(s: Sys)
    requires Inv(s)
    ensures forall id | id in s.writes :: WonApproval(s.wins, id)
  {
    forall id | id in s.writes
      ensures WonApproval(s.wins, id)
    {
      var k :| 0 <= k < |s.writes| && s.writes[k] == id;
    }
  }

  // ---------- the sweep ----------

  /**
   The sweep's UPDATE leaves the status of every decided row alone exactly when no selected row
   has been decided otherwise since.
  */
  lemma SweepSparesExactlyWhen(rows: Rows, ids: seq<int>, now: int)
    ensures (forall id | id in rows && rows[id].status != Pending ::
               Swept(rows, ids, now)[id].status == rows[id].status) <==>
            (forall id | id in ids && id in rows :: rows[id].status == Pending || rows[id].status == Expired)
  {
  }

  /** If the action is a sweep's UPDATE, every row it names is still pending. */
  predicate CleanSweep(s: Sys, a: Action) {
    a.Run? && 0 <= a.i < |s.procs| && s.procs[a.i].pc.Sweeping? ==>
      forall id | id in s.procs[a.i].pc.ids :: IsPending(s.rows, id)
  }

  predicate CleanSweeps(s: Sys, actions: seq<Action>) {
    actions == [] ||
    (CleanSweeps(s, actions[..|actions| - 1]) && CleanSweep(Final(s, actions[..|actions| - 1]), actions[|actions| - 1]))
  }

  /** A sweep with nothing between its SELECT and its UPDATE is clean. */
  lemma AtomicSweepIsClean(s: Sys, i: int, now: int, c: Choice)
    requires 0 <= i < |s.procs| && s.procs[i] == Proc(Idle, [])
    ensures CleanSweep(Next(s, Sweep(i, now)), Run(i, c))
  {
  }

  /** Every won row still has the status it was won with. */
  ghost predicate WinsStand(s: Sys) {
    forall w | w in s.wins :: w.id in s.rows && s.rows[w.id].status == w.status
  }

  /** If the action is a sweep's UPDATE, it names no row that was won. */
  predicate Spares(s: Sys, a: Action) {
    a.Run? && 0 <= a.i < |s.procs| && s.procs[a.i].pc.Sweeping? ==>
      forall w | w in s.wins :: w.id !in s.procs[a.i].pc.ids
  }

  predicate AllSpare(s: Sys, actions: seq<Action>) {
    actions == [] ||
    (AllSpare(s, actions[..|actions| - 1]) && Spares(Final(s, actions[..|actions| - 1]), actions[|actions| - 1]))
  }

  /** The action is a sweep's UPDATE that names the row. */
  predicate Sweeps(s: Sys, a: Action, id: int) {
    a.Run? && 0 <= a.i < |s.procs| && s.procs[a.i].pc.Sweeping? && id in s.procs[a.i].pc.ids
  }

  /** What an action does to the status of a row that is not pending. */
  lemma StatusAfter(s: Sys, a: Action, id: int)
    requires id in s.rows && id < s.nextId && s.rows[id].status != Pending
    ensures id in Next(s, a).rows
    ensures Next(s, a).rows[id].status == if Sweeps(s, a, id) then Expired else s.rows[id].status
  {
    hide Executed, Q.Ids, DueIds, QueueIds;
    if a.Run? && 0 <= a.i < |s.procs| {
      StatusExecuted(s, a.i, a.c, id);
    }
  }

  lemma StatusExecuted(s: Sys, i: int, c: Choice, id: int)
    requires 0 <= i < |s.procs| && id in s.rows && id < s.nextId && s.rows[id].status != Pending
    ensures var t := Executed(s, i, c);
            id in t.rows && t.rows[id].status == if Sweeps(s, Run(i, c), id) then Expired else s.rows[id].status
  {
    var pc := s.procs[i].pc;
    if pc.Updating? || pc.Making? || pc.Sweeping? {
    } else {
      hide Executed;
      ExecutedFrame(s, i, c);
    }
  }

  /** An action adds one win at most, of a row that was pending and now has the status it was won with. */
  lemma WinsAfter(s: Sys, a: Action)
    ensures var t := Next(s, a);
            t.wins == s.wins ||
            exists w :: t.wins == s.wins + [w] && w.id in t.rows && t.rows[w.id].status == w.status && Spares(s, a)
  {
    hide Stored, Content, SlotOf, Looked, Checked, Swept, Q.Pending, Q.Ids, DueIds, QueueIds;
    if a.Run? && 0 <= a.i < |s.procs| && s.procs[a.i].pc.Updating? {
      var pc := s.procs[a.i].pc;
      if IsPending(s.rows, pc.d.approvalId) {
        var w := Win(pc.d.approvalId, pc.status, a.i);
        assert Next(s, a).wins == s.wins + [w];
      }
    }
  }

  lemma StandsStep(s: Sys, a: Action)
    requires WinsStand(s)
    requires forall w | w in s.wins :: 1 <= w.id < s.nextId && w.id in s.rows && !IsPending(s.rows, w.id)
    ensures WinsStand(Next(s, a)) <==> Spares(s, a)
  {
    hide Next;
    WinsAfter(s, a);
    forall w | w in s.wins
      ensures w in Next(s, a).wins && w.id in Next(s, a).rows
      ensures Next(s, a).rows[w.id].status == if Sweeps(s, a, w.id) then Expired else w.status
    {
      StatusAfter(s, a, w.id);
    }
  }

  /** A won row that has lost its status does not get it back. */
  lemma LostStays(s: Sys, a: Action, w: Win)
    requires w in s.wins && w.id in s.rows && w.id < s.nextId && !IsPending(s.rows, w.id)
    requires s.rows[w.id].status != w.status
    ensures !WinsStand(Next(s, a))
  {
    hide Next;
    WinsAfter(s, a);
    StatusAfter(s, a, w.id);
    assert w in Next(s, a).wins;
  }

  lemma WinsAreDecided(s: Sys)
    requires Inv(s)
    ensures forall w | w in s.wins :: 1 <= w.id < s.nextId && w.id in s.rows && !IsPending(s.rows, w.id)
  {
    forall w | w in s.wins
      ensures 1 <= w.id < s.nextId && w.id in s.rows && !IsPending(s.rows, w.id)
    {
      WinIsDecided(s, w);
    }
  }

  /**
   In every interleaving, every decision that was made still stands at the end exactly when
   no sweep's UPDATE ever named a row that had been won.
  */
  lemma {:induction false} DecisionsStandExactlyWhen(sites: set<string>, actions: seq<Action>)
    ensures WinsStand(Final(Start(sites), actions)) <==> AllSpare(Start(sites), actions)
  {
    if actions != [] {
      var init, a := actions[..|actions| - 1], actions[|actions| - 1];
      var s := Final(Start(sites), init);
      DecisionsStandExactlyWhen(sites, init);
      FinalKeeps(sites, init);
      WinsAreDecided(s);
      if WinsStand(s) {
        StandsStep(s, a);
      } else {
        var w :| w in s.wins && s.rows[w.id].status != w.status;
        LostStays(s, a, w);
      }
    }
  }

  /** When every sweep finds its rows pending, a decision once made is final, in every interleaving. */
  lemma DecisionsAreFinal(sites: set<string>, actions: seq<Action>)
    requires CleanSweeps(Start(sites), actions)
    ensures WinsStand(Final(Start(sites), actions))
  {
    CleanSweepsSpare(sites, actions);
    DecisionsStandExactlyWhen(sites, actions);
  }

  lemma {:induction false} CleanSweepsSpare(sites: set<string>, actions: seq<Action>)
    requires CleanSweeps(Start(sites), actions)
    ensures AllSpare(Start(sites), actions)
  {
    if actions != [] {
      var init := actions[..|actions| - 1];
      CleanSweepsSpare(sites, init);
      FinalKeeps(sites, init);
      WinsAreDecided(Final(Start(sites), init));
    }
  }

  // ---------- and when it does not ----------

  ghost predicate Reachable(sites: set<string>, s: Sys) {
    exists actions :: Final(Start(sites), actions) == s
  }

  lemma ReachNext(sites: set<string>, s: Sys, a: Action)
    requires Reachable(sites, s)
    ensures Reachable(sites, Next(s, a))
  {
    var actions :| Final(Start(sites), actions) == s;
    assert (actions + [a])[..|actions|] == actions;
    assert Final(Start(sites), actions + [a]) == Next(s, a);
  }

  lemma Do(sites: set<string>, s: Sys, a: Action) returns (t: Sys)
    requires Reachable(sites, s)
    ensures t == Next(s, a) && Reachable(sites, t)
  {
    t := Next(s, a);
    ReachNext(sites, s, a);
  }

  /** A pending row, a poller about to approve it, and a second process with nothing to do. */
  lemma AboutToApprove(site: string, d: Q.Decision) returns (s: Sys)
    requires d.approvalId == 1 && d.kind == Q.Approve
    ensures Reachable({site}, s)
    ensures s.rows == map[1 := Row("run", site, [], Pending, 0, 24 * 3600, None, None, None, None)]
    ensures s.nextId == 2 && s.procs == [Proc(Updating(d, Approved), []), Proc(Idle, [])]
    ensures s.wins == [] && s.writes == [] && s.files == map[site := []]
  {
    hide Reachable;
    var c := Choice(2, 0, true);
    s := StartReached(site);
    s := Do({site}, s, Heal("run", site, [], 0));
    s := Do({site}, s, Spawn([d]));
    s := Do({site}, s, Spawn([]));
    assert s.procs == [Proc(Idle, [d]), Proc(Idle, [])];
    s := Do({site}, s, Run(0, c));
    assert [d][1..] == [];
    assert s.procs == [Proc(Looking(d), []), Proc(Idle, [])];
    s := Do({site}, s, Run(0, c));
    assert s.procs == [Proc(Checking(d, Approved), []), Proc(Idle, [])];
    s := Do({site}, s, Run(0, c));
  }

  lemma StartReached(site: string) returns (s: Sys)
    ensures s == Start({site}) && s.files == map[site := []] && Reachable({site}, s)
  {
    s := Start({site});
    assert Final(Start({site}), []) == s;
  }

  /**
   The decision does not stand: a sweep selects the row, the poller approves it, the sweep updates it, the poller writes
   its patch: the row is expired, and its patch is in the file.
  */
  lemma SweepOverwritesApproval(site: string, d: Q.Decision) returns (s: Sys)
    requires d.approvalId == 1 && d.kind == Q.Approve
    ensures Reachable({site}, s)
    ensures Win(1, Approved, 0) in s.wins && 1 in s.rows && s.rows[1].status == Expired
    ensures s.writes == [1] && s.files == map[site := [1]]
  {
    hide Reachable;
    s := AboutToApprove(site, d);
    s := ApprovedThenSwept(site, s, d);
    s := ApprovalGoesOn(site, s, d);
  }

  lemma ApprovedThenSwept(site: string, before: Sys, d: Q.Decision) returns (s: Sys)
    requires Reachable({site}, before) && d.approvalId == 1
    requires before.rows == map[1 := Row("run", site, [], Pending, 0, 24 * 3600, None, None, None, None)]
    requires before.procs == [Proc(Updating(d, Approved), []), Proc(Idle, [])]
    requires before.nextId == 2 && before.wins == []
    ensures Reachable({site}, s)
    ensures 1 in s.rows && s.rows[1].status == Expired && s.rows[1].site == site && s.wins == [Win(1, Approved, 0)]
    ensures s.procs == [Proc(Recording(d, Approved), []), Proc(Idle, [])]
    ensures s.writes == before.writes && s.files == before.files
  {
    hide Reachable, Swept, DueIds, Looked, Stored, Content, Inserted, Q.Pending;
    var c := Choice(2, 24 * 3600, true);
    s := Do({site}, before, Sweep(1, 24 * 3600));
    var ids := DueIds(s.rows, 2, 24 * 3600);
    assert 1 in ids;
    assert s.procs == [Proc(Updating(d, Approved), []), Proc(Sweeping(ids, 24 * 3600), [])];
    s := Do({site}, s, Run(0, c));
    assert s.procs == [Proc(Recording(d, Approved), []), Proc(Sweeping(ids, 24 * 3600), [])];
    SweptRow(s.rows, ids, 24 * 3600);
    s := Do({site}, s, Run(1, c));
  }

  lemma SweptRow(rows: Rows, ids: seq<int>, now: int)
    requires 1 in rows && 1 in ids
    ensures 1 in Swept(rows, ids, now) && Swept(rows, ids, now)[1] == Lapsed(rows[1], now)
  {
  }

  lemma ApprovalGoesOn(site: string, before: Sys, d: Q.Decision) returns (s: Sys)
    requires Reachable({site}, before) && d.approvalId == 1
    requires before.procs == [Proc(Recording(d, Approved), []), Proc(Idle, [])]
    requires 1 in before.rows && before.rows[1].site == site && before.writes == [] && before.files == map[site := []]
    ensures Reachable({site}, s) && s.rows == before.rows && s.wins == before.wins
    ensures s.writes == [1] && s.files == map[site := [1]]
  {
    hide Reachable;
    var c := Choice(2, 0, true);
    s := Do({site}, before, Run(0, c));
    assert s.procs == [Proc(Reading(d), []), Proc(Idle, [])];
    s := Do({site}, s, Run(0, c));
    assert s.procs == [Proc(Copying(d, []), []), Proc(Idle, [])];
    s := Do({site}, s, Run(0, c));
    assert s.procs[0] == Proc(Saving(d, [], SlotOf(before, 1, 0)), []) && |s.procs| == 2;
    s := Do({site}, s, Run(0, c));
  }
}
