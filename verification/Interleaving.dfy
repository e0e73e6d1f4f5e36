/**
 The protocol statement by statement: any number of pollers, command-line deciders and
 expiry sweeps on one approval table, one queue and one set of files, interleaved in any
 order, with stale fetches, duplicate clicks, lost acks and crashes between any two
 statements (app/runner/decision_poller.py, app/patching/decision.py,
 app/approval/state_machine.py, app/storage/approval.py).
*/
module Interleaving {
  import opened Results
  import opened Approvals
  import opened Patch
  import Q = DecisionQueue
  import SitePatching

  /** What a decider can make of a pending row. */
  type Decision = s: Status | s == Approved || s == Rejected || s == Superseded witness Approved

  /**
   How a decision came to be acked: its approval did not exist when it was looked up and
   the next id was `before`; it was a regenerate that was refused, or failed in the dry
   run, without touching the row; or it was carried out, or found the row decided.
  */
  datatype Ending = Missed(before: int) | Refused | Done

  /** The statement a process is about to execute. */
  datatype Pc =
    | Idle
    | Fetching(acked: set<string>)                    // the ack log has been read, the queue log not yet
    | Looking(d: Q.Decision)                          // the first get
    | Making(d: Q.Decision)                           // regenerate: insert the successor
    | Checking(d: Q.Decision, status: Decision)       // the get of _decide
    | Updating(d: Q.Decision, status: Decision)       // UPDATE ... WHERE status='pending'
    | Recording(d: Q.Decision, status: Decision)      // the audit line of the decision
    | Reading(d: Q.Decision)                          // read the file, apply, validate
    | Copying(d: Q.Decision, base: seq<int>)          // back the file up
    | Saving(d: Q.Decision, base: seq<int>, slot: SitePatching.Slot)
    | Rerunning(d: Q.Decision, slot: SitePatching.Slot)
    | Undoing(d: Q.Decision, slot: SitePatching.Slot) // copy the backup back
    | Acking(d: Q.Decision, ending: Ending)
    | Sweeping(ids: seq<int>, now: int)               // the SELECT of the sweep is done, its UPDATE not yet
    | Dead

  datatype Proc = Proc(pc: Pc, todo: seq<Q.Decision>)

  /** A successful update_status, and the process it succeeded for. */
  datatype Win = Win(id: int, status: Decision, proc: int)

  /** A line of the ack log; the log itself has the queue id only. */
  datatype AckLine = AckLine(d: Q.Decision, ending: Ending)

  /**
   A file is named by the approvals whose patches its text contains; so is a backup, which
   any process can overwrite by backing up the same site in the same second. wins and
   writes are history: the successful updates and the patches written. lines are the
   decision lines of the audit log.
  */
  datatype Sys = Sys(rows: Rows, nextId: int, log: seq<Q.Line>, acks: seq<AckLine>,
                     files: map<string, seq<int>>, backups: map<SitePatching.Slot, seq<int>>,
                     procs: seq<Proc>, wins: seq<Win>, lines: seq<Win>, writes: seq<int>)

  /** What the world decides about one statement: which of its outcomes, the time, and whether an ack is recorded. */
  datatype Choice = Choice(branch: int, now: int, recorded: bool)

  datatype Action =
    | Click(d: Q.Decision)
    | Heal(runId: string, site: string, ops: seq<PatchOp>, now: int)
    | Spawn(todo: seq<Q.Decision>)
    | Fetch(i: int)
    | Sweep(i: int, now: int)
    | Run(i: int, c: Choice)
    | Crash(i: int)
    | Restart(i: int)

  function Inserted(s: Sys, runId: string, site: string, ops: seq<PatchOp>, now: int): Sys {
    s.(rows := s.rows[s.nextId := Row(runId, site, ops, Pending, now, now + 24 * 3600, None, None, None, None)],
       nextId := s.nextId + 1)
  }

  function Content(s: Sys, id: int): seq<int> {
    if id in s.rows && s.rows[id].site in s.files then s.files[s.rows[id].site] else []
  }

  function Stored(s: Sys, id: int, content: seq<int>): map<string, seq<int>> {
    if id in s.rows then s.files[s.rows[id].site := content] else s.files
  }

  function At(s: Sys, i: int, pc: Pc): Sys
    requires 0 <= i < |s.procs|
  {
    s.(procs := s.procs[i := s.procs[i].(pc := pc)])
  }

  /** The name of the backup of an approval's site. */
  function SlotOf(s: Sys, id: int, now: int): SitePatching.Slot {
    SitePatching.Slot(if id in s.rows then s.rows[id].site else "", now)
  }

  function QueueIds(acks: seq<AckLine>): seq<string> {
    seq(|acks|, i requires 0 <= i < |acks| => acks[i].d.queueId)
  }

  /** What the first get leads to. */
  function Looked(s: Sys, d: Q.Decision, branch: int): Pc {
    var id := d.approvalId;
    if id !in s.rows then Acking(d, Missed(s.nextId))
    else if s.rows[id].status != Pending then Acking(d, Done)
    else match d.kind
      case Approve => Checking(d, Approved)
      case Reject => Checking(d, Rejected)
      case Regenerate =>
        if branch == 0 || |OfRun(s.rows, s.rows[id].runId)| >= REGENERATE_LIMIT_PER_RUN then Acking(d, Refused)
        else if branch == 1 then Idle
        else if branch == 2 then Checking(d, Superseded)
        else Making(d)
  }

  /** What the get of _decide leads to; a row that is no longer pending is an error that is not acked. */
  function Checked(s: Sys, d: Q.Decision, status: Decision): Pc {
    if d.approvalId !in s.rows then Acking(d, Missed(s.nextId))
    else if s.rows[d.approvalId].status == Pending then Updating(d, status)
    else Idle
  }

  /** The statements of a decision on the table and the audit log. */
  predicate OnTable(pc: Pc) {
    pc.Looking? || pc.Making? || pc.Checking? || pc.Updating? || pc.Recording?
  }

  /** The statements of an approval on the files. */
  predicate OnFiles(pc: Pc) {
    pc.Reading? || pc.Copying? || pc.Saving? || pc.Rerunning? || pc.Undoing?
  }

  function Decides(s: Sys, i: int, pc: Pc, c: Choice): Sys
    requires 0 <= i < |s.procs| && OnTable(pc)
  {
    match pc
    case Looking(d) => At(s, i, Looked(s, d, c.branch))
    case Making(d) =>
      if d.approvalId in s.rows
      then At(Inserted(s, s.rows[d.approvalId].runId, s.rows[d.approvalId].site, [], c.now), i, Checking(d, Superseded))
      else At(s, i, Idle)
    case Checking(d, status) => At(s, i, Checked(s, d, status))
    case Updating(d, status) =>
      if IsPending(s.rows, d.approvalId) then
        At(s.(rows := Settled(s.rows, d.approvalId, status, c.now, d.who, None),
              wins := s.wins + [Win(d.approvalId, status, i)]), i, Recording(d, status))
      else At(s, i, Idle)
    case Recording(d, status) =>
      At(s.(lines := s.lines + [Win(d.approvalId, status, i)]), i,
         if status == Approved then Reading(d) else Acking(d, Done))
  }

  function Applies(s: Sys, i: int, pc: Pc, c: Choice): Sys
    requires 0 <= i < |s.procs| && OnFiles(pc)
  {
    match pc
    case Reading(d) =>
      At(s, i, if c.branch == 0 then Acking(d, Done)
               else if c.branch == 1 then Idle
               else Copying(d, Content(s, d.approvalId)))
    case Copying(d, base) =>
      var slot := SlotOf(s, d.approvalId, c.now);
      At(s.(backups := s.backups[slot := Content(s, d.approvalId)]), i, Saving(d, base, slot))
    case Saving(d, base, slot) =>
      At(s.(files := Stored(s, d.approvalId, base + [d.approvalId]), writes := s.writes + [d.approvalId]),
         i, Rerunning(d, slot))
    case Rerunning(d, slot) =>
      At(s, i, if c.branch == 0 then Acking(d, Done) else if c.branch == 1 then Undoing(d, slot) else Idle)
    case Undoing(d, slot) =>
      if slot in s.backups then At(s.(files := Stored(s, d.approvalId, s.backups[slot])), i, Acking(d, Done))
      else At(s, i, Idle)
  }

  /** The next statement of process i. */
  function Executed(s: Sys, i: int, c: Choice): Sys
    requires 0 <= i < |s.procs|
  {
    var p := s.procs[i];
    if OnTable(p.pc) then Decides(s, i, p.pc, c)
    else if OnFiles(p.pc) then Applies(s, i, p.pc, c)
    else match p.pc
      case Idle =>
        if p.todo == [] then s
        else s.(procs := s.procs[i := Proc(Looking(p.todo[0]), p.todo[1..])])
      case Fetching(acked) => s.(procs := s.procs[i := Proc(Idle, Q.Pending(s.log, acked))])
      case Acking(d, ending) => At(s.(acks := if c.recorded then s.acks + [AckLine(d, ending)] else s.acks), i, Idle)
      case Sweeping(ids, now) => At(s.(rows := Swept(s.rows, ids, now)), i, Idle)
      case _ => s
  }

  function Next(s: Sys, a: Action): Sys {
    match a
    case Click(d) => s.(log := s.log + [Q.Entry(d)])
    case Heal(runId, site, ops, now) => Inserted(s, runId, site, ops, now)
    case Spawn(todo) => s.(procs := s.procs + [Proc(Idle, todo)])
    case Fetch(i) =>
      if 0 <= i < |s.procs| && s.procs[i] == Proc(Idle, []) then At(s, i, Fetching(Q.Ids(QueueIds(s.acks)))) else s
    case Sweep(i, now) =>
      if 0 <= i < |s.procs| && s.procs[i] == Proc(Idle, [])
      then At(s, i, Sweeping(DueIds(s.rows, s.nextId, now), now))
      else s
    case Run(i, c) => if 0 <= i < |s.procs| then Executed(s, i, c) else s
    case Crash(i) => if 0 <= i < |s.procs| then s.(procs := s.procs[i := Proc(Dead, [])]) else s
    case Restart(i) => if 0 <= i < |s.procs| && s.procs[i].pc == Dead then At(s, i, Idle) else s
  }

  function Final(s: Sys, actions: seq<Action>): Sys {
    if actions == [] then s else Next(Final(s, actions[..|actions| - 1]), actions[|actions| - 1])
  }

  /** An empty table and files without patches of ours. */
  function Start(sites: set<string>): Sys {
    Sys(map[], 1, [], [], map site | site in sites :: [], map[], [], [], [], [])
  }

  // ---------- the invariant ----------

  /** Between its successful UPDATE and its write, a process holds the only right to write the patch. */
  predicate Holds(pc: Pc, id: int) {
    && (pc.Recording? || pc.Reading? || pc.Copying? || pc.Saving?)
    && pc.d.approvalId == id && (pc.Recording? ==> pc.status == Approved)
  }

  predicate Decided(rows: Rows, nextId: int, id: int) {
    1 <= id < nextId && !IsPending(rows, id)
  }

  /** Ids count up and rows stay; a row that was won is not pending, and was won once. */
  ghost predicate WinsOnce(rows: Rows, nextId: int, wins: seq<Win>) {
    && 1 <= nextId
    && (forall id :: id in rows <==> 1 <= id < nextId)
    && (forall k | 0 <= k < |wins| :: Decided(rows, nextId, wins[k].id))
    && (forall k, l | 0 <= k < l < |wins| :: wins[k].id != wins[l].id)
  }

  /** Whoever holds the right to write has won the approval, and has not written yet. */
  ghost predicate HoldersWon(procs: seq<Proc>, wins: seq<Win>, writes: seq<int>) {
    forall i, id | 0 <= i < |procs| && Holds(procs[i].pc, id) :: Win(id, Approved, i) in wins && id !in writes
  }

  predicate WonApproval(wins: seq<Win>, id: int) {
    exists w | w in wins :: w.id == id && w.status == Approved
  }

  ghost predicate WritesOnce(wins: seq<Win>, writes: seq<int>) {
    && (forall k | 0 <= k < |writes| :: WonApproval(wins, writes[k]))
    && (forall k, l | 0 <= k < l < |writes| :: writes[k] != writes[l])
  }

  /** The decision of a process that is past its successful UPDATE, or about to ack what is done. */
  predicate Past(pc: Pc) {
    || pc.Recording? || pc.Reading? || pc.Copying? || pc.Saving? || pc.Rerunning? || pc.Undoing?
    || (pc.Acking? && pc.ending == Done)
  }

  /** What an ending says about the approval: decided, or not made before the lookup, or not asked to be decided. */
  predicate Justified(rows: Rows, nextId: int, d: Q.Decision, ending: Ending) {
    match ending
    case Done => Decided(rows, nextId, d.approvalId)
    case Missed(before) => before <= nextId && !(1 <= d.approvalId < before)
    case Refused => d.kind == Q.Regenerate
  }

  /** The rows of decisions that are past are decided, and every ack is justified. */
  ghost predicate PastIsDecided(s: Sys) {
    && (forall a | a in s.acks :: Justified(s.rows, s.nextId, a.d, a.ending))
    && (forall i | 0 <= i < |s.procs| && s.procs[i].pc.Acking? ::
          Justified(s.rows, s.nextId, s.procs[i].pc.d, s.procs[i].pc.ending))
    && (forall i | 0 <= i < |s.procs| && Past(s.procs[i].pc) :: Decided(s.rows, s.nextId, s.procs[i].pc.d.approvalId))
  }

  ghost predicate Inv(s: Sys) {
    && WinsOnce(s.rows, s.nextId, s.wins)
    && HoldersWon(s.procs, s.wins, s.writes)
    && WritesOnce(s.wins, s.writes)
    && PastIsDecided(s)
  }

  // ---------- single statements ----------

  /** A statement that only moves a process on. */
  lemma MoveKeeps(s: Sys, i: int, p: Proc)
    requires Inv(s) && 0 <= i < |s.procs|
    requires forall id | Holds(p.pc, id) :: Win(id, Approved, i) in s.wins && id !in s.writes
    requires Past(p.pc) ==> Decided(s.rows, s.nextId, p.pc.d.approvalId)
    requires p.pc.Acking? ==> Justified(s.rows, s.nextId, p.pc.d, p.pc.ending)
    ensures Inv(s.(procs := s.procs[i := p]))
  {
  }

  /** A process goes on with its decision, keeping or giving up its rights. */
  lemma GoesOn(s: Sys, i: int, p: Proc)
    requires Inv(s) && 0 <= i < |s.procs|
    requires forall id | Holds(p.pc, id) :: Holds(s.procs[i].pc, id)
    requires Past(p.pc) ==> Past(s.procs[i].pc) && p.pc.d == s.procs[i].pc.d
    requires p.pc.Acking? ==> p.pc.ending == Done
    ensures Inv(s.(procs := s.procs[i := p]))
  {
  }

  /** Rows may be added, and decided rows may change their status, as long as none becomes pending again. */
  lemma RowsKeep(s: Sys, rows: Rows, nextId: int)
    requires Inv(s) && s.nextId <= nextId && forall id :: id in rows <==> 1 <= id < nextId
    requires forall id | 1 <= id < s.nextId && IsPending(rows, id) :: IsPending(s.rows, id)
    ensures Inv(s.(rows := rows, nextId := nextId))
  {
  }

  /** The conditional UPDATE succeeds: the row had not been won before. */
  lemma WinKeeps(s: Sys, i: int, d: Q.Decision, status: Decision, c: Choice)
    requires Inv(s) && 0 <= i < |s.procs| && IsPending(s.rows, d.approvalId)
    ensures Inv(s.(rows := Settled(s.rows, d.approvalId, status, c.now, d.who, None),
                   wins := s.wins + [Win(d.approvalId, status, i)],
                   procs := s.procs[i := s.procs[i].(pc := Recording(d, status))]))
  {
  }

  lemma WinIsDecided(s: Sys, w: Win)
    requires Inv(s) && w in s.wins
    ensures Decided(s.rows, s.nextId, w.id)
  {
  }

  /** Two processes never hold the right to write the same patch. */
  lemma OneHolder(s: Sys, i: int, j: int, id: int)
    requires Inv(s) && 0 <= i < |s.procs| && 0 <= j < |s.procs|
    requires Holds(s.procs[i].pc, id) && Holds(s.procs[j].pc, id)
    ensures i == j
  {
    var a, b := Win(id, Approved, i), Win(id, Approved, j);
    assert a in s.wins && b in s.wins;
    var k :| 0 <= k < |s.wins| && s.wins[k] == a;
    var l :| 0 <= l < |s.wins| && s.wins[l] == b;
    assert k < l || l < k || k == l;
  }

  lemma WriteKeeps(s: Sys, i: int, files: map<string, seq<int>>)
    requires Inv(s) && 0 <= i < |s.procs| && s.procs[i].pc.Saving?
    ensures var d, slot := s.procs[i].pc.d, s.procs[i].pc.slot;
            Inv(s.(files := files, writes := s.writes + [d.approvalId],
                   procs := s.procs[i := s.procs[i].(pc := Rerunning(d, slot))]))
  {
    var d := s.procs[i].pc.d;
    var id, p := d.approvalId, s.procs[i].(pc := Rerunning(d, s.procs[i].pc.slot));
    assert Holds(s.procs[i].pc, id);
    assert Win(id, Approved, i) in s.wins && id !in s.writes;
    forall j | 0 <= j < |s.procs| && j != i
      ensures !Holds(s.procs[j].pc, id)
    {
      if Holds(s.procs[j].pc, id) {
        OneHolder(s, i, j, id);
      }
    }
    MoveKeeps(s, i, p);
  }

  lemma LookKeeps(s: Sys, i: int, p: Proc, d: Q.Decision, branch: int)
    requires Inv(s) && 0 <= i < |s.procs| && p.pc == Looked(s, d, branch)
    ensures Inv(s.(procs := s.procs[i := p]))
  {
  }

  lemma MakeKeeps(s: Sys, i: int, runId: string, site: string, now: int, p: Proc)
    requires Inv(s) && 0 <= i < |s.procs| && p.pc.Checking?
    ensures Inv(Inserted(s, runId, site, [], now).(procs := s.procs[i := p]))
  {
  }

  lemma SweepKeeps(s: Sys, i: int, ids: seq<int>, now: int, p: Proc)
    requires Inv(s) && 0 <= i < |s.procs| && p.pc == Idle
    ensures Inv(s.(rows := Swept(s.rows, ids, now), procs := s.procs[i := p]))
  {
  }

  lemma CheckKeeps(s: Sys, i: int, p: Proc, d: Q.Decision, status: Decision)
    requires Inv(s) && 0 <= i < |s.procs| && p.pc == Checked(s, d, status)
    ensures Inv(s.(procs := s.procs[i := p]))
  {
  }

  lemma AckKeeps(s: Sys, i: int, recorded: bool)
    requires Inv(s) && 0 <= i < |s.procs| && s.procs[i].pc.Acking?
    ensures var a := AckLine(s.procs[i].pc.d, s.procs[i].pc.ending);
            Inv(s.(acks := if recorded then s.acks + [a] else s.acks, procs := s.procs[i := s.procs[i].(pc := Idle)]))
  {
  }

  lemma LogsKeep(s: Sys, files: map<string, seq<int>>, backups: map<SitePatching.Slot, seq<int>>, lines: seq<Win>)
    requires Inv(s)
    ensures Inv(s.(files := files, backups := backups, lines := lines))
  {
  }

  lemma DecidesKeeps(s: Sys, i: int, c: Choice)
    requires Inv(s) && 0 <= i < |s.procs|
    requires OnTable(s.procs[i].pc)
    ensures Inv(Decides(s, i, s.procs[i].pc, c))
  {
    hide Inv, Settled, Looked, Checked;
    var p := s.procs[i];
    match p.pc
    case Looking(d) => LookKeeps(s, i, p.(pc := Looked(s, d, c.branch)), d, c.branch);
    case Making(d) =>
      if d.approvalId in s.rows {
        var row := s.rows[d.approvalId];
        MakeKeeps(s, i, row.runId, row.site, c.now, p.(pc := Checking(d, Superseded)));
      } else {
        GoesOn(s, i, p.(pc := Idle));
      }
    case Checking(d, status) => CheckKeeps(s, i, p.(pc := Checked(s, d, status)), d, status);
    case Updating(d, status) =>
      if IsPending(s.rows, d.approvalId) {
        WinKeeps(s, i, d, status, c);
      } else {
        GoesOn(s, i, p.(pc := Idle));
      }
    case Recording(d, status) =>
      var next := if status == Approved then Reading(d) else Acking(d, Done);
      GoesOn(s, i, p.(pc := next));
      LogsKeep(At(s, i, next), s.files, s.backups, s.lines + [Win(d.approvalId, status, i)]);
  }

  lemma AppliesKeeps(s: Sys, i: int, c: Choice)
    requires Inv(s) && 0 <= i < |s.procs|
    requires OnFiles(s.procs[i].pc)
    ensures Inv(Applies(s, i, s.procs[i].pc, c))
  {
    hide Inv, Stored, Content, SlotOf;
    var p := s.procs[i];
    match p.pc
    case Copying(d, base) =>
      var slot := SlotOf(s, d.approvalId, c.now);
      GoesOn(s, i, p.(pc := Saving(d, base, slot)));
      LogsKeep(At(s, i, Saving(d, base, slot)), s.files, s.backups[slot := Content(s, d.approvalId)], s.lines);
    case Saving(d, base, slot) => WriteKeeps(s, i, Stored(s, d.approvalId, base + [d.approvalId]));
    case Undoing(d, slot) =>
      if slot in s.backups {
        GoesOn(s, i, p.(pc := Acking(d, Done)));
        LogsKeep(At(s, i, Acking(d, Done)), Stored(s, d.approvalId, s.backups[slot]), s.backups, s.lines);
      } else {
        GoesOn(s, i, p.(pc := Idle));
      }
    case Reading(_) => GoesOn(s, i, Applies(s, i, p.pc, c).procs[i]);
    case Rerunning(_, _) => GoesOn(s, i, Applies(s, i, p.pc, c).procs[i]);
  }

  /** Every statement of every process keeps the invariant. */
  lemma ExecutedKeeps(s: Sys, i: int, c: Choice)
    requires Inv(s) && 0 <= i < |s.procs|
    ensures Inv(Executed(s, i, c))
  {
    hide Inv, Decides, Applies, Swept, Q.Pending;
    var p := s.procs[i];
    if OnTable(p.pc) {
      DecidesKeeps(s, i, c);
    } else if OnFiles(p.pc) {
      AppliesKeeps(s, i, c);
    } else {
      match p.pc
      case Idle =>
        if p.todo != [] {
          GoesOn(s, i, Proc(Looking(p.todo[0]), p.todo[1..]));
        }
      case Fetching(acked) => GoesOn(s, i, Proc(Idle, Q.Pending(s.log, acked)));
      case Acking(d, ending) => AckKeeps(s, i, c.recorded);
      case Sweeping(ids, now) => SweepKeeps(s, i, ids, now, p.(pc := Idle));
      case _ =>
    }
  }

  lemma NextKeeps(s: Sys, a: Action)
    requires Inv(s)
    ensures Inv(Next(s, a))
  {
    match a
    case Click(d) =>
    case Heal(runId, site, ops, now) =>
      var t := Inserted(s, runId, site, ops, now);
      RowsKeep(s, t.rows, t.nextId);
    case Spawn(todo) =>
    case Run(i, c) =>
      if 0 <= i < |s.procs| {
        ExecutedKeeps(s, i, c);
      }
    case Crash(i) =>
      if 0 <= i < |s.procs| {
        MoveKeeps(s, i, Proc(Dead, []));
      }
    case _ =>
      if 0 <= a.i < |s.procs| && Next(s, a) != s {
        MoveKeeps(s, a.i, Next(s, a).procs[a.i]);
      }
  }

  // ---------- whole runs ----------

  lemma {:induction false} FinalKeeps(sites: set<string>, actions: seq<Action>)
    ensures Inv(Final(Start(sites), actions))
  {
    if actions != [] {
      FinalKeeps(sites, actions[..|actions| - 1]);
      NextKeeps(Final(Start(sites), actions[..|actions| - 1]), actions[|actions| - 1]);
    }
  }

  /**
   At-least-once delivery has at-most-once effect. In every interleaving update_status
   succeeds at most once per approval, and a patch is written to a file at most once, and
   only after its approval has been won.
  */
  lemma AtMostOnce(sites: set<string>, actions: seq<Action>)
    ensures var s := Final(Start(sites), actions);
            && (forall k, l | 0 <= k < l < |s.wins| :: s.wins[k].id != s.wins[l].id)
            && (forall k, l | 0 <= k < l < |s.writes| :: s.writes[k] != s.writes[l])
            && (forall k | 0 <= k < |s.writes| :: WonApproval(s.wins, s.writes[k]))
  {
    FinalKeeps(sites, actions);
  }

  /**
   No click is lost. In every interleaving each line of the ack log is justified: its
   approval is decided, or was made after the decision had been looked up, or the decision
   was a regenerate that was refused. So an acked approve or reject of an approval that
   existed never leaves it pending; and no approval that was won is ever pending again.
  */
  lemma AckedMeansDecided(sites: set<string>, actions: seq<Action>)
    ensures var s := Final(Start(sites), actions);
            && (forall a | a in s.acks :: Justified(s.rows, s.nextId, a.d, a.ending))
            && (forall a | a in s.acks && IsPending(s.rows, a.d.approvalId) ::
                  || (a.ending.Refused? && a.d.kind == Q.Regenerate)
                  || (a.ending.Missed? && a.ending.before <= a.d.approvalId))
            && (forall w | w in s.wins :: !IsPending(s.rows, w.id))
  {
    FinalKeeps(sites, actions);
  }

  /**
   The decider that loses the race inside _decide, at its get or at its UPDATE, goes on to
   its next decision without an ack, and changes nothing; it is the one that does.
  */
  lemma LosersAreNotAcked(s: Sys, i: int, c: Choice)
    requires 0 <= i < |s.procs| && (s.procs[i].pc.Checking? || s.procs[i].pc.Updating?)
    requires s.procs[i].pc.d.approvalId in s.rows
    ensures var t := Executed(s, i, c);
            && t.acks == s.acks && t.files == s.files
            && (t.procs[i].pc == Idle <==> s.rows[s.procs[i].pc.d.approvalId].status != Pending)
            && (t.procs[i].pc == Idle ==> t == At(s, i, Idle))
  {
  }
}
