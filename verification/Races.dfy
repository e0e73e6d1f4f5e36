/**
 Races between interleaved processes: what the loser of a decision leaves behind, and when
 the regenerate limit and the rule of one pending row per site survive. The guards of a
 healing and of a regenerate are read well before the row is inserted, and a successor is
 inserted before its predecessor is superseded (app/runner/healing_flow.py).
*/
module Races {
  import opened Results
  import opened Approvals
  import opened Interleaving
  import opened InterleavingFacts

  // ---------- no click is lost ----------

  function Unacked(s: Sys): seq<Q.Decision> {
    Q.Pending(s.log, Q.Ids(QueueIds(s.acks)))
  }

  lemma LogAfter(s: Sys, a: Action)
    ensures Next(s, a).log == if a.Click? then s.log + [Q.Entry(a.d)] else s.log
  {
    hide Executed, Q.Ids, DueIds, QueueIds;
    if a.Run? && 0 <= a.i < |s.procs| {
      ExecutedFrame(s, a.i, a.c);
    }
  }

  lemma {:induction false} ClickStays(s: Sys, actions: seq<Action>, d: Q.Decision)
    requires Click(d) in actions
    ensures Q.Entry(d) in Final(s, actions).log
  {
    hide Next;
    var init, last := actions[..|actions| - 1], actions[|actions| - 1];
    LogAfter(Final(s, init), last);
    if last != Click(d) {
      ClickStays(s, init, d);
    }
  }

  /**
   In every interleaving, a click with a queue id is listed until an ack with its id is
   recorded, and every such ack is justified.
  */
  lemma ClicksAreKept(sites: set<string>, actions: seq<Action>, d: Q.Decision)
    requires Click(d) in actions && d.queueId != ""
    ensures var s := Final(Start(sites), actions);
            && (d in Unacked(s) <==> forall a | a in s.acks :: a.d.queueId != d.queueId)
            && (forall a | a in s.acks && a.d.queueId == d.queueId :: Justified(s.rows, s.nextId, a.d, a.ending))
  {
    ClickStays(Start(sites), actions, d);
    AckedMeansDecided(sites, actions);
    UnackedWhen(Final(Start(sites), actions), d);
  }

  lemma UnackedWhen(s: Sys, d: Q.Decision)
    requires Q.Entry(d) in s.log && d.queueId != ""
    ensures d in Unacked(s) <==> forall a | a in s.acks :: a.d.queueId != d.queueId
  {
    Q.PendingHolds(s.log, Q.Ids(QueueIds(s.acks)), d);
    if a :| a in s.acks && a.d.queueId == d.queueId {
      var k :| 0 <= k < |s.acks| && s.acks[k] == a;
      assert QueueIds(s.acks)[k] == d.queueId;
    }
  }

  /** A poller that has nothing to do fetches the one click and gets as far as its UPDATE. */
  lemma FetchAndCheck(site: string, before: Sys, i: int, d: Q.Decision, status: Decision) returns (s: Sys)
    requires Reachable({site}, before) && 0 <= i < |before.procs| && before.procs[i] == Proc(Idle, [])
    requires before.log == [Q.Entry(d)] && before.acks == [] && d.queueId != "" && IsPending(before.rows, d.approvalId)
    requires (d.kind == Q.Approve && status == Approved) || (d.kind == Q.Reject && status == Rejected)
    ensures Reachable({site}, s) && s == before.(procs := before.procs[i := Proc(Updating(d, status), [])])
  {
    hide Reachable;
    var c := Choice(0, 0, true);
    s := Do({site}, before, Fetch(i));
    assert Q.Ids(QueueIds([])) == {};
    assert s.procs[i] == Proc(Fetching({}), []);
    assert Q.Pending([Q.Entry(d)], {}) == [d] by {
      assert [Q.Entry(d)][..0] == [];
    }
    s := Do({site}, s, Run(i, c));
    assert s.procs[i] == Proc(Idle, [d]);
    s := Do({site}, s, Run(i, c));
    assert [d][1..] == [];
    assert s.procs[i] == Proc(Looking(d), []);
    s := Do({site}, s, Run(i, c));
    assert s.procs[i] == Proc(Checking(d, status), []);
    s := Do({site}, s, Run(i, c));
  }

  /** A pending row, one click on it, and two pollers with nothing to do. */
  lemma ClickedOnce(site: string, d: Q.Decision) returns (s: Sys)
    ensures Reachable({site}, s) && IsPending(s.rows, 1) && s.log == [Q.Entry(d)] && s.acks == [] && s.wins == []
    ensures s.procs == [Proc(Idle, []), Proc(Idle, [])]
  {
    hide Reachable;
    s := StartReached(site);
    s := Do({site}, s, Heal("run", site, [], 0));
    s := Do({site}, s, Click(d));
    s := Do({site}, s, Spawn([]));
    s := Do({site}, s, Spawn([]));
  }

  /**
   The decider that loses the race inside _decide: two pollers fetch the same click and both
   get as far as the UPDATE. One decides the row; the other goes on to its next decision
   without an ack, and the click is still listed.
  */
  lemma LoserIsFetchedAgain(site: string, d: Q.Decision, status: Decision) returns (s: Sys)
    requires d.approvalId == 1 && d.queueId != ""
    requires (d.kind == Q.Approve && status == Approved) || (d.kind == Q.Reject && status == Rejected)
    ensures Reachable({site}, s) && s.procs == [Proc(Recording(d, status), []), Proc(Idle, [])]
    ensures s.wins == [Win(1, status, 0)] && 1 in s.rows && s.rows[1].status == status
    ensures s.acks == [] && d in Unacked(s)
  {
    hide Reachable;
    var c := Choice(0, 0, true);
    s := ClickedOnce(site, d);
    s := FetchAndCheck(site, s, 0, d, status);
    s := FetchAndCheck(site, s, 1, d, status);
    s := Do({site}, s, Run(0, c));
    LosersAreNotAcked(s, 1, c);
    s := Do({site}, s, Run(1, c));
    assert s.procs == [Proc(Recording(d, status), []), Proc(Idle, [])];
    UnackedWhen(s, d);
  }

  // ---------- what an action does to the rows ----------

  /** The action inserts a row. */
  predicate Inserts(s: Sys, a: Action) {
    || a.Heal?
    || (a.Run? && 0 <= a.i < |s.procs| && s.procs[a.i].pc.Making? && s.procs[a.i].pc.d.approvalId in s.rows)
  }

  function RunOf(s: Sys, a: Action): string
    requires Inserts(s, a)
  {
    if a.Heal? then a.runId else s.rows[s.procs[a.i].pc.d.approvalId].runId
  }

  function SiteOf(s: Sys, a: Action): string
    requires Inserts(s, a)
  {
    if a.Heal? then a.site else s.rows[s.procs[a.i].pc.d.approvalId].site
  }

  /** Rows stay with their run and site, none becomes pending again, and an insertion adds a pending one. */
  lemma RowsAfter(s: Sys, a: Action)
    requires s.nextId !in s.rows
    ensures var t := Next(s, a);
            && t.rows.Keys == s.rows.Keys + (if Inserts(s, a) then {s.nextId} else {})
            && (forall id | id in s.rows :: t.rows[id].runId == s.rows[id].runId && t.rows[id].site == s.rows[id].site)
            && (forall id | id in s.rows && IsPending(t.rows, id) :: IsPending(s.rows, id))
            && (Inserts(s, a) ==> IsPending(t.rows, s.nextId) && t.rows[s.nextId].runId == RunOf(s, a)
                                  && t.rows[s.nextId].site == SiteOf(s, a))
  {
    hide Q.Ids, DueIds, QueueIds, Executed;
    if a.Run? && 0 <= a.i < |s.procs| {
      RowsExecuted(s, a.i, a.c);
    }
  }

  lemma RowsExecuted(s: Sys, i: int, c: Choice)
    requires s.nextId !in s.rows && 0 <= i < |s.procs|
    ensures var a, t := Run(i, c), Executed(s, i, c);
            && t.rows.Keys == s.rows.Keys + (if Inserts(s, a) then {s.nextId} else {})
            && (forall id | id in s.rows :: t.rows[id].runId == s.rows[id].runId && t.rows[id].site == s.rows[id].site)
            && (forall id | id in s.rows && IsPending(t.rows, id) :: IsPending(s.rows, id))
            && (Inserts(s, a) ==> IsPending(t.rows, s.nextId) && t.rows[s.nextId].runId == RunOf(s, a)
                                  && t.rows[s.nextId].site == SiteOf(s, a))
  {
    var pc := s.procs[i].pc;
    if !pc.Updating? && !pc.Making? && !pc.Sweeping? {
      hide Executed;
      ExecutedFrame(s, i, c);
    }
  }

  // ---------- the regenerate limit ----------

  /** If the action inserts a row, it finds fewer rows of the run than the limit. */
  predicate FindsRoom(s: Sys, a: Action) {
    Inserts(s, a) ==> |OfRun(s.rows, RunOf(s, a))| < REGENERATE_LIMIT_PER_RUN
  }

  predicate AllFindRoom(s: Sys, actions: seq<Action>) {
    actions == [] ||
    (AllFindRoom(s, actions[..|actions| - 1]) && FindsRoom(Final(s, actions[..|actions| - 1]), actions[|actions| - 1]))
  }

  /** The rows of the run among those added. */
  lemma OfRunGrows(rows: Rows, next: Rows, added: set<int>, runId: string)
    requires next.Keys == rows.Keys + added && added !! rows.Keys
    requires forall id | id in rows :: next[id].runId == rows[id].runId
    ensures var fits := set id | id in added && next[id].runId == runId;
            |OfRun(next, runId)| == |OfRun(rows, runId)| + |fits|
  {
    var fits := set id | id in added && next[id].runId == runId;
    forall id
      ensures id in OfRun(next, runId) <==> id in OfRun(rows, runId) + fits
    {
      assert id in next <==> id in rows.Keys || id in added;
      assert id in rows ==> next[id].runId == rows[id].runId;
    }
    assert OfRun(next, runId) == OfRun(rows, runId) + fits;
  }

  lemma OfRunAfter(s: Sys, a: Action, runId: string)
    requires s.nextId !in s.rows
    ensures |OfRun(Next(s, a).rows, runId)| ==
            |OfRun(s.rows, runId)| + if Inserts(s, a) && RunOf(s, a) == runId then 1 else 0
  {
    hide Next, OfRun, Inserts;
    var rows := Next(s, a).rows;
    var added := if Inserts(s, a) then {s.nextId} else {};
    RowsAfter(s, a);
    OfRunGrows(s.rows, rows, added, runId);
    assert (set id | id in added && rows[id].runId == runId) ==
           if Inserts(s, a) && RunOf(s, a) == runId then {s.nextId} else {};
  }

  /**
   In every interleaving, no run has more rows than the regenerate limit if and only if every
   insertion, at the very moment it was made, found fewer rows of its run than the limit.
  */
  lemma {:induction false} WithinLimitExactlyWhen(sites: set<string>, actions: seq<Action>)
    ensures WithinLimit(Final(Start(sites), actions).rows) <==> AllFindRoom(Start(sites), actions)
  {
    hide Next;
    var s := Final(Start(sites), actions);
    if actions == [] {
      forall runId
        ensures |OfRun(s.rows, runId)| == 0
      {
        assert OfRun(s.rows, runId) == {};
      }
    } else {
      var init, a := actions[..|actions| - 1], actions[|actions| - 1];
      FinalKeeps(sites, init);
      WithinLimitExactlyWhen(sites, init);
      forall runId
        ensures var before := Final(Start(sites), init);
                |OfRun(s.rows, runId)| ==
                |OfRun(before.rows, runId)| + if Inserts(before, a) && RunOf(before, a) == runId then 1 else 0
      {
        OfRunAfter(Final(Start(sites), init), a, runId);
      }
    }
  }

  /** A regenerate with nothing between its guards and its insertion finds room, and its row pending. */
  lemma AtomicRegenerateFindsRoom(s: Sys, i: int, c: Choice, d: Choice)
    requires 0 <= i < |s.procs| && s.procs[i].pc.Looking?
    ensures var t := Next(s, Run(i, c));
            t.procs[i].pc.Making? ==> FindsRoom(t, Run(i, d)) && IsPending(t.rows, s.procs[i].pc.d.approvalId)
  {
  }

  // ---------- one pending row per site ----------

  /** The process is about to supersede the row. */
  predicate Supersedes(pc: Pc, id: int) {
    (pc.Checking? || pc.Updating?) && pc.status == Superseded && pc.d.approvalId == id
  }

  /** The row is pending, and nobody is about to supersede it. */
  predicate Stays(s: Sys, id: int) {
    IsPending(s.rows, id) && forall i | 0 <= i < |s.procs| :: !Supersedes(s.procs[i].pc, id)
  }

  /** No site has two pending rows that stay. */
  ghost predicate OneStays(s: Sys) {
    forall i, j | Stays(s, i) && Stays(s, j) && s.rows[i].site == s.rows[j].site :: i == j
  }

  /** No row of the site but this one stays. */
  ghost predicate Alone(s: Sys, site: string, id: int) {
    forall j | Stays(s, j) && s.rows[j].site == site :: j == id
  }

  /** The action is the crash of the only process that is about to supersede the pending row. */
  predicate Releases(s: Sys, a: Action, id: int) {
    && a.Crash? && 0 <= a.i < |s.procs| && IsPending(s.rows, id) && Supersedes(s.procs[a.i].pc, id)
    && forall i | 0 <= i < |s.procs| && i != a.i :: !Supersedes(s.procs[i].pc, id)
  }

  /** The row a regenerate is about to supersede; no row, for a healing. */
  function Predecessor(s: Sys, a: Action): int
    requires Inserts(s, a)
  {
    if a.Heal? then 0 else s.procs[a.i].pc.d.approvalId
  }

  /**
   A healing finds no row of the site that stays; a regenerate, at its insertion, none but its
   own predecessor; a crash releases no row beside another one that stays.
  */
  ghost predicate Tidy(s: Sys, a: Action) {
    && (Inserts(s, a) ==> Alone(s, SiteOf(s, a), Predecessor(s, a)))
    && (forall id | Releases(s, a, id) :: Alone(s, s.rows[id].site, id))
  }

  ghost predicate AllTidy(s: Sys, actions: seq<Action>) {
    actions == [] ||
    (AllTidy(s, actions[..|actions| - 1]) && Tidy(Final(s, actions[..|actions| - 1]), actions[|actions| - 1]))
  }

  /** One row per site stays at every moment of an interleaving. */
  ghost predicate AlwaysOneStays(s: Sys, actions: seq<Action>) {
    && (actions == [] || AlwaysOneStays(s, actions[..|actions| - 1]))
    && OneStays(Final(s, actions))
  }

  /** Whoever is about to supersede a row has seen it. */
  ghost predicate SeenRows(s: Sys) {
    forall i, id | 0 <= i < |s.procs| && Supersedes(s.procs[i].pc, id) :: id in s.rows
  }

  /** What a statement does to the rows its process is about to supersede. */
  lemma SupersedesExecuted(s: Sys, i: int, c: Choice, id: int)
    requires 0 <= i < |s.procs|
    ensures var pc, t := s.procs[i].pc, Executed(s, i, c);
            && |t.procs| == |s.procs| && (forall j | 0 <= j < |s.procs| && j != i :: t.procs[j] == s.procs[j])
            && (Supersedes(t.procs[i].pc, id) ==> id in s.rows)
            && (Supersedes(pc, id) && !Supersedes(t.procs[i].pc, id) ==> !IsPending(t.rows, id))
            && (Inserts(s, Run(i, c)) ==> (Supersedes(t.procs[i].pc, id) <==> id == pc.d.approvalId))
  {
    ExecutedFrame(s, i, c);
    var pc := s.procs[i].pc;
    if !pc.Looking? && !pc.Making? && !pc.Checking? && !pc.Updating? {
      hide Executed;
    }
  }

  lemma SeenAfter(s: Sys, a: Action)
    requires SeenRows(s) && s.nextId !in s.rows
    ensures SeenRows(Next(s, a))
  {
    hide Executed, Q.Ids, DueIds, QueueIds;
    RowsAfter(s, a);
    if a.Run? && 0 <= a.i < |s.procs| {
      var t := Next(s, a);
      forall i, id | 0 <= i < |t.procs| && Supersedes(t.procs[i].pc, id)
        ensures id in t.rows
      {
        SupersedesExecuted(s, a.i, a.c, id);
        assert id in s.rows.Keys;
      }
    }
  }

  /** Whoever was about to supersede a row still is, unless it has crashed, or the row is no longer pending. */
  lemma StillSupersedes(s: Sys, a: Action, id: int)
    ensures var t := Next(s, a);
            && |s.procs| <= |t.procs|
            && (forall i | 0 <= i < |s.procs| ::
                  if a.Crash? && i == a.i then !Supersedes(t.procs[i].pc, id)
                  else Supersedes(s.procs[i].pc, id) ==> Supersedes(t.procs[i].pc, id) || !IsPending(t.rows, id))
            && (forall i | |s.procs| <= i < |t.procs| :: !Supersedes(t.procs[i].pc, id))
            && (!a.Run? ==>
                  forall i | 0 <= i < |s.procs| && Supersedes(t.procs[i].pc, id) :: Supersedes(s.procs[i].pc, id))
  {
    hide Executed, Q.Ids, DueIds, QueueIds;
    if a.Run? && 0 <= a.i < |s.procs| {
      SupersedesExecuted(s, a.i, a.c, id);
    }
  }

  /** An action keeps a row from staying, or makes it stay by releasing or inserting it. */
  lemma StaysAfter(s: Sys, a: Action, id: int)
    requires s.nextId !in s.rows && id in s.rows
    ensures Stays(Next(s, a), id) ==> Stays(s, id) || Releases(s, a, id)
    ensures Releases(s, a, id) ==> Stays(Next(s, a), id)
    ensures a.Crash? && Stays(s, id) ==> Stays(Next(s, a), id)
  {
    hide Next;
    RowsAfter(s, a);
    StillSupersedes(s, a, id);
    if a.Crash? {
      CrashedRows(s, a.i);
    }
  }

  lemma CrashedRows(s: Sys, i: int)
    ensures Next(s, Crash(i)).rows == s.rows && |Next(s, Crash(i)).procs| == |s.procs|
  {
  }

  lemma InsertionKeepsRows(s: Sys, a: Action)
    requires Inserts(s, a) && s.nextId !in s.rows
    ensures forall id | id in s.rows :: id in Next(s, a).rows && Next(s, a).rows[id] == s.rows[id]
  {
  }

  /** An insertion adds a row that stays; the predecessor of a regenerate does not stay any more, all others do. */
  lemma StaysInserted(s: Sys, a: Action, id: int)
    requires Inserts(s, a) && SeenRows(s) && s.nextId !in s.rows && 0 !in s.rows
    ensures Stays(Next(s, a), s.nextId)
    ensures id in s.rows ==> (Stays(Next(s, a), id) <==> Stays(s, id) && id != Predecessor(s, a))
  {
    assert a.Run? ==> Next(s, a) == Executed(s, a.i, a.c);
    hide Next, Executed;
    RowsAfter(s, a);
    InsertionKeepsRows(s, a);
    StillSupersedes(s, a, id);
    StillSupersedes(s, a, s.nextId);
    if a.Run? {
      SupersedesExecuted(s, a.i, a.c, id);
      SupersedesExecuted(s, a.i, a.c, s.nextId);
    }
  }

  lemma StayingRows(s: Sys)
    ensures forall id | Stays(s, id) :: id in s.rows
  {
  }

  lemma OneStaysAfterInsertion(s: Sys, a: Action)
    requires Inserts(s, a) && SeenRows(s) && s.nextId !in s.rows && 0 !in s.rows && OneStays(s)
    ensures OneStays(Next(s, a)) <==> Tidy(s, a)
  {
    hide Next, Stays, Inserts;
    var t := Next(s, a);
    RowsAfter(s, a);
    StayingRows(s);
    StayingRows(t);
    forall id
      ensures id in s.rows ==> (Stays(t, id) <==> Stays(s, id) && id != Predecessor(s, a))
      ensures Stays(t, s.nextId)
    {
      StaysInserted(s, a, id);
    }
    NoRelease(s, a);
  }

  lemma NoRelease(s: Sys, a: Action)
    ensures Inserts(s, a) ==> !a.Crash?
  {
  }

  lemma OneStaysAfter(s: Sys, a: Action)
    requires !Inserts(s, a) && s.nextId !in s.rows && OneStays(s)
    ensures OneStays(Next(s, a)) <==> Tidy(s, a)
  {
    hide Next, Stays, Inserts;
    RowsAfter(s, a);
    StayingRows(s);
    StayingRows(Next(s, a));
    forall id | id in s.rows
      ensures Stays(Next(s, a), id) ==> Stays(s, id) || Releases(s, a, id)
      ensures Releases(s, a, id) ==> Stays(Next(s, a), id)
      ensures a.Crash? && Stays(s, id) ==> Stays(Next(s, a), id)
    {
      StaysAfter(s, a, id);
    }
  }

  lemma KeptIds(s: Sys)
    requires Inv(s)
    ensures s.nextId !in s.rows && 0 !in s.rows
  {
  }

  lemma {:induction false} FinalSeen(sites: set<string>, actions: seq<Action>)
    ensures SeenRows(Final(Start(sites), actions))
  {
    if actions != [] {
      var s := Final(Start(sites), actions[..|actions| - 1]);
      FinalSeen(sites, actions[..|actions| - 1]);
      FinalKeeps(sites, actions[..|actions| - 1]);
      KeptIds(s);
      SeenAfter(s, actions[|actions| - 1]);
    }
  }

  /**
   In every interleaving, at every moment no site has two pending rows that stay, if and only
   if every healing and every regenerate found no row of the site at its insertion that stays
   beside it, and no crash released one beside another.
  */
  lemma {:induction false} OneStaysExactlyWhen(sites: set<string>, actions: seq<Action>)
    ensures AlwaysOneStays(Start(sites), actions) <==> AllTidy(Start(sites), actions)
  {
    if actions == [] {
      assert OneStays(Start(sites));
    } else {
      var init, a := actions[..|actions| - 1], actions[|actions| - 1];
      var s := Final(Start(sites), init);
      OneStaysExactlyWhen(sites, init);
      FinalSeen(sites, init);
      FinalKeeps(sites, init);
      KeptIds(s);
      if AlwaysOneStays(Start(sites), init) {
        OneStaysNow(Start(sites), init);
        if Inserts(s, a) {
          OneStaysAfterInsertion(s, a);
        } else {
          OneStaysAfter(s, a);
        }
      }
    }
  }

  lemma OneStaysNow(s: Sys, actions: seq<Action>)
    requires AlwaysOneStays(s, actions)
    ensures OneStays(Final(s, actions))
  {
  }

  /** With that, and nobody about to supersede a row, no site has two pending rows. */
  lemma OnePendingWhenTidy(sites: set<string>, actions: seq<Action>)
    requires AllTidy(Start(sites), actions)
    ensures var s := Final(Start(sites), actions);
            (forall i, id | 0 <= i < |s.procs| :: !Supersedes(s.procs[i].pc, id)) ==> OnePending(s.rows)
  {
    OneStaysExactlyWhen(sites, actions);
    OneStaysNow(Start(sites), actions);
  }

  // ---------- and when they do not survive ----------

  /** The rows 1 to n, all pending, of one run and one site. */
  ghost predicate PendingUpTo(rows: Rows, n: int, runId: string, site: string) {
    && (forall id :: id in rows <==> 1 <= id <= n)
    && (forall id | 1 <= id <= n :: IsPending(rows, id) && rows[id].runId == runId && rows[id].site == site)
  }

  lemma RowsOfRun(rows: Rows, n: int, ids: set<int>, runId: string, site: string)
    requires PendingUpTo(rows, n, runId, site) && forall id :: id in ids <==> 1 <= id <= n
    ensures OfRun(rows, runId) == ids
  {
    forall id
      ensures id in OfRun(rows, runId) <==> id in ids
    {
      assert id in rows ==> rows[id].runId == runId;
    }
  }

  /** A regenerate passes its guards, and gets as far as the insertion. */
  lemma RegenerateMakes(sites: set<string>, before: Sys, i: int, d: Q.Decision, runId: string, site: string)
    returns (s: Sys)
    requires Reachable(sites, before) && 0 <= i < |before.procs| && before.procs[i] == Proc(Idle, [d])
    requires d.kind == Q.Regenerate && d.approvalId == 1 && PendingUpTo(before.rows, 1, runId, site)
    ensures Reachable(sites, s) && s == before.(procs := before.procs[i := Proc(Making(d), [])])
  {
    hide Reachable;
    var c := Choice(3, 0, true);
    assert [d][1..] == [];
    s := Do(sites, before, Run(i, c));
    assert s.procs[i] == Proc(Looking(d), []);
    RowsOfRun(s.rows, 1, {1}, runId, site);
    s := Do(sites, s, Run(i, c));
  }

  lemma SuccessorInserted(sites: set<string>, before: Sys, i: int, d: Q.Decision, n: int, runId: string, site: string)
    returns (s: Sys)
    requires Reachable(sites, before) && 0 <= i < |before.procs| && before.procs[i] == Proc(Making(d), [])
    requires d.approvalId == 1 && 1 <= n && PendingUpTo(before.rows, n, runId, site) && before.nextId == n + 1
    ensures Reachable(sites, s) && PendingUpTo(s.rows, n + 1, runId, site) && s.nextId == n + 2 && s.wins == before.wins
    ensures s.procs == before.procs[i := Proc(Checking(d, Superseded), [])]
  {
    hide Reachable;
    s := Do(sites, before, Run(i, Choice(3, 0, true)));
  }

  /** A pending row, and three pollers about to insert a successor for it. */
  lemma ThreeAboutToMake(runId: string, site: string, d: Q.Decision) returns (s: Sys)
    requires d.kind == Q.Regenerate && d.approvalId == 1
    ensures Reachable({site}, s) && PendingUpTo(s.rows, 1, runId, site) && s.nextId == 2 && s.wins == []
    ensures s.procs == [Proc(Making(d), []), Proc(Making(d), []), Proc(Making(d), [])]
  {
    hide Reachable;
    s := StartReached(site);
    s := Do({site}, s, Heal(runId, site, [], 0));
    s := Do({site}, s, Spawn([d]));
    s := Do({site}, s, Spawn([d]));
    s := Do({site}, s, Spawn([d]));
    s := RegenerateMakes({site}, s, 0, d, runId, site);
    s := RegenerateMakes({site}, s, 1, d, runId, site);
    s := RegenerateMakes({site}, s, 2, d, runId, site);
  }

  /**
   Three regenerates of one row: each finds the run within its limit, each inserts a successor,
   one supersedes the row. The two that lose leave theirs behind: three pending rows of one
   site, and four rows of the run.
  */
  lemma LosersLeaveTheirRows(runId: string, site: string, d: Q.Decision) returns (s: Sys)
    requires d.kind == Q.Regenerate && d.approvalId == 1
    ensures Reachable({site}, s) && s.wins == [Win(1, Superseded, 0)] && 1 in s.rows && s.rows[1].status == Superseded
    ensures forall id | 2 <= id <= 4 :: IsPending(s.rows, id) && s.rows[id].site == site
    ensures !OnePending(s.rows) && OfRun(s.rows, runId) == {1, 2, 3, 4} && !WithinLimit(s.rows)
    ensures s.procs == [Proc(Recording(d, Superseded), []), Proc(Idle, []), Proc(Idle, [])]
  {
    hide Reachable;
    s := ThreeAboutToMake(runId, site, d);
    s := SuccessorInserted({site}, s, 0, d, 1, runId, site);
    s := SuccessorInserted({site}, s, 1, d, 2, runId, site);
    s := SuccessorInserted({site}, s, 2, d, 3, runId, site);
    RowsOfRun(s.rows, 4, {1, 2, 3, 4}, runId, site);
    s := OneSupersedes({site}, s, d, runId, site);
    assert |{1, 2, 3, 4}| == 4;
    assert IsPending(s.rows, 2) && IsPending(s.rows, 3);
  }

  lemma OneSupersedes(sites: set<string>, before: Sys, d: Q.Decision, runId: string, site: string) returns (s: Sys)
    requires Reachable(sites, before) && d.approvalId == 1
    requires PendingUpTo(before.rows, 4, runId, site) && before.wins == []
    requires var p := Proc(Checking(d, Superseded), []); before.procs == [p, p, p]
    ensures Reachable(sites, s) && s.wins == [Win(1, Superseded, 0)]
    ensures s.rows == Settled(before.rows, 1, Superseded, 0, d.who, None)
    ensures OfRun(s.rows, runId) == OfRun(before.rows, runId)
    ensures s.procs == [Proc(Recording(d, Superseded), []), Proc(Idle, []), Proc(Idle, [])]
  {
    hide Reachable;
    var c := Choice(3, 0, true);
    s := Do(sites, before, Run(0, c));
    assert s.procs[0] == Proc(Updating(d, Superseded), []);
    s := Do(sites, s, Run(0, c));
    s := Do(sites, s, Run(1, c));
    s := Do(sites, s, Run(2, c));
  }
}
