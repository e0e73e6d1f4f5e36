/** The approval_request table (app/storage/approval.py). */
module Approvals {
  import opened Results
  import opened Patch

  datatype Status = Pending | Approved | Rejected | Expired | Superseded

  datatype Reason = Given(text: string) | Followed | FollowedBy(id: int)

  datatype Thread = Thread(channel: string, ts: string)

  /** Times are UTC seconds; the ids are the keys of the table. */
  datatype Row = Row(runId: string, site: string, ops: seq<PatchOp>, status: Status,
                     createdAt: int, expiresAt: int,
                     decidedAt: Option<int>, decidedBy: Option<string>, reason: Option<Reason>,
                     slack: Option<Thread>)

  type Rows = map<int, Row>

  const EXPIRY_ACTOR := "system:expiry"

  predicate IsPending(rows: Rows, id: int) {
    id in rows && rows[id].status == Pending
  }

  /** update_status: the row, if it is pending, gets its decision. */
  function Settled(rows: Rows, id: int, status: Status, at: int, who: string, reason: Option<Reason>): Rows {
    if IsPending(rows, id)
    then rows[id := rows[id].(status := status, decidedAt := Some(at), decidedBy := Some(who), reason := reason)]
    else rows
  }

  predicate Due(row: Row, now: int) {
    row.status == Pending && row.expiresAt <= now
  }

  /** The ids below n of the rows that are due. */
  function DueIds(rows: Rows, n: int, now: int): (ids: seq<int>)
    ensures forall id :: id in ids <==> 0 <= id < n && id in rows && Due(rows[id], now)
    ensures forall i, j | 0 <= i < j < |ids| :: ids[i] != ids[j]
    decreases n
  {
    if n <= 0 then []
    else DueIds(rows, n - 1, now) + if n - 1 in rows && Due(rows[n - 1], now) then [n - 1] else []
  }

  function Lapsed(row: Row, now: int): Row {
    row.(status := Expired, decidedAt := Some(now), decidedBy := Some(EXPIRY_ACTOR))
  }

  /** The UPDATE of the expiry sweep: it names ids and does not look at their status. */
  function Swept(rows: Rows, ids: seq<int>, now: int): Rows {
    map id | id in rows :: if id in ids then Lapsed(rows[id], now) else rows[id]
  }

  function Threaded(rows: Rows, id: int, thread: Thread): Rows {
    if id in rows then rows[id := rows[id].(slack := Some(thread))] else rows
  }

  /** An empty site filters nothing. */
  function PendingIn(rows: Rows, site: string): set<int> {
    set id | id in rows && rows[id].status == Pending && (site == "" || rows[id].site == site)
  }

  function RejectedSince(rows: Rows, site: string, since: int): set<int> {
    set id | id in rows && rows[id].site == site && rows[id].status == Rejected
             && rows[id].decidedAt.Some? && since <= rows[id].decidedAt.value
  }

  function OfRun(rows: Rows, runId: string): set<int> {
    set id | id in rows && rows[id].runId == runId
  }

  const REGENERATE_LIMIT_PER_RUN := 3

  /** No site has two pending rows. */
  ghost predicate OnePending(rows: Rows) {
    forall i, j | IsPending(rows, i) && IsPending(rows, j) && rows[i].site == rows[j].site :: i == j
  }

  /** No run id has more rows than the regenerate limit. */
  ghost predicate WithinLimit(rows: Rows) {
    forall runId :: |OfRun(rows, runId)| <= REGENERATE_LIMIT_PER_RUN
  }

  class ApprovalRepository {
    var rows: Rows
    var nextId: int

    /** Ids count up from 1 and are never used again. */
    ghost predicate Valid()
      reads this
    {
      1 <= nextId && forall id | id in rows :: 1 <= id < nextId
    }

    constructor ()
      ensures Valid() && rows == map[] && nextId == 1
    {
      rows, nextId := map[], 1;
    }

    method Insert(runId: string, site: string, ops: seq<PatchOp>, createdAt: int, expiresAt: int) returns (id: int)
      requires Valid()
      modifies this
      ensures Valid() && id == old(nextId) && id !in old(rows) && nextId == id + 1
      ensures rows == old(rows)[id := Row(runId, site, ops, Pending, createdAt, expiresAt, None, None, None, None)]
    {
      id := nextId;
      rows := rows[id := Row(runId, site, ops, Pending, createdAt, expiresAt, None, None, None, None)];
      nextId := nextId + 1;
    }

    method Get(id: int) returns (row: Option<Row>)
      ensures row == if id in rows then Some(rows[id]) else None
    {
      row := if id in rows then Some(rows[id]) else None;
    }

    /** Only whether the list is empty is ever asked; its order is left open. */
    method ListPending(site: string) returns (ids: set<int>)
      ensures ids == PendingIn(rows, site)
    {
      if site != "" {
        ids := set id | id in rows && rows[id].status == Pending && rows[id].site == site;
      } else {
        ids := set id | id in rows && rows[id].status == Pending;
      }
    }

    method UpdateStatus(id: int, status: Status, at: int, who: string, reason: Option<Reason>) returns (changed: int)
      requires Valid()
      modifies this`rows
      ensures Valid() && rows == Settled(old(rows), id, status, at, who, reason)
      ensures changed == if IsPending(old(rows), id) then 1 else 0
    {
      changed := 0;
      if id in rows && rows[id].status == Pending {
        rows := rows[id := rows[id].(status := status, decidedAt := Some(at), decidedBy := Some(who),
          reason := reason)];
        changed := 1;
      }
    }

    /** With nothing between its SELECT and its UPDATE. */
    method ExpirePendingUntil(now: int) returns (ids: seq<int>)
      requires Valid()
      modifies this`rows
      ensures Valid() && ids == DueIds(old(rows), nextId, now) && rows == Swept(old(rows), ids, now)
    {
      ids := DueIds(rows, nextId, now);
      if ids == [] {
        assert Swept(rows, ids, now) == rows;
        return;
      }
      rows := Swept(rows, ids, now);
    }

    method AttachSlack(id: int, thread: Thread)
      requires Valid()
      modifies this`rows
      ensures Valid() && rows == Threaded(old(rows), id, thread)
    {
      if id in rows {
        rows := rows[id := rows[id].(slack := Some(thread))];
      }
    }

    method CountForRun(runId: string) returns (n: int)
      ensures n == |OfRun(rows, runId)|
    {
      n := |set id | id in rows && rows[id].runId == runId|;
    }

    method ListRecentRejected(site: string, since: int) returns (ids: set<int>)
      ensures ids == RejectedSince(rows, site, since)
    {
      ids := RejectedSince(rows, site, since);
    }
  }

  /** With nothing in between, the sweep expires exactly the pending rows that are due and touches no other. */
  lemma SweepIsExact(rows: Rows, n: int, now: int, id: int)
    requires forall i | i in rows :: 1 <= i < n
    requires id in rows
    ensures Swept(rows, DueIds(rows, n, now), now)[id] ==
            if rows[id].status == Pending && rows[id].expiresAt <= now
            then rows[id].(status := Expired, decidedAt := Some(now), decidedBy := Some("system:expiry"))
            else rows[id]
  {
  }
}
