/**
 The decision queue (app/approval_server/queue.py): clicks are appended to one log, the ids
 of processed decisions to another, and the pending ones are the difference.
*/
module DecisionQueue {
  import opened Results

  datatype Kind = Approve | Reject | Regenerate

  datatype Decision = Decision(queueId: string, approvalId: int, kind: Kind, who: string, reason: Option<string>)

  /** A line of the queue file; lines that are blank or not JSON are skipped. */
  datatype Line = Entry(decision: Decision) | Blank | Malformed

  predicate Wanted(line: Line, acked: set<string>) {
    line.Entry? && line.decision.queueId != "" && line.decision.queueId !in acked
  }

  /** The decisions of a queue log that are not acked, in order. */
  function Pending(log: seq<Line>, acked: set<string>): seq<Decision> {
    if log == [] then []
    else
      var init, last := log[..|log| - 1], log[|log| - 1];
      Pending(init, acked) + if Wanted(last, acked) then [last.decision] else []
  }

  function Ids(acks: seq<string>): set<string> {
    set a | a in acks && a != ""
  }

  /**
   The queue's two files. Other threads and the poller's acks can append to them between any
   two steps of a call; nothing is ever removed.
  */
  class Queue {
    var log: seq<Line>
    var acks: seq<string>

    constructor ()
      ensures log == [] && acks == []
    {
      log, acks := [], [];
    }

    method Enqueue(queueId: string, approvalId: int, kind: Kind, who: string, reason: Option<string>)
      returns (d: Decision)
      modifies this
      ensures d == Decision(queueId, approvalId, kind, who, reason)
      ensures log == old(log) + [Entry(d)] && acks == old(acks)
    {
      d := Decision(queueId, approvalId, kind, who, reason);
      log := log + [Entry(d)];
    }

    method Ack(queueId: string) returns (ok: bool)
      modifies this
      ensures ok && acks == old(acks) + [queueId] && log == old(log)
    {
      acks := acks + [queueId];
      ok := true;
    }

    /** What others append meanwhile. */
    method Meanwhile(lines: seq<Line>, ids: seq<string>)
      modifies this
      ensures log == old(log) + lines && acks == old(acks) + ids
    {
      log, acks := log + lines, acks + ids;
    }

    method LoadAckedIds() returns (acked: set<string>)
      ensures acked == Ids(acks)
    {
      acked := set a | a in acks && a != "";
    }

    /**
     list_pending: the ack file is read first, then the queue file. Others append
     lines1/ids1 between the two reads and lines2/ids2 after the second one. No lock is
     taken, so the last thing seen can be one more line that is only half written yet: text
     that is not JSON.
    */
    method ListPending(lines1: seq<Line>, ids1: seq<string>, lines2: seq<Line>, ids2: seq<string>, torn: bool)
      returns (out: seq<Decision>)
      modifies this
      ensures log == old(log) + lines1 + lines2 && acks == old(acks) + ids1 + ids2
      ensures out == Pending(old(log) + lines1, Ids(old(acks)))
    {
      var acked := LoadAckedIds();
      Meanwhile(lines1, ids1);
      out := [];
      var seen := if torn then log + [Malformed] else log;
      TornLineIsSkipped(log, acked);
      for i := 0 to |seen|
        invariant out == Pending(seen[..i], acked)
      {
        assert seen[..i + 1][..i] == seen[..i];
        if seen[i].Entry? {
          var d := seen[i].decision;
          if d.queueId != "" && d.queueId !in acked {
            out := out + [d];
          }
        }
      }
      assert seen[..|seen|] == seen;
      Meanwhile(lines2, ids2);
    }
  }

  // ---------- what a listing guarantees ----------

  /** A line that is not JSON adds nothing. */
  lemma TornLineIsSkipped(log: seq<Line>, acked: set<string>)
    ensures Pending(log + [Malformed], acked) == Pending(log, acked)
  {
    assert (log + [Malformed])[..|log|] == log;
    assert Pending(log, acked) + [] == Pending(log, acked);
  }

  lemma {:induction false} PendingHolds(log: seq<Line>, acked: set<string>, d: Decision)
    ensures d in Pending(log, acked) <==> exists line | line in log :: line == Entry(d) && Wanted(line, acked)
  {
    if log != [] {
      var init, last := log[..|log| - 1], log[|log| - 1];
      assert log == init + [last];
      PendingHolds(init, acked, d);
    }
  }

  /**
   A listing that starts with the logs (log, acks) and ends after others have appended:
   it returns every decision enqueued before it and still unacked at its end, and none that
   was acked before it.
  */
  lemma ListingIsComplete(log: seq<Line>, acks: seq<string>, lines1: seq<Line>, ids1: seq<string>, ids2: seq<string>,
                          d: Decision)
    ensures Entry(d) in log && d.queueId != "" && d.queueId !in Ids(acks + ids1 + ids2) ==>
              d in Pending(log + lines1, Ids(acks))
    ensures d in Pending(log + lines1, Ids(acks)) ==> d.queueId !in acks && Entry(d) in log + lines1
  {
    PendingHolds(log + lines1, Ids(acks), d);
    assert d.queueId in Ids(acks) ==> d.queueId in Ids(acks + ids1 + ids2);
    if Entry(d) in log && d.queueId != "" && d.queueId !in Ids(acks) {
      assert Entry(d) in log + lines1 && Wanted(Entry(d), Ids(acks));
    }
  }

  /** The lines of the log a listing returns, as positions in it. */
  function Positions(log: seq<Line>, acked: set<string>): seq<int> {
    if log == [] then []
    else
      var n := |log| - 1;
      Positions(log[..n], acked) + if Wanted(log[n], acked) then [n] else []
  }

  /** A listing keeps the order of the log: its entries stand at ascending positions. */
  lemma {:induction false} ListingKeepsOrder(log: seq<Line>, acked: set<string>)
    ensures var ps, out := Positions(log, acked), Pending(log, acked);
            && |ps| == |out|
            && (forall i | 0 <= i < |ps| :: 0 <= ps[i] < |log| && log[ps[i]] == Entry(out[i]))
            && (forall i, j | 0 <= i < j < |ps| :: ps[i] < ps[j])
  {
    if log != [] {
      ListingKeepsOrder(log[..|log| - 1], acked);
    }
  }

  /** Acking an id takes exactly the decisions with that id out of a listing. */
  lemma {:induction false} AckRemoves(log: seq<Line>, acked: set<string>, id: string, d: Decision)
    ensures d in Pending(log, acked + {id}) <==> d in Pending(log, acked) && d.queueId != id
  {
    PendingHolds(log, acked + {id}, d);
    PendingHolds(log, acked, d);
  }
}
