/**
 Inputs at which the code does what the exact conditions leave room for. Each starts from the
 state two runs leave in an empty table: a good one, and one that failed and was healed.
*/
module Witnesses {
  import opened Results
  import opened Trees
  import opened Patch
  import opened DryRun
  import opened Approvals
  import opened SitePatching
  import opened Workflow
  import opened Ledger
  import opened NestedHealing
  import opened Poller
  import opened PollProofs

  const QUEUE_ID := "q"
  const NO_HEALING := Healing(None, false, Refused, None)
  const REMOVE_A := [PatchOp(Remove, "a", None)]

  // ---------- a stranded patch ----------

  /**
   Two sites with valid files and a healed row of the first; then someone breaks the second
   file. Approving the row leaves it approved, its patch in the file, and no rollback in the
   audit log.
  */
  lemma BrokenNeighbourStrands(pf: Platform, site: string, config: SiteConfig, text: string, other: string,
                               fine: string, broken: string, r1: string, n: int, r2: string, who: string, now: int,
                               rerun: RunInput)
    requires RoundTrips(pf) && Accepts(pf, site, config) && pf.load(text) == Some(PLAIN)
    requires site != other && Loads(pf, fine) && !Loads(pf, broken) && r1 != r2 && n > 0
    ensures var made := After(pf, Fresh(map[site := text, other := fine]), TwoRuns(site, r1, n, r2));
            var s := made.(disk := made.disk.(texts := made.disk.texts[other := broken]));
            var (t, r) := Approve(pf, s, 1, who, now, rerun);
            && AllLoad(pf, made.disk.texts)
            && r == Threw(RerunCrash) && 1 in t.rows && t.rows[1].status == Approved
            && t.disk.texts == map[site := pf.dump(ADDED), other := broken]
            && t.audit == s.audit + [ApprovalDecided(1, Approved, who), PatchApplied(1, site)]
  {
    hide After, Approve;
    var texts := map[site := text, other := fine];
    var made := After(pf, Fresh(texts), TwoRuns(site, r1, n, r2));
    OneRow(pf, site, config, texts, r1, n, r2);
    var s := made.(disk := made.disk.(texts := made.disk.texts[other := broken]));
    Patches();
    assert "a" in PLAIN.entries;
    assert PatchedDocument(pf, s.disk.texts, site, ADD_X) == Success(ADDED);
    StrandedPatchStays(pf, s, 1, other, who, now, rerun);
    assert s.disk.texts[site := pf.dump(ADDED)] == map[site := pf.dump(ADDED), other := broken];
  }

  // ---------- acked, and still pending ----------

  function Click(kind: string, heal: Healing, ack: AckReply): Turn {
    var again := RunInput("rerun", 30, [], NO_HEALING);
    Turn(Wire(Some(QUEUE_ID), Some(kind), Id(1), Some("op"), None), 20, again, heal, ack)
  }

  /** The poll of one click on the healed row. */
  function PollOnce(pf: Platform, s: State, turn: Turn): Poll {
    TakeTurns(pf, Poll(s, [], NO_DECISIONS, false), [turn])
  }

  lemma OneTurn(pf: Platform, p: Poll, turn: Turn)
    ensures TakeTurns(pf, p, [turn]) == TakeTurn(pf, p, turn)
  {
    hide TakeTurn;
    assert [turn][..0] == [];
    assert TakeTurns(pf, p, []) == p;
  }

  /** A regenerate that ends in a LookupError: acked, counted as failed, and nothing else. */
  lemma RefusedRegenerate(pf: Platform, s: State, heal: Healing)
    requires IsPending(s.rows, 1) && s.nextId !in s.rows && Refuses(pf, s, 1, heal)
    ensures PollOnce(pf, s, Click("regenerate", heal, Acked)) == Poll(s, [QUEUE_ID], Counts(0, 0, 0, 1), false)
  {
    hide Refuses, Regenerate;
    var turn := Click("regenerate", heal, Acked);
    RefusedExactlyWhen(pf, s, 1, "op", 20, heal);
    assert Dispatched(pf, s, turn) == (s, Ineligible);
    OneTurn(pf, Poll(s, [], NO_DECISIONS, false), turn);
  }

  lemma Removal()
    ensures ApplyPatch(PLAIN, REMOVE_A) == Success(EMPTY_DICT)
  {
    assert Parts("a") == PartsFrom("a", "") by {
      assert "" + ['a'] == "a" && "a"[1..] == "";
    }
    assert REMOVE_A[1..] == [];
    assert "a" in PLAIN.entries && map["a" := Null] - {"a"} == map[];
    assert ApplyOne(PLAIN, REMOVE_A[0]) == Success(EMPTY_DICT);
  }

  /**
   A regenerate for which the LLM proposes a patch that validates but leaves the site without
   a `jobs` collector: the dry run raises KeyError, the click is acked, the row stays pending.
  */
  lemma KeyErrorIsAcked(pf: Platform, site: string, config: SiteConfig, bare: SiteConfig, text: string,
                        r1: string, n: int, r2: string)
    requires Accepts(pf, site, config) && pf.load(text) == Some(PLAIN) && r1 != r2 && n > 0
    requires pf.validate(EMPTY_DICT) == Some(bare) && COLLECTOR_NAME !in bare.collectors
    ensures var s := After(pf, Fresh(map[site := text]), TwoRuns(site, r1, n, r2));
            && IsPending(s.rows, 1)
            && PollOnce(pf, s, Click("regenerate", Suggest(REMOVE_A), Acked)) ==
               Poll(s, [QUEUE_ID], Counts(0, 0, 0, 1), false)
  {
    var s := After(pf, Fresh(map[site := text]), TwoRuns(site, r1, n, r2));
    OneRow(pf, site, config, map[site := text], r1, n, r2);
    Removal();
    assert "a" in PLAIN.entries;
    assert LookupFails(pf, s.disk.texts, site, Candidate(REMOVE_A));
    RefusedRegenerate(pf, s, Suggest(REMOVE_A));
  }

  /** A regenerate for which the LLM's response has no choices: the IndexError is acked, the row stays pending. */
  lemma IndexErrorIsAcked(pf: Platform, site: string, config: SiteConfig, text: string, r1: string, n: int, r2: string)
    requires Accepts(pf, site, config) && pf.load(text) == Some(PLAIN) && r1 != r2 && n > 0
    ensures var s := After(pf, Fresh(map[site := text]), TwoRuns(site, r1, n, r2));
            var heal := Healing(Some([]), true, RaisedLookup, None);
            && IsPending(s.rows, 1)
            && PollOnce(pf, s, Click("regenerate", heal, Acked)) == Poll(s, [QUEUE_ID], Counts(0, 0, 0, 1), false)
  {
    var s := After(pf, Fresh(map[site := text]), TwoRuns(site, r1, n, r2));
    OneRow(pf, site, config, map[site := text], r1, n, r2);
    RefusedRegenerate(pf, s, Healing(Some([]), true, RaisedLookup, None));
  }

  // ---------- counted twice ----------

  /** A reject that is carried out, and whose ack then raises: one rejected and one failed, for a total of one. */
  lemma OneDecisionCountsTwice(pf: Platform, site: string, config: SiteConfig, text: string, r1: string, n: int,
                               r2: string, recorded: bool)
    requires Accepts(pf, site, config) && pf.load(text) == Some(PLAIN) && r1 != r2 && n > 0
    ensures var q := PollOnce(pf, After(pf, Fresh(map[site := text]), TwoRuns(site, r1, n, r2)),
                              Click("reject", NO_HEALING, Raises(recorded)));
            !q.aborted && q.counts == Counts(0, 1, 0, 1) && q.counts.Sum() == 2
  {
    var s := After(pf, Fresh(map[site := text]), TwoRuns(site, r1, n, r2));
    var turn := Click("reject", NO_HEALING, Raises(recorded));
    OneRow(pf, site, config, map[site := text], r1, n, r2);
    assert Dispatched(pf, s, turn).1 == Rejection;
    OneTurn(pf, Poll(s, [], NO_DECISIONS, false), turn);
  }
}
