/** The runs table and its daily summary (app/storage/repository.py). */
module RunLog {
  import opened Results
  import opened KstDays

  datatype RunStatus = Running | Succeeded | Failed

  /** UpsertStats; `same` is its `unchanged`. */
  datatype Stats = Stats(inserted: int, updated: int, same: int) {

    function Total(): int {
      inserted + updated + same
    }

    function Plus(other: Stats): Stats {
      Stats(inserted + other.inserted, updated + other.updated, same + other.same)
    }
  }

  const NO_STATS := Stats(0, 0, 0)

  /** Times are UTC seconds: comparing them is comparing the stored texts. */
  datatype Run = Run(runId: string, site: string, startedAt: int, finishedAt: Option<int>, status: RunStatus,
                     stats: Stats)

  /** What the GROUP BY query adds up for one site. */
  datatype Counts = Counts(runs: int, success: int, failed: int, stats: Stats) {

    function Plus(other: Counts): Counts {
      Counts(runs + other.runs, success + other.success, failed + other.failed, stats.Plus(other.stats))
    }
  }

  const NO_COUNTS := Counts(0, 0, 0, NO_STATS)

  datatype SiteSummary = SiteSummary(counts: Counts, lastStatus: RunStatus, lastFinishedAt: Option<int>)

  predicate InWindow(r: Run, site: string, since: int, until: int) {
    r.site == site && since <= r.startedAt < until
  }

  /** What one run contributes. */
  function CountOf(r: Run, site: string, since: int, until: int): Counts {
    if InWindow(r, site, since, until)
    then Counts(1, if r.status == Succeeded then 1 else 0, if r.status == Failed then 1 else 0, r.stats)
    else NO_COUNTS
  }

  function CountWindow(runs: seq<Run>, site: string, since: int, until: int): Counts {
    if runs == [] then NO_COUNTS
    else CountWindow(runs[..|runs| - 1], site, since, until).Plus(CountOf(runs[|runs| - 1], site, since, until))
  }

  /** The sites with a run in the window. */
  function SitesIn(runs: seq<Run>, since: int, until: int): set<string> {
    if runs == [] then {}
    else
      var r := runs[|runs| - 1];
      SitesIn(runs[..|runs| - 1], since, until) + if InWindow(r, r.site, since, until) then {r.site} else {}
  }

  /** No run of the site in the window starts later. The order among equal start times is open. */
  predicate IsLatest(runs: seq<Run>, site: string, since: int, until: int, last: Run) {
    && last in runs && InWindow(last, site, since, until)
    && forall r | r in runs && InWindow(r, site, since, until) :: r.startedAt <= last.startedAt
  }

  /** A listed site has a run in the window, hence a latest one; any run in the window lists its site. */
  lemma {:induction false} SitesHaveLatest(runs: seq<Run>, site: string, since: int, until: int)
    ensures site in SitesIn(runs, since, until) <==> exists last :: IsLatest(runs, site, since, until, last)
    ensures site in SitesIn(runs, since, until) <==> exists r | r in runs :: InWindow(r, site, since, until)
  {
    if runs != [] {
      var init, r := runs[..|runs| - 1], runs[|runs| - 1];
      assert runs == init + [r];
      SitesHaveLatest(init, site, since, until);
      if site in SitesIn(init, since, until) {
        var last :| IsLatest(init, site, since, until, last);
        var later := if InWindow(r, site, since, until) && last.startedAt < r.startedAt then r else last;
        assert IsLatest(runs, site, since, until, later);
      } else if InWindow(r, site, since, until) {
        assert IsLatest(runs, site, since, until, r);
      }
    }
  }

  class RunTable {
    var runs: seq<Run>

    /** run_id is the primary key. */
    ghost predicate Valid()
      reads this
    {
      forall i, j | 0 <= i < j < |runs| :: runs[i].runId != runs[j].runId
    }

    constructor ()
      ensures Valid() && runs == []
    {
      runs := [];
    }

    /** start_run: false where the insert violates the primary key. */
    method StartRun(site: string, runId: string, now: int) returns (ok: bool)
      requires Valid()
      modifies this
      ensures Valid()
      ensures ok <==> forall r | r in old(runs) :: r.runId != runId
      ensures runs == if ok then old(runs) + [Run(runId, site, now, None, Running, NO_STATS)] else old(runs)
    {
      ok := forall r | r in runs :: r.runId != runId;
      if ok {
        runs := runs + [Run(runId, site, now, None, Running, NO_STATS)];
      }
    }

    method FinishRun(runId: string, status: RunStatus, stats: Stats, now: int)
      requires Valid()
      modifies this
      ensures Valid() && runs == Finished(old(runs), runId, status, stats, now)
    {
      runs := Finished(runs, runId, status, stats, now);
    }

    /** has_successful_history */
    method HasSuccessfulHistory(site: string) returns (b: bool)
      ensures b == HasHistory(runs, site)
    {
      b := exists r | r in runs :: r.site == site && r.status == Succeeded && r.stats.inserted + r.stats.updated > 0;
    }

    /** summarize_window: one entry for each site with a run in [since, until). */
    method SummarizeWindow(since: int, until: int) returns (bySite: map<string, SiteSummary>)
      ensures bySite.Keys == SitesIn(runs, since, until)
      ensures forall site | site in bySite ::
                && bySite[site].counts == CountWindow(runs, site, since, until)
                && exists last :: IsLatest(runs, site, since, until, last)
                     && bySite[site].lastStatus == last.status && bySite[site].lastFinishedAt == last.finishedAt
    {
      bySite := map[];
      var todo := SitesIn(runs, since, until);
      while todo != {}
        invariant todo <= SitesIn(runs, since, until) && bySite.Keys == SitesIn(runs, since, until) - todo
        invariant forall site | site in bySite ::
                    && bySite[site].counts == CountWindow(runs, site, since, until)
                    && exists last :: IsLatest(runs, site, since, until, last)
                         && bySite[site].lastStatus == last.status && bySite[site].lastFinishedAt == last.finishedAt
        decreases todo
      {
        var site :| site in todo;
        todo := todo - {site};
        SitesHaveLatest(runs, site, since, until);
        var last :| last in runs && IsLatest(runs, site, since, until, last);
        bySite := bySite[site := SiteSummary(CountWindow(runs, site, since, until), last.status, last.finishedAt)];
      }
    }
  }

  predicate HasHistory(runs: seq<Run>, site: string) {
    exists r | r in runs :: r.site == site && r.status == Succeeded && r.stats.inserted + r.stats.updated > 0
  }

  /** finish_run: the row with this id, if there is one, gets its outcome. */
  function Finished(runs: seq<Run>, runId: string, status: RunStatus, stats: Stats, now: int): (after: seq<Run>)
    ensures |after| == |runs|
    ensures forall i | 0 <= i < |runs| ::
              after[i] == if runs[i].runId == runId then runs[i].(finishedAt := Some(now), status := status,
                stats := stats)
                          else runs[i]
  {
    seq(|runs|, i requires 0 <= i < |runs| =>
      if runs[i].runId == runId then runs[i].(finishedAt := Some(now), status := status, stats := stats) else runs[i])
  }

  // ---------- windows add up ----------

  lemma PlusSwap(a: Counts, b: Counts, c: Counts, d: Counts)
    ensures a.Plus(b).Plus(c.Plus(d)) == a.Plus(c).Plus(b.Plus(d))
  {
  }

  lemma {:induction false} WindowsAdd(runs: seq<Run>, site: string, lo: int, mid: int, hi: int)
    requires lo <= mid <= hi
    ensures CountWindow(runs, site, lo, mid).Plus(CountWindow(runs, site, mid, hi)) == CountWindow(runs, site, lo, hi)
  {
    if runs != [] {
      var init, r := runs[..|runs| - 1], runs[|runs| - 1];
      WindowsAdd(init, site, lo, mid, hi);
      PlusSwap(CountWindow(init, site, lo, mid), CountOf(r, site, lo, mid), CountWindow(init, site, mid, hi),
          CountOf(r, site, mid, hi));
      assert CountOf(r, site, lo, mid).Plus(CountOf(r, site, mid, hi)) == CountOf(r, site, lo, hi);
    }
  }

  /** A site's daily counts over the KST days from first up to, but not including, end. */
  function DailySum(runs: seq<Run>, site: string, first: int, end: int): Counts
    requires first <= end
    decreases end - first
  {
    if first == end then NO_COUNTS
    else
      var w := DayWindow(end - 1);
      DailySum(runs, site, first, end - 1).Plus(CountWindow(runs, site, w.since, w.until))
  }

  /** Daily summaries over a span of days add up to one summary of the whole span. */
  lemma {:induction false} DaysAddUp(runs: seq<Run>, site: string, first: int, end: int)
    requires first <= end
    ensures DailySum(runs, site, first, end) == CountWindow(runs, site, DayWindow(first).since, DayWindow(end).since)
    decreases end - first
  {
    if first == end {
      NoRunsNoCounts(runs, site, DayWindow(first).since, DayWindow(first).since);
    } else {
      DaysAddUp(runs, site, first, end - 1);
      WindowsTile(end - 1, 0);
      WindowsAdd(runs, site, DayWindow(first).since, DayWindow(end - 1).since, DayWindow(end).since);
    }
  }

  lemma {:induction false} CountNonNegative(runs: seq<Run>, site: string, since: int, until: int)
    ensures CountWindow(runs, site, since, until).runs >= 0
  {
    if runs != [] {
      CountNonNegative(runs[..|runs| - 1], site, since, until);
    }
  }

  /** Without runs in the window nothing is counted. */
  lemma {:induction false} NoRunsNoCounts(runs: seq<Run>, site: string, since: int, until: int)
    requires forall r | r in runs :: !InWindow(r, site, since, until)
    ensures CountWindow(runs, site, since, until) == NO_COUNTS
  {
    if runs != [] {
      assert runs[|runs| - 1] in runs;
      NoRunsNoCounts(runs[..|runs| - 1], site, since, until);
      assert CountOf(runs[|runs| - 1], site, since, until) == NO_COUNTS;
    }
  }

  function Sum(xs: seq<int>): int {
    if xs == [] then 0 else Sum(xs[..|xs| - 1]) + xs[|xs| - 1]
  }

  /** The columns of a summary. */
  datatype Column = RunCount | SuccessCount | FailedCount | InsertedSum | UpdatedSum | UnchangedSum

  function ValueOf(c: Counts, column: Column): int {
    match column
    case RunCount => c.runs
    case SuccessCount => c.success
    case FailedCount => c.failed
    case InsertedSum => c.stats.inserted
    case UpdatedSum => c.stats.updated
    case UnchangedSum => c.stats.same
  }

  /** What a run adds to a column. */
  function Adds(r: Run, column: Column): int {
    match column
    case RunCount => 1
    case SuccessCount => if r.status == Succeeded then 1 else 0
    case FailedCount => if r.status == Failed then 1 else 0
    case InsertedSum => r.stats.inserted
    case UpdatedSum => r.stats.updated
    case UnchangedSum => r.stats.same
  }

  /** What each run adds to a column, if it is of the site and started in [since, until). */
  function Added(runs: seq<Run>, site: string, since: int, until: int, column: Column): seq<int> {
    seq(|runs|, i requires 0 <= i < |runs| =>
      if runs[i].site == site && since <= runs[i].startedAt && runs[i].startedAt < until then Adds(runs[i], column)
      else 0)
  }

  /**
   Each column of a summary is a sum over the runs of the site that started in the window: how
   many there are, how many succeeded, how many failed, and what they stored.
  */
  lemma {:induction false} CountsMean(runs: seq<Run>, site: string, since: int, until: int, column: Column)
    ensures ValueOf(CountWindow(runs, site, since, until), column) == Sum(Added(runs, site, since, until, column))
  {
    if runs != [] {
      var n, all := |runs| - 1, Added(runs, site, since, until, column);
      CountsMean(runs[..n], site, since, until, column);
      assert all[..n] == Added(runs[..n], site, since, until, column);
    }
  }

  /** A site is in the summary exactly when it has runs to count. */
  lemma {:induction false} SummarizedWhenCounted(runs: seq<Run>, site: string, since: int, until: int)
    ensures site in SitesIn(runs, since, until) <==> CountWindow(runs, site, since, until).runs > 0
  {
    if runs != [] {
      CountNonNegative(runs[..|runs| - 1], site, since, until);
      SummarizedWhenCounted(runs[..|runs| - 1], site, since, until);
    }
  }

  /** Leaving a site out of a summary loses nothing: it would have counted nothing. */
  lemma UnlistedCountsNothing(runs: seq<Run>, site: string, since: int, until: int)
    requires site !in SitesIn(runs, since, until)
    ensures CountWindow(runs, site, since, until) == NO_COUNTS
  {
  }
}
