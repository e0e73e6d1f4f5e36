/**
 ApiJobsCollector (app/collectors/api_jobs.py): page after page is fetched, its items are
 picked out and mapped to postings, until a page is bad or the page limit is reached.
*/
module Collector {
  import opened Results
  import opened Trees

  datatype FetchResult = FetchResult(status: int, json: Tree, blocked: bool)

  datatype StopCondition = EmptyItems | FixedPages

  /** `numbered` says that the page number is sent with each request. */
  datatype Pagination = Pagination(numbered: bool, start: int, maxPages: int, stop: StopCondition)

  /** A plain JMESPath: field names joined by dots. */
  type FieldPath = p: seq<string> | p != [] witness ["items"]

  datatype Segment = Text(text: string) | Field(name: string)

  datatype Mapping = Mapping(itemsPath: FieldPath, fields: map<string, seq<string>>, linkTemplate: seq<Segment>)

  datatype CollectorKind = ApiJobs | StaticHtml | DetailHtml

  datatype CollectorConfig = CollectorConfig(
    kind: CollectorKind,
    hasRequest: bool,
    mapping: Option<Mapping>,
    pagination: Pagination,
    requiredFields: seq<string>)

  datatype Posting = Posting(
    externalId: string,
    title: Option<string>,
    company: Option<string>,
    deadline: Option<string>,
    link: Option<string>,
    raw: Option<Tree>)

  datatype Issue = FetchFailed(page: int) | ItemsPathNotList | MissingExternalId(page: int)

  datatype CollectorResult = CollectorResult(
    records: seq<Posting>,
    issues: seq<Issue>,
    pagesCollected: nat,
    firstSample: Option<Tree>)

  /** Python's str(). */
  type Show = Tree -> string

  // ---------- one page ----------

  /** jmespath.search: null where a field is missing. */
  function Search(t: Tree, path: seq<string>): Tree {
    match Lookup(t, path)
    case None => Null
    case Some(v) => v
  }

  function Pick(m: Mapping, name: string, item: Tree): Tree {
    if name in m.fields && m.fields[name] != [] then Search(item, m.fields[name]) else Null
  }

  function Shown(show: Show, t: Tree): Option<string> {
    if t.Null? then None else Some(show(t))
  }

  /** str.format(**item): fails unless the item is a dict with every named field. */
  function Format(show: Show, template: seq<Segment>, item: Tree): Option<string> {
    if !item.Dict? then None
    else if template == [] then Some("")
    else match Format(show, template[1..], item)
      case None => None
      case Some(rest) =>
        match template[0]
        case Text(text) => Some(text + rest)
        case Field(name) => if name in item.entries then Some(show(item.entries[name]) + rest) else None
  }

  function Extract(show: Show, m: Mapping, item: Tree): Posting {
    var id, link := Pick(m, "external_id", item), Pick(m, "link", item);
    Posting(
      if id.Null? then "" else show(id),
      Shown(show, Pick(m, "title", item)),
      Shown(show, Pick(m, "company", item)),
      Shown(show, Pick(m, "deadline", item)),
      if Falsy(link) && m.linkTemplate != [] then Format(show, m.linkTemplate, item) else Shown(show, link),
      if item.Dict? then Some(item) else None)
  }

  predicate Fetched(r: FetchResult) {
    !r.blocked && r.status < 400
  }

  /** The items of a page; None if the items path does not lead to a list. */
  function Items(m: Mapping, r: FetchResult): Option<seq<Tree>> {
    ListOf(Search(OrEmpty(r.json), m.itemsPath))
  }

  /** `found or []`, if that is a list. */
  function ListOf(found: Tree): Option<seq<Tree>> {
    if Falsy(found) then Some([]) else if found.List? then Some(found.items) else None
  }

  function ExtractAll(show: Show, m: Mapping, items: seq<Tree>): (ps: seq<Posting>)
    ensures |ps| == |items|
  {
    seq(|items|, i requires 0 <= i < |items| => Extract(show, m, items[i]))
  }

  /** A page is completed, with one posting for each of its items, or it ends the run. */
  datatype Outcome = Completed(postings: seq<Posting>) | Ended(issues: seq<Issue>)

  function OutcomeOf(show: Show, cfg: CollectorConfig, page: int, r: FetchResult): Outcome
    requires cfg.mapping.Some?
  {
    if !Fetched(r) then Ended([FetchFailed(page)])
    else
      var items := Items(cfg.mapping.value, r);
      if items.None? then Ended([ItemsPathNotList])
      else if items.value == [] && cfg.pagination.stop == EmptyItems then Ended([])
      else Completed(ExtractAll(show, cfg.mapping.value, items.value))
  }

  /** The postings that have an id, in order. */
  function WithId(ps: seq<Posting>): seq<Posting> {
    if ps == [] then []
    else WithId(ps[..|ps| - 1]) + if ps[|ps| - 1].externalId == "" then [] else [ps[|ps| - 1]]
  }

  /** One issue for each posting without an id. */
  function MissingIds(page: int, ps: seq<Posting>): seq<Issue> {
    if ps == [] then []
    else MissingIds(page, ps[..|ps| - 1]) + if ps[|ps| - 1].externalId == "" then [MissingExternalId(page)] else []
  }

  // ---------- the whole run, given what each fetch returns ----------

  /** What the fetches return: the pages in order, and then the same last answer for ever. */
  datatype Script = Script(pages: seq<FetchResult>, last: FetchResult) {

    /** What fetch number i returns, counted from 0. */
    function Fetch(i: nat): FetchResult {
      if i < |pages| then pages[i] else last
    }
  }

  function PageLimit(cfg: CollectorConfig): nat {
    if cfg.pagination.maxPages < 0 then 0 else cfg.pagination.maxPages
  }

  /** What the first n fetches would amount to. */
  function Outcomes(show: Show, cfg: CollectorConfig, script: Script, n: nat): (outs: seq<Outcome>)
    requires cfg.mapping.Some?
    ensures |outs| == n
  {
    if n == 0 then []
    else Outcomes(show, cfg, script, n - 1) + [OutcomeOf(show, cfg, cfg.pagination.start + n - 1, script.Fetch(n - 1))]
  }

  lemma {:induction false} OutcomesAt(show: Show, cfg: CollectorConfig, script: Script, page: int, n: nat, i: nat)
    requires cfg.mapping.Some? && i < n && page == cfg.pagination.start + i
    ensures Outcomes(show, cfg, script, n)[i] == OutcomeOf(show, cfg, page, script.Fetch(i))
  {
    if i < n - 1 {
      OutcomesAt(show, cfg, script, page, n - 1, i);
    }
  }

  /** How many pages are completed before one ends the run. */
  function GoodRun(outs: seq<Outcome>): (k: nat)
    ensures k <= |outs|
  {
    if outs == [] || outs[0].Ended? then 0 else 1 + GoodRun(outs[1..])
  }

  /** The first k outcomes are completed pages. */
  predicate AllCompleted(outs: seq<Outcome>, k: nat) {
    k <= |outs| && forall i | 0 <= i < k :: outs[i].Completed?
  }

  /** The postings of the first k pages. */
  function PostingsOf(outs: seq<Outcome>, k: nat): seq<Posting>
    requires AllCompleted(outs, k)
  {
    if k == 0 then [] else PostingsOf(outs, k - 1) + outs[k - 1].postings
  }

  function RecordsOf(outs: seq<Outcome>, k: nat): seq<Posting>
    requires AllCompleted(outs, k)
  {
    if k == 0 then [] else RecordsOf(outs, k - 1) + WithId(outs[k - 1].postings)
  }

  function MissingOf(start: int, outs: seq<Outcome>, k: nat): seq<Issue>
    requires AllCompleted(outs, k)
  {
    if k == 0 then [] else MissingOf(start, outs, k - 1) + MissingIds(start + k - 1, outs[k - 1].postings)
  }

  /**
   What a run returns: the records and missing ids of the completed pages, and the issue of
   the page that ended it, if the page limit did not.
  */
  function Summary(start: int, outs: seq<Outcome>, sample: Option<Tree>): CollectorResult {
    var k := GoodRun(outs);
    GoodRunIsLongest(outs);
    CollectorResult(
      RecordsOf(outs, k),
      MissingOf(start, outs, k) + if k < |outs| then outs[k].issues else [],
      k,
      sample)
  }

  function Collect(show: Show, cfg: CollectorConfig, script: Script): CollectorResult
    requires cfg.mapping.Some?
  {
    Summary(cfg.pagination.start, Outcomes(show, cfg, script, PageLimit(cfg)), FirstSample(cfg, script))
  }

  function FirstSample(cfg: CollectorConfig, script: Script): Option<Tree> {
    if PageLimit(cfg) > 0 && Fetched(script.Fetch(0)) then Some(OrEmpty(script.Fetch(0).json)) else None
  }

  /** How many fetches a run makes: one for each completed page, and one for the page that ends it. */
  function Fetches(outs: seq<Outcome>): nat {
    var k := GoodRun(outs);
    if k == |outs| then k else k + 1
  }

  // ---------- the loop ----------

  /** A fetcher that follows a script. FakeFetcher is the one whose script is FakeScript. */
  class ScriptedFetcher {
    const script: Script
    var index: nat
    var calls: seq<Option<int>>

    ghost predicate Valid()
      reads this
    {
      index == if |calls| < |script.pages| then |calls| else |script.pages|
    }

    constructor (script: Script)
      ensures Valid() && calls == [] && this.script == script
    {
      this.script := script;
      index, calls := 0, [];
    }

    method Fetch(page: Option<int>) returns (r: FetchResult)
      requires Valid()
      modifies this
      ensures Valid() && calls == old(calls) + [page]
      ensures r == script.Fetch(|old(calls)|)
    {
      calls := calls + [page];
      if index < |script.pages| {
        r := script.pages[index];
        index := index + 1;
      } else {
        r := script.last;
      }
    }
  }

  /** Stored samples, each answered with status 200, and {} when they have run out. */
  function FakeScript(samples: seq<Tree>): Script {
    Script(seq(|samples|, i requires 0 <= i < |samples| => FetchResult(200, samples[i], false)),
           FetchResult(200, EMPTY_DICT, false))
  }

  /** The collector only runs api_jobs configs with a request and a mapping; otherwise it raises. */
  predicate Runnable(cfg: CollectorConfig) {
    cfg.kind == ApiJobs && cfg.hasRequest && cfg.mapping.Some?
  }

  /** The page numbers the first n fetches send: start, start + 1, ... */
  function SentPages(cfg: CollectorConfig, n: nat): seq<Option<int>> {
    if n == 0 then []
    else SentPages(cfg, n - 1) + [if cfg.pagination.numbered then Some(cfg.pagination.start + n - 1) else None]
  }

  method Run(show: Show, cfg: CollectorConfig, fetcher: ScriptedFetcher) returns (r: Option<CollectorResult>)
    requires fetcher.Valid() && fetcher.calls == []
    modifies fetcher
    ensures r.Some? <==> Runnable(cfg)
    ensures r.Some? ==> r.value == Collect(show, cfg, fetcher.script)
    ensures r.Some? ==> fetcher.calls == SentPages(cfg, Fetches(Outcomes(show, cfg, fetcher.script, PageLimit(cfg))))
  {
    if !Runnable(cfg) {
      return None;
    }
    var records: seq<Posting>, issues: seq<Issue>, sample: Option<Tree> := [], [], None;
    var page, pagesDone := cfg.pagination.start, 0;
    ghost var script, outs := fetcher.script, Outcomes(show, cfg, fetcher.script, PageLimit(cfg));
    while pagesDone < cfg.pagination.maxPages
      invariant fetcher.Valid() && |fetcher.calls| == pagesDone && fetcher.calls == SentPages(cfg, pagesDone)
      invariant 0 <= pagesDone <= |outs| && page == cfg.pagination.start + pagesDone
      invariant AllCompleted(outs, pagesDone)
      invariant records == RecordsOf(outs, pagesDone)
      invariant issues == MissingOf(cfg.pagination.start, outs, pagesDone)
      invariant sample == if pagesDone > 0 then FirstSample(cfg, script) else None
    {
      var result := fetcher.Fetch(if cfg.pagination.numbered then Some(page) else None);
      SentNext(cfg, page, pagesDone);
      var outcome := ReadPage(show, cfg, page, result);
      OutcomesAt(show, cfg, script, page, PageLimit(cfg), pagesDone);
      if pagesDone == 0 && Fetched(result) {
        sample := Some(OrEmpty(result.json));
      }
      if outcome.Ended? {
        GoodRunIs(outs, pagesDone);
        return Some(CollectorResult(records, issues + outcome.issues, pagesDone, sample));
      }
      var newRecords, newIssues := Sort(page, outcome.postings);
      PageAdded(cfg.pagination.start, page, outs, pagesDone);
      records, issues := records + newRecords, issues + newIssues;
      pagesDone := pagesDone + 1;
      page := page + 1;
    }
    GoodRunIs(outs, pagesDone);
    return Some(CollectorResult(records, issues, pagesDone, sample));
  }

  /** The ways a page can end the run; otherwise one posting for each item. */
  method ReadPage(show: Show, cfg: CollectorConfig, page: int, result: FetchResult) returns (outcome: Outcome)
    requires cfg.mapping.Some?
    ensures outcome == OutcomeOf(show, cfg, page, result)
  {
    if result.blocked || result.status >= 400 {
      return Ended([FetchFailed(page)]);
    }
    var m := cfg.mapping.value;
    var found := Search(OrEmpty(result.json), m.itemsPath);
    if Falsy(found) {
      found := List([]);
    }
    if !found.List? {
      return Ended([ItemsPathNotList]);
    }
    if found.items == [] && cfg.pagination.stop == EmptyItems {
      return Ended([]);
    }
    var postings := [];
    for i := 0 to |found.items|
      invariant |postings| == i
      invariant forall j | 0 <= j < i :: postings[j] == Extract(show, m, found.items[j])
    {
      postings := postings + [Extract(show, m, found.items[i])];
    }
    assert postings == ExtractAll(show, m, found.items);
    return Completed(postings);
  }

  /** Postings with an id become records, the others issues. */
  method Sort(page: int, postings: seq<Posting>) returns (records: seq<Posting>, issues: seq<Issue>)
    ensures records == WithId(postings) && issues == MissingIds(page, postings)
  {
    records, issues := [], [];
    for n := 0 to |postings|
      invariant records == WithId(postings[..n]) && issues == MissingIds(page, postings[..n])
    {
      assert postings[..n + 1][..n] == postings[..n];
      if postings[n].externalId == "" {
        issues := issues + [MissingExternalId(page)];
      } else {
        records := records + [postings[n]];
      }
    }
    assert postings[..|postings|] == postings;
  }

  // ---------- what a run amounts to ----------

  /** The completed pages are the longest run of good pages, from the first one. */
  lemma {:induction false} GoodRunIsLongest(outs: seq<Outcome>)
    ensures var k := GoodRun(outs);
            AllCompleted(outs, k) && (k < |outs| ==> outs[k].Ended?)
  {
    if outs != [] && outs[0].Completed? {
      GoodRunIsLongest(outs[1..]);
    }
  }

  lemma GoodRunIs(outs: seq<Outcome>, k: nat)
    requires AllCompleted(outs, k)
    requires k < |outs| ==> outs[k].Ended?
    ensures GoodRun(outs) == k
  {
    GoodRunIsLongest(outs);
  }

  lemma SentNext(cfg: CollectorConfig, page: int, n: nat)
    requires page == cfg.pagination.start + n
    ensures SentPages(cfg, n + 1) == SentPages(cfg, n) + [if cfg.pagination.numbered then Some(page) else None]
  {
  }

  /** One request for each fetch, numbered start, start + 1, ... if pages are numbered. */
  lemma {:induction false} SentPagesNumbered(cfg: CollectorConfig, n: nat)
    ensures |SentPages(cfg, n)| == n
    ensures forall i | 0 <= i < n :: SentPages(cfg, n)[i] ==
              if cfg.pagination.numbered then Some(cfg.pagination.start + i) else None
  {
    if n > 0 {
      SentPagesNumbered(cfg, n - 1);
    }
  }

  /** What one more completed page adds. */
  lemma PageAdded(start: int, page: int, outs: seq<Outcome>, k: nat)
    requires AllCompleted(outs, k) && k < |outs| && outs[k].Completed? && page == start + k
    ensures AllCompleted(outs, k + 1)
    ensures RecordsOf(outs, k + 1) == RecordsOf(outs, k) + WithId(outs[k].postings)
    ensures MissingOf(start, outs, k + 1) == MissingOf(start, outs, k) + MissingIds(page, outs[k].postings)
  {
  }

  lemma {:induction false} WithIdPlusMissing(page: int, ps: seq<Posting>)
    ensures |WithId(ps)| + |MissingIds(page, ps)| == |ps|
    ensures forall i | i in MissingIds(page, ps) :: i.MissingExternalId?
  {
    if ps != [] {
      WithIdPlusMissing(page, ps[..|ps| - 1]);
    }
  }

  lemma {:induction false} PagesAddUp(start: int, outs: seq<Outcome>, k: nat)
    requires AllCompleted(outs, k)
    ensures |RecordsOf(outs, k)| + |MissingOf(start, outs, k)| == |PostingsOf(outs, k)|
    ensures forall i | i in MissingOf(start, outs, k) :: i.MissingExternalId?
  {
    if k > 0 {
      PagesAddUp(start, outs, k - 1);
      WithIdPlusMissing(start + k - 1, outs[k - 1].postings);
    }
  }

  lemma {:induction false} RecordsAreAllWithId(outs: seq<Outcome>, k: nat)
    requires AllCompleted(outs, k)
    ensures RecordsOf(outs, k) == WithId(PostingsOf(outs, k))
  {
    if k > 0 {
      RecordsAreAllWithId(outs, k - 1);
      WithIdConcat(PostingsOf(outs, k - 1), outs[k - 1].postings);
    }
  }

  lemma {:induction false} WithIdConcat(ps: seq<Posting>, qs: seq<Posting>)
    ensures WithId(ps + qs) == WithId(ps) + WithId(qs)
  {
    if qs == [] {
      assert ps + qs == ps;
    } else {
      assert (ps + qs)[..|ps + qs| - 1] == ps + qs[..|qs| - 1];
      WithIdConcat(ps, qs[..|qs| - 1]);
    }
  }

  /** The number of missing_external_id issues. */
  function CountMissingIds(issues: seq<Issue>): nat {
    if issues == [] then 0
    else (if issues[0].MissingExternalId? then 1 else 0) + CountMissingIds(issues[1..])
  }

  lemma {:induction false} CountMissingIdsSplit(xs: seq<Issue>, ys: seq<Issue>)
    requires forall i | i in xs :: i.MissingExternalId?
    ensures CountMissingIds(xs + ys) == |xs| + CountMissingIds(ys)
  {
    if xs == [] {
      assert xs + ys == ys;
    } else {
      assert (xs + ys)[1..] == xs[1..] + ys;
      CountMissingIdsSplit(xs[1..], ys);
    }
  }

  /**
   No item of a completed page is lost or invented. The completed pages are the longest run
   of good ones within the page limit; the records are the postings with an id of all their
   items, in order, and together with the missing_external_id issues they are as many as
   those items. The fetches are the completed pages or one more, within the page limit.
  */
  lemma CollectAddsUp(show: Show, cfg: CollectorConfig, script: Script)
    requires cfg.mapping.Some?
    ensures var r, outs := Collect(show, cfg, script), Outcomes(show, cfg, script, PageLimit(cfg));
            var k := r.pagesCollected;
            && AllCompleted(outs, k) && (k < |outs| ==> outs[k].Ended?)
            && r.records == WithId(PostingsOf(outs, k))
            && |r.records| + CountMissingIds(r.issues) == |PostingsOf(outs, k)|
            && k <= Fetches(outs) <= k + 1
            && Fetches(outs) <= PageLimit(cfg)
  {
    var outs, start := Outcomes(show, cfg, script, PageLimit(cfg)), cfg.pagination.start;
    var k := GoodRun(outs);
    GoodRunIsLongest(outs);
    PagesAddUp(start, outs, k);
    RecordsAreAllWithId(outs, k);
    if k < |outs| {
      OutcomesAt(show, cfg, script, start + k, |outs|, k);
      CountMissingIdsSplit(MissingOf(start, outs, k), outs[k].issues);
    } else {
      CountMissingIdsSplit(MissingOf(start, outs, k), []);
    }
  }

  /**
   On stored samples a run that stops at empty items makes at most one fetch more than there
   are samples: the answer after the last sample has no items.
  */
  lemma FakeFetchesBounded(show: Show, cfg: CollectorConfig, samples: seq<Tree>)
    requires cfg.mapping.Some? && cfg.pagination.stop == EmptyItems
    ensures var n := Fetches(Outcomes(show, cfg, FakeScript(samples), PageLimit(cfg)));
            n <= |samples| + 1 && n <= PageLimit(cfg)
  {
    var script := FakeScript(samples);
    var outs := Outcomes(show, cfg, script, PageLimit(cfg));
    var k := GoodRun(outs);
    GoodRunIsLongest(outs);
    if |samples| < k {
      assert Items(cfg.mapping.value, script.Fetch(|samples|)) == Some([]);
      OutcomesAt(show, cfg, script, cfg.pagination.start + |samples|, |outs|, |samples|);
    }
  }
}
