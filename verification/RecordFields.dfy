/**
 What a run of the collector puts into its records and issues, field by field, in terms of
 the fetched documents alone (_extract and the loop around it in app/collectors/api_jobs.py).
*/
module RecordFields {
  import opened Results
  import opened Trees
  import opened Collector

  // ---------- one item ----------

  /** What the path mapped to a field leads to; nothing where the field has no path. */
  function Mapped(m: Mapping, name: string, item: Tree): Option<Tree> {
    if name !in m.fields || m.fields[name] == [] then None else Lookup(item, m.fields[name])
  }

  /** The shown value, or none where there is no value or null. */
  predicate Shows(show: Show, at: Option<Tree>, text: Option<string>) {
    if at.None? || at.value.Null? then text.None? else text == Some(show(at.value))
  }

  function Concat(texts: seq<string>): string {
    if texts == [] then "" else texts[0] + Concat(texts[1..])
  }

  /** Every field the template names is a key of the item. */
  predicate Fills(template: seq<Segment>, item: Tree) {
    item.Dict? && forall i | 0 <= i < |template| && template[i].Field? :: template[i].name in item.entries
  }

  function Pieces(show: Show, template: seq<Segment>, item: Tree): (texts: seq<string>)
    requires Fills(template, item)
    ensures |texts| == |template|
    ensures forall i | 0 <= i < |texts| :: texts[i] ==
              if template[i].Text? then template[i].text else show(item.entries[template[i].name])
  {
    seq(|template|, i requires 0 <= i < |template| =>
      match template[i] case Text(text) => text case Field(name) => show(item.entries[name]))
  }

  /** A filled template has the text of each segment in order; there is none exactly when a named field is missing. */
  lemma {:induction false} FormatFills(show: Show, template: seq<Segment>, item: Tree)
    ensures Format(show, template, item).Some? <==> Fills(template, item)
    ensures Fills(template, item) ==> Format(show, template, item) == Some(Concat(Pieces(show, template, item)))
  {
    if item.Dict? && template != [] {
      var rest := template[1..];
      FormatFills(show, rest, item);
      if Fills(template, item) {
        assert Pieces(show, template, item)[1..] == Pieces(show, rest, item);
      } else if Fills(rest, item) {
        assert forall i | 0 < i < |template| :: template[i] == rest[i - 1];
      }
    }
  }

  /**
   The record of an item: each field from its own path, the id empty where it is null or
   missing; the link from its path unless that leads to nothing or to something false and
   there is a template to fill; the item itself if it is a dict.
  */
  predicate IsRecord(show: Show, m: Mapping, item: Tree, p: Posting) {
    var id, link := Mapped(m, "external_id", item), Mapped(m, "link", item);
    && p.externalId == (if id.None? || id.value.Null? then "" else show(id.value))
    && Shows(show, Mapped(m, "title", item), p.title)
    && Shows(show, Mapped(m, "company", item), p.company)
    && Shows(show, Mapped(m, "deadline", item), p.deadline)
    && (if (link.None? || Falsy(link.value)) && m.linkTemplate != [] then
          if Fills(m.linkTemplate, item) then p.link == Some(Concat(Pieces(show, m.linkTemplate, item)))
          else p.link.None?
        else Shows(show, link, p.link))
    && p.raw == (if item.Dict? then Some(item) else None)
  }

  lemma ExtractIsRecord(show: Show, m: Mapping, item: Tree)
    ensures IsRecord(show, m, item, Extract(show, m, item))
  {
    FormatFills(show, m.linkTemplate, item);
  }

  // ---------- one page ----------

  /** The items of a response: none if its path leads to nothing or to something false, else those of the list there. */
  predicate ItemsAre(m: Mapping, json: Tree, items: seq<Tree>) {
    var at := Lookup(if Falsy(json) then Dict(map[]) else json, m.itemsPath);
    if at.None? || Falsy(at.value) then items == [] else at.value == List(items)
  }

  /** Record after record, those of the items. */
  predicate AreRecords(show: Show, m: Mapping, items: seq<Tree>, ps: seq<Posting>) {
    |ps| == |items| && forall i | 0 <= i < |items| :: IsRecord(show, m, items[i], ps[i])
  }

  /** What a page comes to: blocked or refused, without a list, without items, or with a record for each item. */
  lemma PageMeans(show: Show, cfg: CollectorConfig, page: int, r: FetchResult)
    requires cfg.mapping.Some?
    ensures var m, outcome := cfg.mapping.value, OutcomeOf(show, cfg, page, r);
            if r.blocked || r.status >= 400 then outcome == Ended([FetchFailed(page)])
            else if forall items :: !ItemsAre(m, r.json, items) then outcome == Ended([ItemsPathNotList])
            else forall items | ItemsAre(m, r.json, items) ::
              if items == [] && cfg.pagination.stop == EmptyItems then outcome == Ended([])
              else outcome.Completed? && AreRecords(show, m, items, outcome.postings)
  {
    hide Extract, IsRecord;
    var m := cfg.mapping.value;
    if Items(m, r).Some? {
      assert ItemsAre(m, r.json, Items(m, r).value);
      forall i | 0 <= i < |Items(m, r).value|
        ensures IsRecord(show, m, Items(m, r).value[i], Extract(show, m, Items(m, r).value[i]))
      {
        ExtractIsRecord(show, m, Items(m, r).value[i]);
      }
    }
  }

  /** A page that neither ends the run nor is the last one. */
  ghost predicate GoodPage(cfg: CollectorConfig, r: FetchResult)
    requires cfg.mapping.Some?
  {
    && !r.blocked && r.status < 400
    && exists items :: ItemsAre(cfg.mapping.value, r.json, items) && (items != [] || cfg.pagination.stop != EmptyItems)
  }

  // ---------- a whole run ----------

  function Flat(pages: seq<seq<Tree>>): seq<Tree> {
    if pages == [] then [] else Flat(pages[..|pages| - 1]) + pages[|pages| - 1]
  }

  /** The item has an id that is not empty. */
  predicate HasId(show: Show, m: Mapping, item: Tree) {
    var id := Mapped(m, "external_id", item);
    id.Some? && !id.value.Null? && show(id.value) != ""
  }

  /** How many of the first n items have an id. */
  function Kept(show: Show, m: Mapping, items: seq<Tree>, n: nat): nat
    requires n <= |items|
  {
    |set i | 0 <= i < n && HasId(show, m, items[i])|
  }

  lemma KeptNext(show: Show, m: Mapping, items: seq<Tree>, n: nat)
    requires n < |items|
    ensures Kept(show, m, items, n + 1) == Kept(show, m, items, n) + if HasId(show, m, items[n]) then 1 else 0
  {
    var before := set i | 0 <= i < n && HasId(show, m, items[i]);
    assert (set i | 0 <= i < n + 1 && HasId(show, m, items[i])) ==
           if HasId(show, m, items[n]) then before + {n} else before;
  }

  lemma KeptOfPrefix(show: Show, m: Mapping, items: seq<Tree>, more: seq<Tree>, n: nat)
    requires n <= |items|
    ensures Kept(show, m, items + more, n) == Kept(show, m, items, n)
  {
    assert (set i | 0 <= i < n && HasId(show, m, (items + more)[i])) == set i | 0 <= i < n && HasId(show, m, items[i]);
  }

  /** The records are those of the items with an id, in order. */
  predicate KeepsRecords(show: Show, m: Mapping, items: seq<Tree>, records: seq<Posting>) {
    && |records| == Kept(show, m, items, |items|)
    && forall i | 0 <= i < |items| && HasId(show, m, items[i]) ::
         Kept(show, m, items, i) < |records| && IsRecord(show, m, items[i], records[Kept(show, m, items, i)])
  }

  /** One more item. */
  lemma KeepsNext(show: Show, m: Mapping, items: seq<Tree>, item: Tree, records: seq<Posting>, p: Posting)
    requires KeepsRecords(show, m, items, records) && IsRecord(show, m, item, p)
    ensures KeepsRecords(show, m, items + [item], records + if p.externalId == "" then [] else [p])
  {
    hide IsRecord, Kept, HasId;
    var all, n := items + [item], |items|;
    IdKept(show, m, item, p);
    KeptNext(show, m, all, n);
    KeptOfPrefix(show, m, items, [item], n);
    forall i | 0 <= i < n && HasId(show, m, all[i])
      ensures Kept(show, m, all, i) == Kept(show, m, items, i) < |records| && all[i] == items[i]
    {
      KeptOfPrefix(show, m, items, [item], i);
    }
  }

  lemma IdKept(show: Show, m: Mapping, item: Tree, p: Posting)
    requires IsRecord(show, m, item, p)
    ensures HasId(show, m, item) <==> p.externalId != ""
  {
  }

  lemma {:induction false} WithIdKeeps(show: Show, m: Mapping, items: seq<Tree>, ps: seq<Posting>)
    requires AreRecords(show, m, items, ps)
    ensures KeepsRecords(show, m, items, WithId(ps))
  {
    if items != [] {
      hide IsRecord, KeepsRecords;
      var n := |items| - 1;
      WithIdKeeps(show, m, items[..n], ps[..n]);
      KeepsNext(show, m, items[..n], items[n], WithId(ps[..n]), ps[n]);
      assert items[..n] + [items[n]] == items;
    }
  }

  function Copies(issue: Issue, n: int): seq<Issue> {
    if n <= 0 then [] else seq(n, _ => issue)
  }

  /** For each page in turn, as many issues with its number as it has items without an id. */
  function Lost(show: Show, m: Mapping, start: int, pages: seq<seq<Tree>>): seq<Issue> {
    if pages == [] then []
    else
      var n := |pages| - 1;
      Lost(show, m, start, pages[..n]) +
      Copies(MissingExternalId(start + n), |pages[n]| - Kept(show, m, pages[n], |pages[n]|))
  }

  lemma {:induction false} MissingIdsAre(page: int, ps: seq<Posting>)
    ensures |WithId(ps)| <= |ps| && MissingIds(page, ps) == Copies(MissingExternalId(page), |ps| - |WithId(ps)|)
  {
    if ps != [] {
      MissingIdsAre(page, ps[..|ps| - 1]);
    }
  }

  /** The items of the first pages of a script. */
  ghost predicate PagesAre(m: Mapping, script: Script, pages: seq<seq<Tree>>) {
    forall j | 0 <= j < |pages| :: ItemsAre(m, script.Fetch(j).json, pages[j])
  }

  /** The pages are those a run completes: all good, up to the page limit or to a page that is not. */
  ghost predicate CompletedPages(cfg: CollectorConfig, script: Script, pages: seq<seq<Tree>>)
    requires cfg.mapping.Some?
  {
    && PagesAre(cfg.mapping.value, script, pages)
    && (forall j | 0 <= j < |pages| :: GoodPage(cfg, script.Fetch(j)))
    && (if |pages| < cfg.pagination.maxPages then !GoodPage(cfg, script.Fetch(|pages|))
        else |pages| == cfg.pagination.maxPages || |pages| == 0)
  }

  /** The issue of a page that is not good. */
  ghost function EndingOf(cfg: CollectorConfig, page: int, r: FetchResult): seq<Issue>
    requires cfg.mapping.Some?
  {
    if r.blocked || r.status >= 400 then [FetchFailed(page)]
    else if forall items :: !ItemsAre(cfg.mapping.value, r.json, items) then [ItemsPathNotList]
    else []
  }

  /**
   What a run returns, from the fetched documents alone. It completes the good pages up to the
   page limit or the first one that is not good. The records are those of the items with an
   id, in order and field by field. Each other item has an issue with the number of its page,
   and the page that ended the run has its own, if any, behind them. The sample is the first
   response. One page is fetched after the completed ones, unless they are as many as the limit.
  */
  lemma RunMeans(show: Show, cfg: CollectorConfig, script: Script, pages: seq<seq<Tree>>)
    requires cfg.mapping.Some? && CompletedPages(cfg, script, pages)
    ensures var m, start, r := cfg.mapping.value, cfg.pagination.start, Collect(show, cfg, script);
            var first := script.Fetch(0);
            && r.pagesCollected == |pages|
            && KeepsRecords(show, m, Flat(pages), r.records)
            && r.issues == Lost(show, m, start, pages) +
                           (if |pages| >= cfg.pagination.maxPages then []
                            else EndingOf(cfg, start + |pages|, script.Fetch(|pages|)))
            && r.firstSample == (if cfg.pagination.maxPages <= 0 || first.blocked || first.status >= 400 then None
                                 else Some(if Falsy(first.json) then Dict(map[]) else first.json))
            && Fetches(Outcomes(show, cfg, script, PageLimit(cfg))) ==
               (if |pages| < cfg.pagination.maxPages then |pages| + 1 else |pages|)
  {
    hide Kept, IsRecord, KeepsRecords, GoodPage, ItemsAre;
    var outs := Outcomes(show, cfg, script, PageLimit(cfg));
    forall j | 0 <= j < |outs|
      ensures outs[j].Completed? <==> GoodPage(cfg, script.Fetch(j))
      ensures outs[j].Ended? ==> outs[j].issues == EndingOf(cfg, cfg.pagination.start + j, script.Fetch(j))
    {
      PageIs(show, cfg, script, outs, j);
    }
    forall j | 0 <= j < |pages|
      ensures AreRecords(show, cfg.mapping.value, pages[j], outs[j].postings)
    {
      PageIs(show, cfg, script, outs, j);
    }
    GoodRunIs(outs, |pages|);
    FlatRecords(show, cfg.mapping.value, outs, pages);
    AllLost(show, cfg.mapping.value, cfg.pagination.start, outs, pages);
    WithIdKeeps(show, cfg.mapping.value, Flat(pages), PostingsOf(outs, |pages|));
    RecordsAreAllWithId(outs, |pages|);
  }

  lemma PageIs(show: Show, cfg: CollectorConfig, script: Script, outs: seq<Outcome>, j: nat)
    requires cfg.mapping.Some? && outs == Outcomes(show, cfg, script, PageLimit(cfg)) && j < |outs|
    ensures outs[j].Completed? <==> GoodPage(cfg, script.Fetch(j))
    ensures outs[j].Ended? ==> outs[j].issues == EndingOf(cfg, cfg.pagination.start + j, script.Fetch(j))
    ensures forall items | outs[j].Completed? && ItemsAre(cfg.mapping.value, script.Fetch(j).json, items) ::
              AreRecords(show, cfg.mapping.value, items, outs[j].postings)
  {
    OutcomesAt(show, cfg, script, cfg.pagination.start + j, |outs|, j);
    PageMeans(show, cfg, cfg.pagination.start + j, script.Fetch(j));
    hide OutcomeOf, Outcomes, ItemsAre;
  }

  /** The first outcomes are completed pages with these items. */
  predicate AllAreRecords(show: Show, m: Mapping, outs: seq<Outcome>, pages: seq<seq<Tree>>) {
    AllCompleted(outs, |pages|) && forall j | 0 <= j < |pages| :: AreRecords(show, m, pages[j], outs[j].postings)
  }

  lemma {:induction false} FlatRecords(show: Show, m: Mapping, outs: seq<Outcome>, pages: seq<seq<Tree>>)
    requires AllAreRecords(show, m, outs, pages)
    ensures AreRecords(show, m, Flat(pages), PostingsOf(outs, |pages|))
  {
    if pages != [] {
      hide IsRecord;
      FlatRecords(show, m, outs, pages[..|pages| - 1]);
    }
  }

  lemma {:induction false} AllLost(show: Show, m: Mapping, start: int, outs: seq<Outcome>, pages: seq<seq<Tree>>)
    requires AllAreRecords(show, m, outs, pages)
    ensures MissingOf(start, outs, |pages|) == Lost(show, m, start, pages)
  {
    if pages != [] {
      hide AreRecords, Kept, Copies, MissingIds;
      var k := |pages| - 1;
      AllLost(show, m, start, outs, pages[..k]);
      LostOnPage(show, m, start + k, pages[k], outs[k].postings);
    }
  }

  lemma LostOnPage(show: Show, m: Mapping, page: int, items: seq<Tree>, ps: seq<Posting>)
    requires AreRecords(show, m, items, ps)
    ensures MissingIds(page, ps) == Copies(MissingExternalId(page), |items| - Kept(show, m, items, |items|))
  {
    hide IsRecord, HasId, Kept, WithId, MissingIds, Copies;
    WithIdKeeps(show, m, items, ps);
    MissingIdsAre(page, ps);
  }

  /** Every run has its completed pages. */
  lemma CompletedPagesExist(show: Show, cfg: CollectorConfig, script: Script) returns (pages: seq<seq<Tree>>)
    requires cfg.mapping.Some?
    ensures CompletedPages(cfg, script, pages)
  {
    var outs, n := Outcomes(show, cfg, script, PageLimit(cfg)), 0;
    pages := [];
    while n < |outs| && outs[n].Completed?
      invariant n == |pages| <= |outs| && PagesAre(cfg.mapping.value, script, pages)
      invariant forall j | 0 <= j < n :: GoodPage(cfg, script.Fetch(j))
    {
      hide ItemsAre, Outcomes, OutcomeOf;
      PageIs(show, cfg, script, outs, n);
      var items :| ItemsAre(cfg.mapping.value, script.Fetch(n).json, items);
      pages, n := pages + [items], n + 1;
    }
    if n < |outs| {
      PageIs(show, cfg, script, outs, n);
    }
  }
}
