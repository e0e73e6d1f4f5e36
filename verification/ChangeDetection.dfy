/**
 Which changes of a posting the upsert detects (content_hash in app/models.py, the three
 branches of upsert_postings in app/storage/repository.py), said without the hash: for a
 digest without collisions and titles and companies without the separator, exactly those of the title, the
 company and the deadline.
*/
module ChangeDetection {
  import opened Results
  import opened Collector
  import opened RunLog
  import opened Postings

  const SEPARATOR := '\U{001f}'

  /** The columns a change is looked for in. */
  datatype Content = Content(title: Option<string>, company: Option<string>, deadline: Option<string>)

  function ContentOf(p: Posting): Content {
    Content(p.title, p.company, p.deadline)
  }

  function ContentOfRow(r: Row): Content {
    Content(r.title, r.company, r.deadline)
  }

  /** Nothing and the empty text are the same. */
  predicate SameText(a: Option<string>, b: Option<string>) {
    a == b || ((a.None? || a.value == "") && (b.None? || b.value == ""))
  }

  predicate SameContent(c: Content, d: Content) {
    SameText(c.title, d.title) && SameText(c.company, d.company) && SameText(c.deadline, d.deadline)
  }

  ghost predicate CollisionFree(sha: Digest) {
    forall a, b | sha(a) == sha(b) :: a == b
  }

  /** No separator where one follows. */
  predicate Plain(c: Content) {
    && (c.title.Some? ==> SEPARATOR !in c.title.value)
    && (c.company.Some? ==> SEPARATOR !in c.company.value)
  }

  /** The table's hashes are right, and its fields are plain. */
  ghost predicate PlainTable(sha: Digest, rows: Table) {
    HashesFit(sha, rows) && forall k | k in rows :: Plain(ContentOfRow(rows[k]))
  }

  // ---------- the hash tells contents apart ----------

  lemma FirstChar(a: string, s: string)
    ensures (a + [SEPARATOR] + s)[0] == if a == "" then SEPARATOR else a[0]
    ensures (a + [SEPARATOR] + s)[1..] == if a == "" then s else a[1..] + [SEPARATOR] + s
  {
  }

  lemma {:induction false} JoinedOnce(a: string, b: string, s: string, t: string)
    requires SEPARATOR !in a && SEPARATOR !in b && a + [SEPARATOR] + s == b + [SEPARATOR] + t
    ensures a == b && s == t
  {
    FirstChar(a, s);
    FirstChar(b, t);
    if a != "" && b != "" {
      JoinedOnce(a[1..], b[1..], s, t);
    }
  }

  lemma JoinedTwice(a1: string, a2: string, a3: string, b1: string, b2: string, b3: string)
    requires SEPARATOR !in a1 && SEPARATOR !in a2 && SEPARATOR !in b1 && SEPARATOR !in b2
    requires a1 + [SEPARATOR] + a2 + [SEPARATOR] + a3 == b1 + [SEPARATOR] + b2 + [SEPARATOR] + b3
    ensures a1 == b1 && a2 == b2 && a3 == b3
  {
    var sep := [SEPARATOR];
    assert a1 + sep + a2 + sep + a3 == a1 + sep + (a2 + sep + a3);
    assert b1 + sep + b2 + sep + b3 == b1 + sep + (b2 + sep + b3);
    JoinedOnce(a1, b1, a2 + sep + a3, b2 + sep + b3);
    JoinedOnce(a2, b2, a3, b3);
  }

  lemma SameTextMeans(a: Option<string>, b: Option<string>)
    ensures SameText(a, b) <==> a.GetOr("") == b.GetOr("")
  {
  }

  /** Contents that differ have different hashes, and others have equal ones. */
  lemma HashTells(sha: Digest, c: Content, d: Content)
    requires CollisionFree(sha) && Plain(c) && Plain(d)
    ensures HashOf(sha, c.title, c.company, c.deadline) == HashOf(sha, d.title, d.company, d.deadline) <==>
            SameContent(c, d)
  {
    SameTextMeans(c.title, d.title);
    SameTextMeans(c.company, d.company);
    SameTextMeans(c.deadline, d.deadline);
    hide SameText;
    var x := c.title.GetOr("") + [SEPARATOR] + c.company.GetOr("") + [SEPARATOR] + c.deadline.GetOr("");
    var y := d.title.GetOr("") + [SEPARATOR] + d.company.GetOr("") + [SEPARATOR] + d.deadline.GetOr("");
    assert HashOf(sha, c.title, c.company, c.deadline) == sha(x);
    assert HashOf(sha, d.title, d.company, d.deadline) == sha(y);
    if sha(x) == sha(y) {
      JoinedTwice(c.title.GetOr(""), c.company.GetOr(""), c.deadline.GetOr(""),
                  d.title.GetOr(""), d.company.GetOr(""), d.deadline.GetOr(""));
    }
  }

  // ---------- one posting ----------

  /**
   A posting of a stored row counts as an update exactly when its title, company or deadline
   differs from the stored one; then the row gets all its fields, and otherwise nothing but
   the run that saw it last.
  */
  lemma ChangeIsSeen(sha: Digest, rows: Table, k: Key, p: Posting, runId: string, now: int)
    requires CollisionFree(sha) && PlainTable(sha, rows) && k in rows && Plain(ContentOf(p))
    ensures var after, same := UpsertOne(sha, rows, k, p, runId, now), SameContent(ContentOfRow(rows[k]), ContentOf(p));
            && StatOne(sha, rows, k, p) == (if same then Stats(0, 0, 1) else Stats(0, 1, 0))
            && k in after
            && (same ==> after[k] == rows[k].(lastSeenRun := runId))
            && (!same ==>
                && ContentOfRow(after[k]) == ContentOf(p) && after[k].link == p.link && after[k].raw == p.raw
                && after[k].lastSeenRun == runId && after[k].updatedAt == now
                && after[k].firstSeenRun == rows[k].firstSeenRun && after[k].createdAt == rows[k].createdAt)
  {
    HashTells(sha, ContentOfRow(rows[k]), ContentOf(p));
  }

  /** A separator inside a field hides a change, whatever the digest. */
  lemma SeparatorHidesChange(sha: Digest, rows: Table, k: Key, p: Posting, q: Posting, now: int, runId: string)
    requires k in rows && rows[k].hash == ContentHash(sha, p)
    requires p.title == Some("a" + [SEPARATOR] + "b") && p.company == Some("c")
    requires q.title == Some("a") && q.company == Some("b" + [SEPARATOR] + "c") && q.deadline == p.deadline
    ensures StatOne(sha, rows, k, q) == Stats(0, 0, 1)
    ensures UpsertOne(sha, rows, k, q, runId, now)[k] == rows[k].(lastSeenRun := runId)
  {
    var sep := [SEPARATOR];
    assert ("a" + sep + "b") + sep + "c" + sep == "a" + sep + ("b" + sep + "c") + sep;
  }

  // ---------- a batch ----------

  /** What is known under an id after a batch: its last posting with the id, or the row stored before. */
  function Latest(rows: Table, site: string, batch: seq<Entry>, id: string): Option<Content> {
    if batch == [] then
      if Key(site, id) in rows then Some(ContentOfRow(rows[Key(site, id)])) else None
    else
      var p := batch[|batch| - 1].posting;
      if p.externalId == id then Some(ContentOf(p)) else Latest(rows, site, batch[..|batch| - 1], id)
  }

  /** The row of each id of the site holds what is known last, and an id of which nothing is known has none. */
  ghost predicate HoldsLatest(rows: Table, site: string, batch: seq<Entry>, after: Table) {
    forall id :: HoldsContent(after, Key(site, id), Latest(rows, site, batch, id))
  }

  predicate HoldsContent(rows: Table, k: Key, latest: Option<Content>) {
    && (k in rows <==> latest.Some?)
    && (k in rows ==> SameContent(ContentOfRow(rows[k]), latest.value))
  }

  predicate PlainBatch(batch: seq<Entry>) {
    forall i | 0 <= i < |batch| :: Plain(ContentOf(batch[i].posting))
  }

  /** What posting i counts as, given what was known before it. */
  function CountsAs(rows: Table, site: string, batch: seq<Entry>, i: nat): (one: Stats)
    requires i < |batch|
    ensures one in {Stats(1, 0, 0), Stats(0, 1, 0), Stats(0, 0, 1)}
  {
    var latest := Latest(rows, site, batch[..i], batch[i].posting.externalId);
    if latest.None? then Stats(1, 0, 0)
    else if SameContent(latest.value, ContentOf(batch[i].posting)) then Stats(0, 0, 1)
    else Stats(0, 1, 0)
  }

  lemma OneKeepsPlain(sha: Digest, rows: Table, k: Key, p: Posting, runId: string, now: int)
    requires PlainTable(sha, rows) && Plain(ContentOf(p))
    ensures PlainTable(sha, UpsertOne(sha, rows, k, p, runId, now))
  {
    hide Plain;
  }

  lemma OneHoldsLatest(sha: Digest, rows: Table, so: Table, site: string, batch: seq<Entry>, e: Entry, runId: string)
    requires CollisionFree(sha) && PlainTable(sha, so) && Plain(ContentOf(e.posting))
    requires HoldsLatest(rows, site, batch, so)
    ensures HoldsLatest(rows, site, batch + [e], UpsertOne(sha, so, KeyOf(site, e), e.posting, runId, e.now))
    ensures StatOne(sha, so, KeyOf(site, e), e.posting) == CountsAs(rows, site, batch + [e], |batch|)
  {
    var k, all, after := KeyOf(site, e), batch + [e], UpsertOne(sha, so, KeyOf(site, e), e.posting, runId, e.now);
    assert all[..|batch|] == batch;
    assert HoldsContent(so, k, Latest(rows, site, batch, k.externalId));
    if k in so {
      ChangeIsSeen(sha, so, k, e.posting, runId, e.now);
    }
    forall id
      ensures HoldsContent(after, Key(site, id), Latest(rows, site, all, id))
    {
      assert HoldsContent(so, Key(site, id), Latest(rows, site, batch, id));
    }
  }

  /**
   After any batch the row of each id of the site holds the title, company and deadline of the
   last posting with the id, or what was stored if there is none.
  */
  lemma {:induction false} BatchHoldsLatest(sha: Digest, rows: Table, site: string, runId: string, batch: seq<Entry>)
    requires CollisionFree(sha) && PlainTable(sha, rows) && PlainBatch(batch)
    ensures var after := UpsertAll(sha, rows, site, runId, batch);
            PlainTable(sha, after) && HoldsLatest(rows, site, batch, after)
  {
    if batch != [] {
      hide PlainTable, HoldsLatest, UpsertOne, Plain, CollisionFree;
      var n := |batch| - 1;
      var so, e := UpsertAll(sha, rows, site, runId, batch[..n]), batch[n];
      BatchHoldsLatest(sha, rows, site, runId, batch[..n]);
      OneKeepsPlain(sha, so, KeyOf(site, e), e.posting, runId, e.now);
      OneHoldsLatest(sha, rows, so, site, batch[..n], e, runId);
      assert batch[..n] + [e] == batch;
    }
  }

  /** The postings that count as this. */
  function Those(rows: Table, site: string, batch: seq<Entry>, one: Stats): set<int> {
    set i | 0 <= i < |batch| && CountsAs(rows, site, batch, i) == one
  }

  lemma ThoseNext(rows: Table, site: string, batch: seq<Entry>, one: Stats)
    requires batch != []
    ensures var n := |batch| - 1;
            |Those(rows, site, batch, one)| ==
            |Those(rows, site, batch[..n], one)| + if CountsAs(rows, site, batch, n) == one then 1 else 0
  {
    var n := |batch| - 1;
    forall i | 0 <= i < n
      ensures CountsAs(rows, site, batch[..n], i) == CountsAs(rows, site, batch, i)
    {
      hide Latest, SameContent;
      assert batch[..n][..i] == batch[..i];
    }
    hide CountsAs;
    var init := Those(rows, site, batch[..n], one);
    assert Those(rows, site, batch, one) == if CountsAs(rows, site, batch, n) == one then init + {n} else init;
  }

  /** The last posting of a batch counts by what was known before it. */
  lemma LastCountsAs(sha: Digest, rows: Table, site: string, runId: string, batch: seq<Entry>)
    requires batch != [] && CollisionFree(sha) && PlainTable(sha, rows) && PlainBatch(batch)
    ensures var n := |batch| - 1;
            StatAll(sha, rows, site, runId, batch) ==
            StatAll(sha, rows, site, runId, batch[..n]).Plus(CountsAs(rows, site, batch, n))
  {
    hide PlainTable, HoldsLatest, UpsertOne, UpsertAll, StatOne, Plain, CollisionFree, CountsAs;
    var n := |batch| - 1;
    BatchHoldsLatest(sha, rows, site, runId, batch[..n]);
    OneHoldsLatest(sha, rows, UpsertAll(sha, rows, site, runId, batch[..n]), site, batch[..n], batch[n], runId);
    assert batch[..n] + [batch[n]] == batch;
  }

  /**
   A batch counts as inserted the postings whose id was not known, as updated those that differ
   in title, company or deadline from what was known last under their id, and the others as
   unchanged.
  */
  lemma {:induction false} BatchCounts(sha: Digest, rows: Table, site: string, runId: string, batch: seq<Entry>)
    requires CollisionFree(sha) && PlainTable(sha, rows) && PlainBatch(batch)
    ensures StatAll(sha, rows, site, runId, batch) ==
            Stats(|Those(rows, site, batch, Stats(1, 0, 0))|, |Those(rows, site, batch, Stats(0, 1, 0))|,
                  |Those(rows, site, batch, Stats(0, 0, 1))|)
  {
    if batch == [] {
      NoneOfThem(rows, site);
    } else {
      hide PlainTable, Plain, CollisionFree, Those, CountsAs, StatAll;
      BatchCounts(sha, rows, site, runId, batch[..|batch| - 1]);
      LastCountsAs(sha, rows, site, runId, batch);
      ThoseNext(rows, site, batch, Stats(1, 0, 0));
      ThoseNext(rows, site, batch, Stats(0, 1, 0));
      ThoseNext(rows, site, batch, Stats(0, 0, 1));
    }
  }

  lemma NoneOfThem(rows: Table, site: string)
    ensures forall one :: Those(rows, site, [], one) == {}
  {
  }
}
