/** The job_postings table and its transactional upsert (app/storage/repository.py, app/models.py). */
module Postings {
  import opened Results
  import opened Trees
  import opened Collector
  import opened RunLog

  datatype Key = Key(site: string, externalId: string)

  datatype Row = Row(
    title: Option<string>, company: Option<string>, deadline: Option<string>,
    link: Option<string>, raw: Option<Tree>,
    hash: string, firstSeenRun: string, lastSeenRun: string, createdAt: int, updatedAt: int)

  type Table = map<Key, Row>

  /** SHA-256; nothing is assumed about it. */
  type Digest = string -> string

  function HashOf(sha: Digest, title: Option<string>, company: Option<string>, deadline: Option<string>): string {
    sha(title.GetOr("") + "\U{001f}" + company.GetOr("") + "\U{001f}" + deadline.GetOr(""))
  }

  function ContentHash(sha: Digest, p: Posting): string {
    HashOf(sha, p.title, p.company, p.deadline)
  }

  // ---------- one posting ----------

  function Inserted(sha: Digest, p: Posting, runId: string, now: int): Row {
    Row(p.title, p.company, p.deadline, p.link, p.raw, ContentHash(sha, p), runId, runId, now, now)
  }

  function UpsertOne(sha: Digest, rows: Table, k: Key, p: Posting, runId: string, now: int): Table {
    if k !in rows then rows[k := Inserted(sha, p, runId, now)]
    else if rows[k].hash != ContentHash(sha, p) then
      rows[k := Inserted(sha, p, runId, now).(firstSeenRun := rows[k].firstSeenRun, createdAt := rows[k].createdAt)]
    else rows[k := rows[k].(lastSeenRun := runId)]
  }

  function StatOne(sha: Digest, rows: Table, k: Key, p: Posting): Stats {
    if k !in rows then Stats(1, 0, 0)
    else if rows[k].hash != ContentHash(sha, p) then Stats(0, 1, 0)
    else Stats(0, 0, 1)
  }

  // ---------- a batch ----------

  /** A posting and the time at which it is written. */
  datatype Entry = Entry(posting: Posting, now: int)

  function KeyOf(site: string, e: Entry): Key {
    Key(site, e.posting.externalId)
  }

  function UpsertAll(sha: Digest, rows: Table, site: string, runId: string, batch: seq<Entry>): Table {
    if batch == [] then rows
    else
      var e := batch[|batch| - 1];
      UpsertOne(sha, UpsertAll(sha, rows, site, runId, batch[..|batch| - 1]), KeyOf(site, e), e.posting, runId, e.now)
  }

  function StatAll(sha: Digest, rows: Table, site: string, runId: string, batch: seq<Entry>): Stats {
    if batch == [] then NO_STATS
    else
      var init, e := batch[..|batch| - 1], batch[|batch| - 1];
      StatAll(sha, rows, site, runId, init)
        .Plus(StatOne(sha, UpsertAll(sha, rows, site, runId, init), KeyOf(site, e), e.posting))
  }

  lemma OneMore(sha: Digest, rows: Table, site: string, runId: string, batch: seq<Entry>, i: nat)
    requires i < |batch|
    ensures var so, e := UpsertAll(sha, rows, site, runId, batch[..i]), batch[i];
            && UpsertAll(sha, rows, site, runId, batch[..i + 1])
              == UpsertOne(sha, so, KeyOf(site, e), e.posting, runId, e.now)
            && StatAll(sha, rows, site, runId, batch[..i + 1])
               == StatAll(sha, rows, site, runId, batch[..i]).Plus(StatOne(sha, so, KeyOf(site, e), e.posting))
  {
    assert batch[..i + 1][..i] == batch[..i];
  }

  class PostingTable {
    var rows: Table

    /**
     upsert_postings. Any statement can fail: failAt says after how many postings, |batch|
     meaning the commit. Then the transaction is rolled back and the error raised again.
    */
    method UpsertPostings(sha: Digest, site: string, runId: string, batch: seq<Entry>, failAt: Option<nat>)
      returns (stats: Option<Stats>)
      modifies this
      ensures stats.None? <==> failAt.Some? && failAt.value <= |batch|
      ensures stats.None? ==> rows == old(rows)
      ensures stats.Some? ==> rows == UpsertAll(sha, old(rows), site, runId, batch)
      ensures stats.Some? ==> stats.value == StatAll(sha, old(rows), site, runId, batch)
    {
      hide UpsertOne, StatOne;
      var begun := rows;
      var all := NO_STATS;
      for i := 0 to |batch|
        invariant failAt.Some? ==> i <= failAt.value
        invariant rows == UpsertAll(sha, begun, site, runId, batch[..i])
        invariant all == StatAll(sha, begun, site, runId, batch[..i])
      {
        if failAt == Some(i) {
          rows := begun;
          return None;
        }
        OneMore(sha, begun, site, runId, batch, i);
        var one := Upsert(sha, KeyOf(site, batch[i]), batch[i].posting, runId, batch[i].now);
        all := all.Plus(one);
      }
      if failAt == Some(|batch|) {
        rows := begun;
        return None;
      }
      assert batch[..|batch|] == batch;
      return Some(all);
    }

    /** The statements for one posting: insert, update, or touch the row. */
    method Upsert(sha: Digest, k: Key, p: Posting, runId: string, now: int) returns (one: Stats)
      modifies this
      ensures rows == UpsertOne(sha, old(rows), k, p, runId, now) && one == StatOne(sha, old(rows), k, p)
    {
      var newHash := ContentHash(sha, p);
      if k !in rows {
        rows := rows[k := Row(p.title, p.company, p.deadline, p.link, p.raw, newHash, runId, runId, now, now)];
        one := Stats(1, 0, 0);
      } else if rows[k].hash != newHash {
        rows := rows[k := rows[k].(
          title := p.title, company := p.company, deadline := p.deadline, link := p.link, raw := p.raw,
          hash := newHash, lastSeenRun := runId, updatedAt := now)];
        one := Stats(0, 1, 0);
      } else {
        rows := rows[k := rows[k].(lastSeenRun := runId)];
        one := Stats(0, 0, 1);
      }
    }

    /** previous_count */
    method PreviousCount(site: string) returns (n: nat)
      ensures n == CountSite(rows, site)
    {
      n := |set k | k in rows && k.site == site|;
    }
  }

  function CountSite(rows: Table, site: string): nat {
    |set k | k in rows && k.site == site|
  }

  // ---------- what a batch does ----------

  lemma CountOne(sha: Digest, rows: Table, k: Key, p: Posting, runId: string, now: int)
    ensures CountSite(UpsertOne(sha, rows, k, p, runId, now), k.site)
        == CountSite(rows, k.site) + StatOne(sha, rows, k, p).inserted
  {
    var after := UpsertOne(sha, rows, k, p, runId, now);
    var before, later := set j | j in rows && j.site == k.site, set j | j in after && j.site == k.site;
    assert later == before + {k};
  }

  lemma {:induction false} StatsTotal(sha: Digest, rows: Table, site: string, runId: string, batch: seq<Entry>)
    ensures var s := StatAll(sha, rows, site, runId, batch);
            s.inserted + s.updated + s.same == |batch| && s.inserted >= 0 && s.updated >= 0 && s.same >= 0
  {
    if batch != [] {
      StatsTotal(sha, rows, site, runId, batch[..|batch| - 1]);
    }
  }

  lemma {:induction false} SiteGrows(sha: Digest, rows: Table, site: string, runId: string, batch: seq<Entry>)
    ensures CountSite(UpsertAll(sha, rows, site, runId, batch), site)
            == CountSite(rows, site) + StatAll(sha, rows, site, runId, batch).inserted
  {
    if batch != [] {
      var n := |batch| - 1;
      assert batch[..n + 1] == batch;
      OneMore(sha, rows, site, runId, batch, n);
      SiteGrows(sha, rows, site, runId, batch[..n]);
      CountOne(sha, UpsertAll(sha, rows, site, runId, batch[..n]), KeyOf(site, batch[n]), batch[n].posting, runId,
          batch[n].now);
    }
  }

  /** Every posting is counted once, and the site's rows grow by exactly the inserted ones. */
  lemma UpsertCounts(sha: Digest, rows: Table, site: string, runId: string, batch: seq<Entry>)
    ensures var s := StatAll(sha, rows, site, runId, batch);
            && s.Total() == |batch|
            && CountSite(UpsertAll(sha, rows, site, runId, batch), site) == CountSite(rows, site) + s.inserted
  {
    StatsTotal(sha, rows, site, runId, batch);
    SiteGrows(sha, rows, site, runId, batch);
  }

  /** The last posting of a batch with a given id, counted from 1; 0 if there is none. */
  function LastOf(batch: seq<Entry>, id: string): (n: nat)
    ensures n <= |batch|
    ensures n > 0 ==> batch[n - 1].posting.externalId == id
    ensures forall i | n <= i < |batch| :: batch[i].posting.externalId != id
  {
    if batch == [] then 0
    else if batch[|batch| - 1].posting.externalId == id then |batch|
    else LastOf(batch[..|batch| - 1], id)
  }

  /** The first posting of a batch with a given id. */
  function FirstOf(batch: seq<Entry>, id: string): (first: Option<Entry>)
    ensures first.Some? <==> LastOf(batch, id) > 0
  {
    if batch == [] then None
    else
      var first, e := FirstOf(batch[..|batch| - 1], id), batch[|batch| - 1];
      if first.None? && e.posting.externalId == id then Some(e) else first
  }

  /** The hash the row has when the whole batch has been looked at. */
  function HashBy(sha: Digest, rows: Table, batch: seq<Entry>, k: Key): Option<string> {
    var n := LastOf(batch, k.externalId);
    if n > 0 then Some(ContentHash(sha, batch[n - 1].posting)) else if k in rows then Some(rows[k].hash) else None
  }

  /** The last posting with the row's id whose hash was not the one the row had then. */
  function LastChange(sha: Digest, rows: Table, batch: seq<Entry>, k: Key): (change: Option<Entry>)
    ensures change.None? && LastOf(batch, k.externalId) > 0 ==> k in rows
  {
    if batch == [] then None
    else
      var init, e := batch[..|batch| - 1], batch[|batch| - 1];
      if e.posting.externalId == k.externalId && HashBy(sha, rows, init, k) != Some(ContentHash(sha, e.posting))
      then Some(e)
      else LastChange(sha, rows, init, k)
  }

  /** A row with the columns of a posting, written at a time. */
  predicate Holds(r: Row, p: Posting, now: int) {
    r.title == p.title && r.company == p.company && r.deadline == p.deadline && r.link == p.link && r.raw == p.raw
    && r.updatedAt == now
  }

  /**
   What the table holds afterwards. Rows of other sites and of ids not in the batch are as
   before. A row of the batch has the content hash of the last posting with its id, was last
   seen by this run, and keeps its first run and creation time if it existed before. Its
   columns and update time are those of the last posting that changed the hash; if none did,
   they are as before. A new row was created at the time of the first posting with its id.
  */
  ghost predicate Upserted(sha: Digest, rows: Table, site: string, runId: string, batch: seq<Entry>, after: Table,
                           k: Key) {
    if k.site != site || LastOf(batch, k.externalId) == 0 then
      (k in after <==> k in rows) && (k in rows ==> after[k] == rows[k])
    else
      && k in after && Some(after[k].hash) == HashBy(sha, rows, batch, k)
      && Accounted(rows, runId, k, FirstOf(batch, k.externalId), LastChange(sha, rows, batch, k), after[k])
  }

  predicate Accounted(rows: Table, runId: string, k: Key, first: Option<Entry>, change: Option<Entry>, r: Row) {
    && r.lastSeenRun == runId
    && (k in rows ==> r.firstSeenRun == rows[k].firstSeenRun && r.createdAt == rows[k].createdAt)
    && (k !in rows ==> r.firstSeenRun == runId && first.Some? && r.createdAt == first.value.now)
    && (change.Some? ==> Holds(r, change.value.posting, change.value.now))
    && (change.None? ==> k in rows && r == rows[k].(lastSeenRun := runId))
  }

  lemma {:induction false} UpsertHolds(sha: Digest, rows: Table, site: string, runId: string, batch: seq<Entry>, k: Key)
    ensures Upserted(sha, rows, site, runId, batch, UpsertAll(sha, rows, site, runId, batch), k)
  {
    if batch != [] {
      hide UpsertOne, Upserted;
      UpsertHolds(sha, rows, site, runId, batch[..|batch| - 1], k);
      UpsertedNext(sha, rows, site, runId, batch, UpsertAll(sha, rows, site, runId, batch[..|batch| - 1]), k);
    }
  }

  /** One more posting keeps the account of a row. */
  lemma UpsertedNext(sha: Digest, rows: Table, site: string, runId: string, batch: seq<Entry>, so: Table, k: Key)
    requires batch != [] && Upserted(sha, rows, site, runId, batch[..|batch| - 1], so, k)
    ensures var e := batch[|batch| - 1];
            Upserted(sha, rows, site, runId, batch, UpsertOne(sha, so, KeyOf(site, e), e.posting, runId, e.now), k)
  {
    var init, e := batch[..|batch| - 1], batch[|batch| - 1];
    if KeyOf(site, e) == k {
      hide LastOf, FirstOf, LastChange, UpsertOne, Accounted, ContentHash;
      TouchedNext(sha, rows, batch, k);
      var had := FirstOf(init, k.externalId);
      if had.Some? {
        TouchAgain(sha, rows, runId, k, had, LastChange(sha, rows, init, k), so, e);
      } else {
        TouchFirst(sha, rows, runId, k, so, e);
        NothingChanged(sha, rows, init, k);
      }
    } else {
      hide LastOf, FirstOf, LastChange, UpsertOne, Accounted, ContentHash;
      UntouchedNext(sha, rows, batch, k);
      assert k.site == site ==> e.posting.externalId != k.externalId;
      OtherRowsStay(sha, so, KeyOf(site, e), e, runId, k);
    }
  }

  /** A posting whose id the batch has had before. */
  lemma TouchAgain(sha: Digest, rows: Table, runId: string, k: Key, first: Option<Entry>, change: Option<Entry>,
                   so: Table, e: Entry)
    requires first.Some? && k in so && Accounted(rows, runId, k, first, change, so[k])
    ensures var after := UpsertOne(sha, so, k, e.posting, runId, e.now);
            && k in after && after[k].hash == ContentHash(sha, e.posting)
            && Accounted(rows, runId, k, first,
                         if so[k].hash != ContentHash(sha, e.posting) then Some(e) else change, after[k])
  {
    hide ContentHash;
  }

  /** The first posting of the batch with its id. */
  lemma TouchFirst(sha: Digest, rows: Table, runId: string, k: Key, so: Table, e: Entry)
    requires (k in so <==> k in rows) && (k in rows ==> so[k] == rows[k])
    ensures var after := UpsertOne(sha, so, k, e.posting, runId, e.now);
            && k in after && after[k].hash == ContentHash(sha, e.posting)
            && Accounted(rows, runId, k, Some(e),
                         if k in rows && rows[k].hash == ContentHash(sha, e.posting) then None else Some(e), after[k])
  {
    hide ContentHash;
  }

  lemma {:induction false} NothingChanged(sha: Digest, rows: Table, batch: seq<Entry>, k: Key)
    requires LastOf(batch, k.externalId) == 0
    ensures LastChange(sha, rows, batch, k) == None
  {
    if batch != [] {
      NothingChanged(sha, rows, batch[..|batch| - 1], k);
    }
  }

  lemma OtherRowsStay(sha: Digest, rows: Table, k: Key, e: Entry, runId: string, other: Key)
    requires other != k
    ensures var after := UpsertOne(sha, rows, k, e.posting, runId, e.now);
            (other in after <==> other in rows) && (other in rows ==> after[other] == rows[other])
  {
  }

  lemma TouchedNext(sha: Digest, rows: Table, batch: seq<Entry>, k: Key)
    requires batch != [] && batch[|batch| - 1].posting.externalId == k.externalId
    ensures var init, e := batch[..|batch| - 1], batch[|batch| - 1];
            var had := FirstOf(init, k.externalId);
            && LastOf(batch, k.externalId) == |batch|
            && FirstOf(batch, k.externalId) == (if had.Some? then had else Some(e))
            && LastChange(sha, rows, batch, k) ==
               if HashBy(sha, rows, init, k) != Some(ContentHash(sha, e.posting)) then Some(e)
               else LastChange(sha, rows, init, k)
  {
  }

  lemma UntouchedNext(sha: Digest, rows: Table, batch: seq<Entry>, k: Key)
    requires batch != []
    ensures batch[|batch| - 1].posting.externalId != k.externalId ==>
              var init := batch[..|batch| - 1];
              && LastOf(batch, k.externalId) == LastOf(init, k.externalId)
              && FirstOf(batch, k.externalId) == FirstOf(init, k.externalId)
              && LastChange(sha, rows, batch, k) == LastChange(sha, rows, init, k)
  {
  }

  /** The stored hash is the hash of the stored fields, in every row. */
  ghost predicate HashesFit(sha: Digest, rows: Table) {
    forall k | k in rows :: rows[k].hash == HashOf(sha, rows[k].title, rows[k].company, rows[k].deadline)
  }

  lemma {:induction false} UpsertKeepsHashesFit(sha: Digest, rows: Table, site: string, runId: string,
                                                batch: seq<Entry>)
    requires HashesFit(sha, rows)
    ensures HashesFit(sha, UpsertAll(sha, rows, site, runId, batch))
  {
    if batch != [] {
      UpsertKeepsHashesFit(sha, rows, site, runId, batch[..|batch| - 1]);
    }
  }

  // ---------- replaying a batch ----------

  /** Postings of the batch with the same id have the same content hash; so it is if the ids are distinct. */
  predicate OneHashPerId(sha: Digest, batch: seq<Entry>) {
    forall i, j | 0 <= i < |batch| && 0 <= j < |batch| && batch[i].posting.externalId == batch[j].posting.externalId ::
      ContentHash(sha, batch[i].posting) == ContentHash(sha, batch[j].posting)
  }

  /** Each posting of the batch is stored with its content hash. */
  ghost predicate Stored(sha: Digest, rows: Table, site: string, batch: seq<Entry>) {
    forall i | 0 <= i < |batch| ::
      KeyOf(site, batch[i]) in rows && rows[KeyOf(site, batch[i])].hash == ContentHash(sha, batch[i].posting)
  }

  /** Upserting what is stored already changes nothing but the last run of its rows. */
  lemma {:induction false} StoredStays(sha: Digest, rows: Table, site: string, runId: string, batch: seq<Entry>)
    requires Stored(sha, rows, site, batch)
    ensures StatAll(sha, rows, site, runId, batch) == Stats(0, 0, |batch|)
    ensures var after := UpsertAll(sha, rows, site, runId, batch);
            after.Keys == rows.Keys && forall k | k in rows :: after[k] == rows[k].(lastSeenRun := after[k].lastSeenRun)
  {
    if batch != [] {
      var n := |batch| - 1;
      assert batch[..n + 1] == batch;
      OneMore(sha, rows, site, runId, batch, n);
      StoredStays(sha, rows, site, runId, batch[..n]);
      assert KeyOf(site, batch[n]) in rows;
    }
  }

  lemma StoredNext(sha: Digest, rows: Table, site: string, batch: seq<Entry>)
    requires batch != []
    requires Stored(sha, rows, site, batch[..|batch| - 1])
    requires var e := batch[|batch| - 1];
             KeyOf(site, e) in rows && rows[KeyOf(site, e)].hash == ContentHash(sha, e.posting)
    ensures Stored(sha, rows, site, batch)
  {
  }

  lemma {:induction false} UnchangedWasStored(sha: Digest, rows: Table, site: string, runId: string, batch: seq<Entry>)
    requires StatAll(sha, rows, site, runId, batch) == Stats(0, 0, |batch|)
    ensures Stored(sha, rows, site, batch)
  {
    if batch != [] {
      var n := |batch| - 1;
      assert batch[..n + 1] == batch;
      OneMore(sha, rows, site, runId, batch, n);
      StatsTotal(sha, rows, site, runId, batch[..n]);
      var so, k := UpsertAll(sha, rows, site, runId, batch[..n]), KeyOf(site, batch[n]);
      assert StatOne(sha, so, k, batch[n].posting) == Stats(0, 0, 1);
      UnchangedWasStored(sha, rows, site, runId, batch[..n]);
      StoredStays(sha, rows, site, runId, batch[..n]);
      assert k in rows && so[k].hash == rows[k].hash;
      StoredNext(sha, rows, site, batch);
    }
  }

  /**
   Replaying a batch, by the same or another run, reports every posting unchanged exactly
   when postings of the batch with the same id have the same content hash.
  */
  lemma ReplayUnchangedWhen(sha: Digest, rows: Table, site: string, runId: string, again: string, batch: seq<Entry>)
    ensures StatAll(sha, UpsertAll(sha, rows, site, runId, batch), site, again, batch) == Stats(0, 0, |batch|)
            <==> OneHashPerId(sha, batch)
  {
    hide Accounted, ContentHash, FirstOf, LastChange;
    var after := UpsertAll(sha, rows, site, runId, batch);
    forall i | 0 <= i < |batch|
      ensures var n := LastOf(batch, batch[i].posting.externalId);
              n > 0 && KeyOf(site, batch[i]) in after
              && after[KeyOf(site, batch[i])].hash == ContentHash(sha, batch[n - 1].posting)
    {
      UpsertHolds(sha, rows, site, runId, batch, KeyOf(site, batch[i]));
    }
    if OneHashPerId(sha, batch) {
      StoredStays(sha, after, site, again, batch);
    } else if StatAll(sha, after, site, again, batch) == Stats(0, 0, |batch|) {
      UnchangedWasStored(sha, after, site, again, batch);
    }
  }

  /**
   With two different postings of one id it does not: the replay compares the first posting
   with the second, and the second with the first, and reports two updates.
  */
  lemma ReplayOfTwoPostingsUpdates(rows: Table, site: string, runId: string, again: string, now: int)
    ensures var sha: Digest := text => text;
            var a := Posting("1", Some("a"), None, None, None, None);
            var batch := [Entry(a, now), Entry(a.(title := Some("b")), now)];
            StatAll(sha, UpsertAll(sha, rows, site, runId, batch), site, again, batch) == Stats(0, 2, 0)
  {
    hide UpsertAll, StatAll;
    var sha: Digest := text => text;
    var a := Posting("1", Some("a"), None, None, None, None);
    var b := a.(title := Some("b"));
    assert ContentHash(sha, a) != ContentHash(sha, b) by {
      assert ContentHash(sha, a)[0] == 'a' && ContentHash(sha, b)[0] == 'b';
    }
    ReplayTwo(sha, rows, site, runId, again, [Entry(a, now), Entry(b, now)]);
  }

  lemma ReplayTwo(sha: Digest, rows: Table, site: string, runId: string, again: string, batch: seq<Entry>)
    requires |batch| == 2 && batch[0].posting.externalId == batch[1].posting.externalId
    requires ContentHash(sha, batch[0].posting) != ContentHash(sha, batch[1].posting)
    ensures StatAll(sha, UpsertAll(sha, rows, site, runId, batch), site, again, batch) == Stats(0, 2, 0)
  {
    hide UpsertAll, StatAll, ContentHash, UpsertOne;
    var a, b, k := batch[0], batch[1], KeyOf(site, batch[0]);
    var first := UpsertOne(sha, rows, k, a.posting, runId, a.now);
    var stored := UpsertOne(sha, first, k, b.posting, runId, b.now);
    UpsertTwo(sha, rows, site, runId, batch);
    assert UpsertAll(sha, rows, site, runId, batch) == stored;
    UpsertTwo(sha, stored, site, again, batch);
    HashAfter(sha, first, k, b.posting, runId, b.now);
    assert StatOne(sha, stored, k, a.posting) == Stats(0, 1, 0);
    HashAfter(sha, stored, k, a.posting, again, a.now);
    assert StatOne(sha, UpsertOne(sha, stored, k, a.posting, again, a.now), k, b.posting) == Stats(0, 1, 0);
  }

  lemma HashAfter(sha: Digest, rows: Table, k: Key, p: Posting, runId: string, now: int)
    ensures k in UpsertOne(sha, rows, k, p, runId, now)
    ensures UpsertOne(sha, rows, k, p, runId, now)[k].hash == ContentHash(sha, p)
  {
  }

  lemma UpsertTwo(sha: Digest, rows: Table, site: string, runId: string, batch: seq<Entry>)
    requires |batch| == 2
    ensures var a, b := batch[0], batch[1];
            var first := UpsertOne(sha, rows, KeyOf(site, a), a.posting, runId, a.now);
            && UpsertAll(sha, rows, site, runId, batch) == UpsertOne(sha, first, KeyOf(site, b), b.posting, runId,
              b.now)
            && StatAll(sha, rows, site, runId, batch)
               == StatOne(sha, rows, KeyOf(site, a), a.posting).Plus(StatOne(sha, first, KeyOf(site, b), b.posting))
  {
    hide UpsertOne, StatOne;
    assert batch[..0] == [] && batch[..2] == batch;
    OneMore(sha, rows, site, runId, batch, 0);
    OneMore(sha, rows, site, runId, batch, 1);
  }

  /** A posting whose link and raw data alone have changed counts as unchanged, and the old ones stay stored. */
  lemma LinkChangeIsNotStored(sha: Digest, rows: Table, k: Key, p: Posting, q: Posting, runId: string, again: string,
                              now: int, later: int)
    requires k !in rows && q.title == p.title && q.company == p.company && q.deadline == p.deadline
    ensures var stored := UpsertOne(sha, rows, k, p, runId, now);
            var after := UpsertOne(sha, stored, k, q, again, later);
            && StatOne(sha, stored, k, q) == Stats(0, 0, 1)
            && after[k].link == p.link && after[k].raw == p.raw && after[k].updatedAt == now
  {
  }
}
