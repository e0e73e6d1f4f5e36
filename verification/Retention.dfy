/** The snapshot retention of app/evidence.py: first by age, then oldest first down to a size. */
module Retention {
  import opened Results
  import T = Timestamps

  datatype Path = Path(site: string, run: string)

  /** A run directory; None where reading it raises OSError. */
  datatype Dir = Dir(mtime: Option<int>, size: Option<int>)

  type Dirs = map<Path, Dir>

  datatype Entry = Entry(mtime: int, path: Path, size: int)

  predicate Readable(d: Dir) {
    d.mtime.Some? && d.size.Some?
  }

  // ---------- the order of the tuples ----------

  predicate PathLess(p: Path, q: Path) {
    T.TextLess(p.site, q.site) || (p.site == q.site && T.TextLess(p.run, q.run))
  }

  predicate Before(a: Entry, b: Entry) {
    a.mtime < b.mtime || (a.mtime == b.mtime && (PathLess(a.path, b.path) || (a.path == b.path && a.size < b.size)))
  }

  lemma {:induction false} TextTotal(a: string, b: string)
    ensures T.TextLess(a, b) || a == b || T.TextLess(b, a)
    ensures T.TextLess(a, b) ==> !T.TextLess(b, a)
  {
    if a != [] && b != [] {
      TextTotal(a[1..], b[1..]);
      assert a == [a[0]] + a[1..] && b == [b[0]] + b[1..];
    }
  }

  lemma {:induction false} TextTransitive(a: string, b: string, c: string)
    requires T.TextLess(a, b) && T.TextLess(b, c)
    ensures T.TextLess(a, c)
  {
    if a != [] {
      if a[0] == b[0] == c[0] {
        TextTransitive(a[1..], b[1..], c[1..]);
      }
    }
  }

  lemma BeforeIsOrder(a: Entry, b: Entry, c: Entry)
    ensures Before(a, b) || a == b || Before(b, a)
    ensures Before(a, b) ==> !Before(b, a)
    ensures Before(a, b) && Before(b, c) ==> Before(a, c)
  {
    TextTotal(a.path.site, b.path.site);
    TextTotal(a.path.run, b.path.run);
    if T.TextLess(a.path.site, b.path.site) && T.TextLess(b.path.site, c.path.site) {
      TextTransitive(a.path.site, b.path.site, c.path.site);
    }
    if T.TextLess(a.path.run, b.path.run) && T.TextLess(b.path.run, c.path.run) {
      TextTransitive(a.path.run, b.path.run, c.path.run);
    }
  }

  predicate Sorted(es: seq<Entry>) {
    forall i, j | 0 <= i < j < |es| :: !Before(es[j], es[i])
  }

  // ---------- the oldest go ----------

  /** Where they first differ, a has the smaller character, or has ended. */
  ghost predicate FirstText(a: string, b: string) {
    exists n | 0 <= n <= |a| && n < |b| :: a[..n] == b[..n] && (n == |a| || a[n] < b[n])
  }

  /** p is older than q; or as old, and first by site and then by run. */
  ghost predicate Older(p: Path, at: int, q: Path, other: int) {
    at < other || (at == other && (FirstText(p.site, q.site) || (p.site == q.site && FirstText(p.run, q.run))))
  }

  /** Everything that has gone was older than every readable directory that is left. */
  ghost predicate OldestGone(before: Dirs, after: Dirs) {
    forall p, q | p in before && p !in after && q in after && after[q].mtime.Some? && after[q].size.Some? ::
      before[p].mtime.Some? && Older(p, before[p].mtime.value, q, after[q].mtime.value)
  }

  lemma {:induction false} LessIsFirst(a: string, b: string)
    requires T.TextLess(a, b)
    ensures FirstText(a, b)
  {
    if a == "" || a[0] < b[0] {
      assert a[..0] == b[..0];
    } else {
      var x, y := a[1..], b[1..];
      LessIsFirst(x, y);
      var n :| 0 <= n <= |x| && n < |y| && x[..n] == y[..n] && (n == |x| || x[n] < y[n]);
      assert a[..n + 1] == [a[0]] + x[..n] && b[..n + 1] == [b[0]] + y[..n];
    }
  }

  lemma BeforeIsOlder(a: Entry, b: Entry)
    requires !Before(b, a) && a.path != b.path
    ensures Older(a.path, a.mtime, b.path, b.mtime)
  {
    hide FirstText;
    BeforeIsOrder(a, b, a);
    if T.TextLess(a.path.site, b.path.site) {
      LessIsFirst(a.path.site, b.path.site);
    }
    if T.TextLess(a.path.run, b.path.run) {
      LessIsFirst(a.path.run, b.path.run);
    }
  }

  /** Whatever number of sorted entries goes, they are the oldest ones. */
  lemma FirstPathsAreOldest(sorted: seq<Entry>, dirs: Dirs, n: nat)
    requires Sorted(sorted) && Lists(sorted, dirs) && n <= |sorted|
    ensures OldestGone(dirs, dirs - FirstPaths(sorted, n))
  {
    hide Older;
    InFirstPaths(sorted, n);
    var after := dirs - FirstPaths(sorted, n);
    forall p, q | p in dirs && p !in after && q in after && Readable(after[q])
      ensures dirs[p].mtime.Some? && Older(p, dirs[p].mtime.value, q, after[q].mtime.value)
    {
      var i := IndexInFirst(sorted, n, p);
      var e :| e in sorted && e.path == q;
      var j :| 0 <= j < |sorted| && sorted[j] == e;
      assert n <= j;
      assert sorted[i] in sorted;
      BeforeIsOlder(sorted[i], e);
    }
  }

  lemma {:induction false} IndexInFirst(es: seq<Entry>, n: nat, p: Path) returns (i: nat)
    requires n <= |es| && p in FirstPaths(es, n)
    ensures i < n && es[i].path == p
  {
    if es[n - 1].path == p {
      i := n - 1;
    } else {
      i := IndexInFirst(es, n - 1, p);
    }
  }

  /** Removing what is too old removes the oldest; so does removing the oldest of what is left. */
  lemma StillOldest(before: Dirs, now: int, maxAge: int, after: Dirs)
    requires after.Keys <= Young(before, now, maxAge).Keys && forall p | p in after :: after[p] == before[p]
    requires OldestGone(Young(before, now, maxAge), after)
    ensures OldestGone(before, after)
  {
    hide FirstText;
  }

  // ---------- sorting ----------

  /** entries.sort() */
  method Sort(es: seq<Entry>) returns (sorted: seq<Entry>)
    ensures Sorted(sorted) && multiset(sorted) == multiset(es)
  {
    sorted := [];
    for i := 0 to |es|
      invariant Sorted(sorted) && multiset(sorted) == multiset(es[..i])
    {
      var n := Place(sorted, es[i]);
      InsertKeepsSorted(sorted, n, es[i]);
      assert sorted == sorted[..n] + sorted[n..];
      assert es[..i + 1] == es[..i] + [es[i]];
      sorted := sorted[..n] + [es[i]] + sorted[n..];
    }
    assert es[..|es|] == es;
  }

  /** Where e belongs in a sorted list. */
  method Place(sorted: seq<Entry>, e: Entry) returns (n: nat)
    requires Sorted(sorted)
    ensures n <= |sorted|
    ensures forall i | 0 <= i < n :: !Before(e, sorted[i])
    ensures forall i | n <= i < |sorted| :: !Before(sorted[i], e)
  {
    n := |sorted|;
    while n > 0 && Before(e, sorted[n - 1])
      invariant n <= |sorted|
      invariant forall i | n <= i < |sorted| :: Before(e, sorted[i])
    {
      n := n - 1;
    }
    forall i | n <= i < |sorted| ensures !Before(sorted[i], e) {
      BeforeIsOrder(e, sorted[i], e);
    }
    forall i | 0 <= i < n ensures !Before(e, sorted[i]) {
      if i < n - 1 {
        BeforeIsOrder(e, sorted[i], sorted[n - 1]);
        BeforeIsOrder(sorted[i], sorted[n - 1], e);
      }
    }
  }

  lemma InsertKeepsSorted(sorted: seq<Entry>, n: nat, e: Entry)
    requires Sorted(sorted) && n <= |sorted|
    requires forall i | 0 <= i < n :: !Before(e, sorted[i])
    requires forall i | n <= i < |sorted| :: !Before(sorted[i], e)
    ensures Sorted(sorted[..n] + [e] + sorted[n..])
  {
  }

  // ---------- which entries go ----------

  function SumSizes(es: seq<Entry>): int {
    if es == [] then 0 else es[0].size + SumSizes(es[1..])
  }

  /** The sizes of all entries from number n on. */
  function SumFrom(es: seq<Entry>, n: nat): int
    decreases |es| - n
  {
    if n >= |es| then 0 else es[n].size + SumFrom(es, n + 1)
  }

  lemma {:induction false} SumFromIsSum(es: seq<Entry>, n: nat)
    requires n <= |es|
    ensures SumFrom(es, n) == SumSizes(es[n..])
    decreases |es| - n
  {
    if n < |es| {
      SumFromIsSum(es, n + 1);
      assert es[n..][1..] == es[n + 1..];
    }
  }

  /** Keeping any of the first n entries would exceed the bound. */
  predicate AllExceed(es: seq<Entry>, bound: int, n: nat) {
    n == 0 || (SumFrom(es, n - 1) > bound && AllExceed(es, bound, n - 1))
  }

  lemma {:induction false} AllExceedEach(es: seq<Entry>, bound: int, n: nat)
    requires AllExceed(es, bound, n)
    ensures forall j | 0 <= j < n :: SumFrom(es, j) > bound
  {
    if n > 0 {
      AllExceedEach(es, bound, n - 1);
    }
  }

  /**
   Removing the first n of the sorted entries is right for a bound: what is left is within
   the bound, or nothing is left; and keeping any of the removed ones would exceed it.
  */
  ghost predicate RightCut(sorted: seq<Entry>, bound: int, n: nat) {
    && n <= |sorted|
    && (SumFrom(sorted, n) <= bound || n == |sorted|)
    && forall j | 0 <= j < n :: SumFrom(sorted, j) > bound
  }

  /** There is only one right cut. */
  lemma RightCutUnique(sorted: seq<Entry>, bound: int, m: nat, n: nat)
    requires RightCut(sorted, bound, m) && RightCut(sorted, bound, n)
    ensures m == n
  {
  }

  /** The entries list every readable directory once. */
  ghost predicate Lists(es: seq<Entry>, dirs: Dirs) {
    && (forall e | e in es :: e.path in dirs && dirs[e.path] == Dir(Some(e.mtime), Some(e.size)))
    && (forall p | p in dirs && dirs[p].mtime.Some? && dirs[p].size.Some? :: exists e | e in es :: e.path == p)
    && (forall i, j | 0 <= i < j < |es| :: es[i].path != es[j].path)
  }

  lemma {:induction false} SumPermuted(xs: seq<Entry>, ys: seq<Entry>)
    requires multiset(xs) == multiset(ys)
    ensures SumSizes(xs) == SumSizes(ys)
    decreases |xs|
  {
    if xs == [] {
      assert |multiset(ys)| == 0;
    } else {
      var e := xs[0];
      assert xs == [e] + xs[1..];
      assert e in multiset(ys);
      var i :| 0 <= i < |ys| && ys[i] == e;
      SumWithout(ys, i);
      BagWithout(ys, i);
      assert multiset(xs[1..]) == multiset(xs) - multiset{e};
      SumPermuted(xs[1..], ys[..i] + ys[i + 1..]);
    }
  }

  lemma SumWithout(ys: seq<Entry>, i: nat)
    requires i < |ys|
    ensures SumSizes(ys) == ys[i].size + SumSizes(ys[..i] + ys[i + 1..])
  {
    var pre, rest := ys[..i], ys[i..];
    assert ys == pre + rest;
    assert rest[0] == ys[i] && rest[1..] == ys[i + 1..];
    SumConcat(pre, rest);
    SumConcat(pre, rest[1..]);
  }

  lemma BagWithout(ys: seq<Entry>, i: nat)
    requires i < |ys|
    ensures multiset(ys[..i] + ys[i + 1..]) == multiset(ys) - multiset{ys[i]}
  {
    assert ys == ys[..i] + [ys[i]] + ys[i + 1..];
  }

  lemma {:induction false} SumConcat(xs: seq<Entry>, ys: seq<Entry>)
    ensures SumSizes(xs + ys) == SumSizes(xs) + SumSizes(ys)
  {
    if xs == [] {
      assert xs + ys == ys;
    } else {
      assert (xs + ys)[1..] == xs[1..] + ys;
      SumConcat(xs[1..], ys);
    }
  }

  /** The directories of the first n entries. */
  function FirstPaths(es: seq<Entry>, n: nat): set<Path>
    requires n <= |es|
  {
    if n == 0 then {} else FirstPaths(es, n - 1) + {es[n - 1].path}
  }

  class Snapshots {
    var dirs: Dirs

    /** cleanup of the snapshots: by age first, then by size among what is left. */
    method Cleanup(now: int, maxAge: int, maxBytes: int)
      returns (removed: nat, ghost sorted: seq<Entry>, ghost cut: nat)
      modifies this
      ensures var young := Young(old(dirs), now, maxAge);
              && Sorted(sorted) && Lists(sorted, young) && RightCut(sorted, maxBytes, cut)
              && dirs == young - FirstPaths(sorted, cut)
      ensures removed == |old(dirs)| - |dirs|
      ensures OldestGone(old(dirs), dirs)
    {
      var aged := CleanupAge(now, maxAge);
      var oversize;
      oversize, sorted := CleanupSize(maxBytes);
      cut := oversize;
      removed := aged + oversize;
      StillOldest(old(dirs), now, maxAge, dirs);
    }

    /** _cleanup_age: directories older than maxAge go; unreadable ones stay. */
    method CleanupAge(now: int, maxAge: int) returns (removed: nat)
      modifies this
      ensures dirs == Young(old(dirs), now, maxAge)
      ensures forall p | p in old(dirs) ::
                p !in dirs <==> old(dirs)[p].mtime.Some? && now - old(dirs)[p].mtime.value > maxAge
      ensures removed == |old(dirs)| - |dirs|
    {
      removed := 0;
      var todo := dirs.Keys;
      while todo != {}
        invariant todo <= dirs.Keys <= old(dirs).Keys
        invariant dirs == map p | p in old(dirs) && (p in todo || !TooOld(old(dirs)[p], now, maxAge)) :: old(dirs)[p]
        invariant removed == |old(dirs)| - |dirs|
        decreases todo
      {
        var p :| p in todo;
        todo := todo - {p};
        if TooOld(dirs[p], now, maxAge) {
          Remove(p);
          removed := removed + 1;
        }
      }
    }

    /** _rm_tree */
    method Remove(p: Path)
      requires p in dirs
      modifies this
      ensures dirs == old(dirs) - {p} && |dirs| == |old(dirs)| - 1
    {
      var rest := dirs - {p};
      assert dirs == rest[p := dirs[p]];
      dirs := rest;
    }

    /**
     _cleanup_size: the readable directories are sorted by (mtime, path, size), and the
     first ones are removed until the rest is within maxBytes.
    */
    method CleanupSize(maxBytes: int) returns (removed: nat, ghost sorted: seq<Entry>)
      modifies this
      ensures Sorted(sorted) && Lists(sorted, old(dirs))
      ensures RightCut(sorted, maxBytes, removed)
      ensures dirs == old(dirs) - FirstPaths(sorted, removed) && removed == |old(dirs)| - |dirs|
      ensures OldestGone(old(dirs), dirs)
    {
      var entries, total := ListEntries();
      var order := Sort(entries);
      SumPermuted(entries, order);
      ListsPermuted(entries, order, dirs);
      SumFromIsSum(order, 0);
      assert order[0..] == order;
      sorted := order;
      if total <= maxBytes {
        FirstPathsAreOldest(order, dirs, 0);
        return 0, sorted;
      }
      removed := RemoveOldest(order, total, maxBytes);
      FirstPathsAreOldest(order, old(dirs), removed);
    }

    /** The loop that removes entries in order. */
    method RemoveOldest(order: seq<Entry>, all: int, maxBytes: int) returns (removed: nat)
      requires all == SumFrom(order, 0)
      requires forall i | 0 <= i < |order| :: order[i].path in dirs
      requires forall i, j | 0 <= i < j < |order| :: order[i].path != order[j].path
      modifies this
      ensures RightCut(order, maxBytes, removed)
      ensures dirs == old(dirs) - FirstPaths(order, removed) && removed == |old(dirs)| - |dirs|
    {
      var total := all;
      removed := 0;
      while removed < |order| && total > maxBytes
        invariant removed <= |order| && total == SumFrom(order, removed)
        invariant AllExceed(order, maxBytes, removed)
        invariant dirs == old(dirs) - FirstPaths(order, removed) && removed == |old(dirs)| - |dirs|
      {
        var e := order[removed];
        NotGoneYet(order, removed, removed);
        MinusOneMore(old(dirs), FirstPaths(order, removed), e.path);
        Remove(e.path);
        total := total - e.size;
        removed := removed + 1;
      }
      AllExceedEach(order, maxBytes, removed);
    }

    /** The loop that collects the entries and adds up their sizes. */
    method ListEntries() returns (entries: seq<Entry>, total: int)
      ensures Lists(entries, dirs) && total == SumSizes(entries)
    {
      entries, total := [], 0;
      var todo := dirs.Keys;
      while todo != {}
        invariant todo <= dirs.Keys
        invariant Lists(entries, map p | p in dirs && p !in todo :: dirs[p])
        invariant total == SumSizes(entries)
        decreases todo
      {
        var p :| p in todo;
        todo := todo - {p};
        if Readable(dirs[p]) {
          var e := Entry(dirs[p].mtime.value, p, dirs[p].size.value);
          SumConcat(entries, [e]);
          entries, total := entries + [e], total + e.size;
        }
      }
      assert (map p | p in dirs && p !in todo :: dirs[p]) == dirs;
    }
  }

  /** The directories that are not too old, as far as can be told. */
  function Young(dirs: Dirs, now: int, maxAge: int): Dirs {
    map p | p in dirs && !TooOld(dirs[p], now, maxAge) :: dirs[p]
  }

  predicate TooOld(d: Dir, now: int, maxAge: int) {
    d.mtime.Some? && now - d.mtime.value > maxAge
  }

  lemma ListsPermuted(xs: seq<Entry>, ys: seq<Entry>, dirs: Dirs)
    requires multiset(xs) == multiset(ys) && Lists(xs, dirs)
    ensures Lists(ys, dirs)
  {
    forall e ensures e in xs <==> e in ys {
      assert e in multiset(xs) <==> e in multiset(ys);
    }
    Once(xs);
    forall i, j | 0 <= i < j < |ys| ensures ys[i].path != ys[j].path {
      if ys[i].path == ys[j].path {
        Twice(ys, i, j);
      }
    }
  }

  lemma {:induction false} Once(xs: seq<Entry>)
    requires forall i, j | 0 <= i < j < |xs| :: xs[i].path != xs[j].path
    ensures forall e :: multiset(xs)[e] <= 1
  {
    if xs != [] {
      Once(xs[1..]);
      assert xs == [xs[0]] + xs[1..];
      assert xs[0] !in xs[1..];
    }
  }

  lemma Twice(ys: seq<Entry>, i: nat, j: nat)
    requires i < j < |ys| && ys[i] == ys[j]
    ensures multiset(ys)[ys[i]] >= 2
  {
    assert ys == ys[..i] + [ys[i]] + ys[i + 1..j] + [ys[j]] + ys[j + 1..];
  }

  lemma MinusOneMore(dirs: Dirs, gone: set<Path>, p: Path)
    ensures dirs - (gone + {p}) == dirs - gone - {p}
  {
  }

  lemma {:induction false} NotGoneYet(es: seq<Entry>, n: nat, i: nat)
    requires n <= i < |es| && forall j, k | 0 <= j < k < |es| :: es[j].path != es[k].path
    ensures es[i].path !in FirstPaths(es, n)
  {
    if n > 0 {
      NotGoneYet(es, n - 1, i);
    }
  }

  /** After the right cut, the readable directories left are the rest of the sorted entries. */
  lemma {:induction false} RestIsListed(sorted: seq<Entry>, dirs: Dirs, n: nat)
    requires Lists(sorted, dirs) && n <= |sorted|
    ensures Lists(sorted[n..], dirs - FirstPaths(sorted, n))
  {
    forall i | n <= i < |sorted| ensures sorted[i].path !in FirstPaths(sorted, n) {
      NotGoneYet(sorted, n, i);
    }
    InFirstPaths(sorted, n);
    var rest := dirs - FirstPaths(sorted, n);
    forall p | p in rest && Readable(rest[p]) ensures exists e | e in sorted[n..] :: e.path == p {
      var e :| e in sorted && e.path == p;
      var i :| 0 <= i < |sorted| && sorted[i] == e;
      assert sorted[n..][i - n] == e;
    }
  }

  lemma {:induction false} InFirstPaths(es: seq<Entry>, n: nat)
    requires n <= |es|
    ensures forall i | 0 <= i < n :: es[i].path in FirstPaths(es, n)
  {
    if n > 0 {
      InFirstPaths(es, n - 1);
    }
  }

  /**
   What the size cleanup leaves is within any bound that is not negative; and if everything
   was within the bound to begin with, nothing is removed.
  */
  lemma RestFits(sorted: seq<Entry>, bound: int, n: nat)
    requires RightCut(sorted, bound, n)
    ensures bound >= 0 ==> SumSizes(sorted[n..]) <= bound
    ensures SumSizes(sorted) <= bound <==> n == 0 && SumSizes(sorted[n..]) <= bound
  {
    SumFromIsSum(sorted, n);
    SumFromIsSum(sorted, 0);
    assert sorted[0..] == sorted;
  }
}
