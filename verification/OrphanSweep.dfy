/**
  deleteOrphanedSongsByPath (scanner/clean.go): the sweep pages through a table from which
  it deletes, using the number of files found so far as the offset.
 */
module OrphanSweep {
  import opened OrphanPool
  import opened Selections
  import opened Batches

  const BATCH_SIZE := 300
  const WORKER_COUNT := 10

  /** A row of the songs table, as far as the sweep sees it. */
  datatype Song = Song(id: string, path: string, updated: int)

  function Keep(rows: seq<Song>, f: Song -> bool): seq<Song> {
    if rows == [] then []
    else
      var n := |rows| - 1;
      Keep(rows[..n], f) + if f(rows[n]) then [rows[n]] else []
  }

  function Paths(rows: seq<Song>): (r: seq<string>)
    ensures |r| == |rows| && forall i :: 0 <= i < |r| ==> r[i] == rows[i].path
  {
    seq(|rows|, i requires 0 <= i < |rows| => rows[i].path)
  }

  /** Paths are unique in the table. */
  ghost predicate UniquePaths(rows: seq<Song>) {
    forall i, j :: 0 <= i < j < |rows| ==> rows[i].path != rows[j].path
  }

  /** The rows the sweep looks at, in the order of their ids. */
  function Candidates(rows: seq<Song>, start: int): seq<Song> {
    Keep(rows, (r: Song) => r.updated <= start)
  }

  /** The table without the candidates whose file is missing. */
  function Swept(rows: seq<Song>, start: int, exists_: string -> bool): seq<Song> {
    Keep(rows, (r: Song) => r.updated > start || exists_(r.path))
  }

  function PathSet(paths: seq<string>): set<string> {
    set p | p in paths
  }

  function Without(rows: seq<Song>, paths: set<string>): seq<Song> {
    Keep(rows, (r: Song) => r.path !in paths)
  }

  // ------------------------------------------------------------------ filtering

  lemma {:induction false} KeepConcat(a: seq<Song>, b: seq<Song>, f: Song -> bool)
    ensures Keep(a + b, f) == Keep(a, f) + Keep(b, f)
  {
    if b == [] {
      assert a + b == a;
    } else {
      var n := |b| - 1;
      KeepConcat(a, b[..n], f);
      assert (a + b)[..|a + b| - 1] == a + b[..n];
    }
  }

  lemma {:induction false} KeepSame(rows: seq<Song>, f: Song -> bool, g: Song -> bool)
    requires forall r :: r in rows ==> f(r) == g(r)
    ensures Keep(rows, f) == Keep(rows, g)
  {
    if rows != [] {
      var n := |rows| - 1;
      assert rows[n] in rows;
      KeepSame(rows[..n], f, g);
    }
  }

  lemma {:induction false} KeepAll(rows: seq<Song>, f: Song -> bool)
    requires forall r :: r in rows ==> f(r)
    ensures Keep(rows, f) == rows
  {
    if rows != [] {
      var n := |rows| - 1;
      assert rows[n] in rows;
      KeepAll(rows[..n], f);
    }
  }

  lemma {:induction false} KeepTwice(rows: seq<Song>, f: Song -> bool, g: Song -> bool, h: Song -> bool)
    requires forall r :: h(r) == (f(r) && g(r))
    ensures Keep(Keep(rows, f), g) == Keep(rows, h)
  {
    if rows != [] {
      var n := |rows| - 1;
      KeepTwice(rows[..n], f, g, h);
      KeepConcat(Keep(rows[..n], f), if f(rows[n]) then [rows[n]] else [], g);
      if f(rows[n]) {
        assert [rows[n]][..0] == [];
      }
    }
  }

  lemma {:induction false} KeepMembers(rows: seq<Song>, f: Song -> bool)
    ensures forall r :: r in Keep(rows, f) <==> r in rows && f(r)
  {
    if rows != [] {
      var n := |rows| - 1;
      assert rows == rows[..n] + [rows[n]];
      KeepMembers(rows[..n], f);
    }
  }

  lemma {:induction false} KeepUnique(rows: seq<Song>, f: Song -> bool)
    requires UniquePaths(rows)
    ensures UniquePaths(Keep(rows, f))
  {
    if rows != [] {
      var n := |rows| - 1;
      KeepUnique(rows[..n], f);
      KeepMembers(rows[..n], f);
      forall r | r in Keep(rows[..n], f)
        ensures r.path != rows[n].path
      {
        assert r in rows[..n];
      }
    }
  }

  /** What the filter says of each row. */
  function Marks(rows: seq<Song>, f: Song -> bool): (keep: seq<bool>)
    ensures |keep| == |rows| && forall i :: 0 <= i < |rows| ==> keep[i] == f(rows[i])
  {
    if rows == [] then [] else Marks(rows[..|rows| - 1], f) + [f(rows[|rows| - 1])]
  }

  lemma {:induction false} KeepIsKept(rows: seq<Song>, f: Song -> bool)
    ensures Keep(rows, f) == Kept(rows, Marks(rows, f))
  {
    if rows != [] {
      var init, last := rows[..|rows| - 1], rows[|rows| - 1];
      assert rows == init + [last];
      KeepIsKept(init, f);
      KeptSnoc(init, Marks(init, f), last, f(last));
    }
  }

  /** The rows that a filter keeps, in order. */
  lemma KeepSelects(rows: seq<Song>, f: Song -> bool) returns (at: seq<nat>)
    ensures Selects(rows, Keep(rows, f), at, Marks(rows, f))
  {
    KeepIsKept(rows, f);
    at := KeptAre(rows, Marks(rows, f));
  }

  // ------------------------------------------------------------------ one page

  /** FindPaths: a page of the candidates. */
  function Page(rows: seq<Song>, start: int, offset: nat): seq<Song> {
    var c := Candidates(rows, start);
    c[Min(offset, |c|)..Min(offset + BATCH_SIZE, |c|)]
  }

  /** The first `found` candidates exist. */
  ghost predicate FoundSoFar(rows: seq<Song>, start: int, exists_: string -> bool, found: nat) {
    var c := Candidates(rows, start);
    found <= |c| && forall i :: 0 <= i < found ==> exists_(c[i].path)
  }

  function Existing(page: seq<Song>, exists_: string -> bool): seq<Song> {
    Keep(page, (r: Song) => exists_(r.path))
  }

  /** Deleting the missing paths of a page keeps every row the sweep is to keep. */
  lemma DeletionIsSafe(rows: seq<Song>, start: int, exists_: string -> bool, gone: set<string>)
    requires UniquePaths(rows)
    requires forall x :: x in gone ==> !exists_(x) && exists r :: r in Candidates(rows, start) && r.path == x
    ensures Swept(Without(rows, gone), start, exists_) == Swept(rows, start, exists_)
    ensures UniquePaths(Without(rows, gone))
  {
    var f, g := (r: Song) => r.path !in gone, (r: Song) => r.updated > start || exists_(r.path);
    var h := (r: Song) => r.path !in gone && (r.updated > start || exists_(r.path));
    KeepTwice(rows, f, g, h);
    KeepMembers(rows, (r: Song) => r.updated <= start);
    forall r | r in rows
      ensures h(r) == g(r)
    {
      if r.path in gone {
        var s :| s in Candidates(rows, start) && s.path == r.path;
      }
    }
    KeepSame(rows, h, g);
    KeepUnique(rows, f);
  }

  /** The candidates after a page has been dealt with: the rest moves up. */
  lemma CandidatesAfterPage(rows: seq<Song>, start: int, exists_: string -> bool, found: nat, end: nat,
                            gone: set<string>)
    requires UniquePaths(rows) && FoundSoFar(rows, start, exists_, found)
    requires found <= end <= |Candidates(rows, start)|
    requires forall x :: x in gone <==>
                         !exists_(x) && exists r :: r in Candidates(rows, start)[found..end] && r.path == x
    ensures var c := Candidates(rows, start);
            Candidates(Without(rows, gone), start) == c[..found] + Existing(c[found..end], exists_) + c[end..]
  {
    var c := Candidates(rows, start);
    var f, g := (r: Song) => r.path !in gone, (r: Song) => r.updated <= start;
    KeepTwice(rows, f, g, (r: Song) => r.path !in gone && r.updated <= start);
    KeepTwice(rows, g, f, (r: Song) => r.path !in gone && r.updated <= start);
    KeepUnique(rows, g);
    PageKept(c, found, end, exists_, gone);
  }

  lemma PageKept(c: seq<Song>, found: nat, end: nat, exists_: string -> bool, gone: set<string>)
    requires UniquePaths(c) && found <= end <= |c| && forall i :: 0 <= i < found ==> exists_(c[i].path)
    requires forall x :: x in gone <==> !exists_(x) && exists r :: r in c[found..end] && r.path == x
    ensures Without(c, gone) == c[..found] + Existing(c[found..end], exists_) + c[end..]
  {
    var f := (r: Song) => r.path !in gone;
    assert c == c[..found] + c[found..end] + c[end..];
    KeepConcat(c[..found] + c[found..end], c[end..], f);
    KeepConcat(c[..found], c[found..end], f);
    KeepAll(c[..found], f);
    forall r | r in c[end..]
      ensures f(r)
    {
    }
    KeepAll(c[end..], f);
    KeepSame(c[found..end], f, (r: Song) => exists_(r.path));
  }

  /** One turn of the loop: no row is skipped, and what is left to look at shrinks by the page. */
  lemma PageStep(rows: seq<Song>, start: int, exists_: string -> bool, found: nat, gone: set<string>)
    requires UniquePaths(rows) && FoundSoFar(rows, start, exists_, found)
    requires forall x :: x in gone <==> !exists_(x) && exists r :: r in Page(rows, start, found) && r.path == x
    ensures var rows', page := Without(rows, gone), Page(rows, start, found);
            var found' := found + |Existing(page, exists_)|;
            && UniquePaths(rows') && Swept(rows', start, exists_) == Swept(rows, start, exists_)
            && FoundSoFar(rows', start, exists_, found')
            && |Candidates(rows', start)| - found' == |Candidates(rows, start)| - found - |page|
  {
    var c, page := Candidates(rows, start), Page(rows, start, found);
    var end := Min(found + BATCH_SIZE, |c|);
    assert page == c[found..end];
    DeletionIsSafe(rows, start, exists_, gone);
    CandidatesAfterPage(rows, start, exists_, found, end, gone);
    KeepMembers(page, (r: Song) => exists_(r.path));
    var e := Existing(page, exists_);
    var c' := c[..found] + e + c[end..];
    forall i | 0 <= i < found + |e|
      ensures exists_(c'[i].path)
    {
      if i >= found {
        assert c'[i] == e[i - found];
        assert e[i - found] in e;
      }
    }
  }

  /** An empty page means that the table is swept. */
  lemma EmptyPageIsSwept(rows: seq<Song>, start: int, exists_: string -> bool, found: nat)
    requires FoundSoFar(rows, start, exists_, found) && Page(rows, start, found) == []
    ensures Swept(rows, start, exists_) == rows
  {
    var c := Candidates(rows, start);
    assert found == |c|;
    KeepMembers(rows, (r: Song) => r.updated <= start);
    forall r | r in rows
      ensures r.updated > start || exists_(r.path)
    {
      if r.updated <= start {
        assert r in c;
      }
    }
    KeepAll(rows, (r: Song) => r.updated > start || exists_(r.path));
  }

  lemma {:induction false} MissingAreFewer(paths: seq<string>, exists_: string -> bool)
    ensures |Missing(paths, exists_)| <= |paths|
  {
    if paths != [] {
      MissingAreFewer(paths[..|paths| - 1], exists_);
    }
  }

  /** Both channels hold a whole page, so the workers of a page never deadlock. */
  lemma PagePoolNeverBlocks(rows: seq<Song>, start: int, found: nat, steps: seq<Step>, p: Pool, exists_: string -> bool)
    requires Run(Start(Paths(Page(rows, start, found)), WORKER_COUNT), steps, p, Capacity(BATCH_SIZE, BATCH_SIZE),
                 exists_)
    ensures Finished(p) || exists t :: Enabled(p, t, Capacity(BATCH_SIZE, BATCH_SIZE), exists_)
  {
    var paths := Paths(Page(rows, start, found));
    MissingAreFewer(paths, exists_);
    if !Finished(p) {
      PoolNeverBlocks(paths, WORKER_COUNT, steps, p, Capacity(BATCH_SIZE, BATCH_SIZE), exists_);
    }
  }

  // ------------------------------------------------------------------ the sweep

  class SongTable {
    /** The rows in the order of their ids. */
    var rows: seq<Song>

    constructor (rows: seq<Song>)
      ensures this.rows == rows
    {
      this.rows := rows;
    }

    /** A page of the paths of the old rows, in the order of their ids. */
    method FindPaths(start: int, offset: nat) returns (paths: seq<string>)
      ensures var c := Candidates(rows, start);
              && |paths| == (if |c| <= offset then 0 else if |c| < offset + 300 then |c| - offset else 300)
              && forall i :: 0 <= i < |paths| ==> offset + i < |c| && paths[i] == c[offset + i].path
    {
      paths := Paths(Page(rows, start, offset));
    }

    /** Deletes in batches. */
    method DeleteByPaths(paths: seq<string>)
      modifies `rows
      ensures rows == Without(old(rows), PathSet(paths))
    {
      var i := 0;
      WithoutNone(rows);
      assert PathSet(paths[..0]) == {};
      while i < |paths|
        invariant 0 <= i <= |paths|
        invariant rows == Without(old(rows), PathSet(paths[..i]))
        decreases |paths| - i
      {
        var end := Min(i + EXEC_BATCH_SIZE, |paths|);
        WithoutTwice(old(rows), PathSet(paths[..i]), PathSet(paths[i..end]));
        assert PathSet(paths[..end]) == PathSet(paths[..i]) + PathSet(paths[i..end]);
        rows := Without(rows, PathSet(paths[i..end]));
        i := end;
      }
      assert paths[..|paths|] == paths;
    }

    /** What the worker pool makes of a page: the missing paths and the number of the others. */
    method CheckPaths(paths: seq<string>, exists_: string -> bool) returns (missing: seq<string>, found: nat)
      ensures multiset(missing) == multiset(Missing(paths, exists_))
      ensures found == |paths| - |Missing(paths, exists_)|
    {
      missing, found := [], 0;
      for i := 0 to |paths|
        invariant missing == Missing(paths[..i], exists_) && found == i - |missing|
      {
        assert paths[..i + 1][..i] == paths[..i];
        if exists_(paths[i]) {
          found := found + 1;
        } else {
          missing := missing + [paths[i]];
        }
      }
      assert paths[..|paths|] == paths;
    }

    /** Deletes the missing rows of a page that is not empty and counts the others. */
    method SweepPage(start: int, exists_: string -> bool, foundCount: nat, paths: seq<string>) returns (found: nat)
      requires UniquePaths(rows) && FoundSoFar(rows, start, exists_, foundCount)
      requires paths == Paths(Page(rows, start, foundCount))
      modifies `rows
      ensures UniquePaths(rows) && FoundSoFar(rows, start, exists_, found)
      ensures Swept(rows, start, exists_) == Swept(old(rows), start, exists_)
      ensures |Candidates(rows, start)| - found == |Candidates(old(rows), start)| - foundCount - |paths|
    {
      var removePaths, count := CheckPaths(paths, exists_);
      MissingOfPage(Page(rows, start, foundCount), removePaths, exists_);
      PageStep(rows, start, exists_, foundCount, PathSet(removePaths));
      found := foundCount + count;
      if |removePaths| > 0 {
        DeleteByPaths(removePaths);
      } else {
        assert PathSet(removePaths) == {};
        WithoutNone(rows);
      }
    }

    /** Ends with exactly the rows to keep, whatever order the workers report in. */
    method DeleteOrphanedSongsByPath(start: int, exists_: string -> bool)
      requires UniquePaths(rows)
      modifies `rows
      ensures rows == Swept(old(rows), start, exists_) && UniquePaths(rows)
      ensures forall r :: r in rows <==> r in old(rows) && (r.updated > start || exists_(r.path))
    {
      KeepMembers(rows, (r: Song) => r.updated > start || exists_(r.path));
      var foundCount := 0;
      while true
        invariant UniquePaths(rows) && FoundSoFar(rows, start, exists_, foundCount)
        invariant Swept(rows, start, exists_) == Swept(old(rows), start, exists_)
        decreases |Candidates(rows, start)| - foundCount
      {
        var paths := FindPaths(start, foundCount);
        assert paths == Paths(Page(rows, start, foundCount));
        if |paths| == 0 {
          EmptyPageIsSwept(rows, start, exists_, foundCount);
          break;
        }
        foundCount := SweepPage(start, exists_, foundCount, paths);
      }
    }
  }

  lemma WithoutNone(rows: seq<Song>)
    ensures Without(rows, {}) == rows
  {
    var none: set<string> := {};
    KeepAll(rows, (r: Song) => r.path !in none);
  }

  lemma WithoutTwice(rows: seq<Song>, a: set<string>, b: set<string>)
    ensures Without(Without(rows, a), b) == Without(rows, a + b)
  {
    var ab := a + b;
    KeepTwice(rows, (r: Song) => r.path !in a, (r: Song) => r.path !in b, (r: Song) => r.path !in ab);
  }

  lemma {:induction false} MissingOfPage(page: seq<Song>, missing: seq<string>, exists_: string -> bool)
    requires multiset(missing) == multiset(Missing(Paths(page), exists_))
    ensures forall x :: x in PathSet(missing) <==> !exists_(x) && exists r :: r in page && r.path == x
    ensures |Existing(page, exists_)| == |Paths(page)| - |Missing(Paths(page), exists_)|
  {
    forall x
      ensures x in missing <==> !exists_(x) && exists r :: r in page && r.path == x
    {
      MissingCounts(Paths(page), exists_, x);
      assert x in missing <==> x in multiset(missing);
      assert x in Paths(page) <==> x in multiset(Paths(page));
      if r :| r in page && r.path == x {
        var i :| 0 <= i < |page| && page[i] == r;
        assert Paths(page)[i] == x;
      }
    }
    ExistingCounts(page, exists_);
  }

  lemma {:induction false} ExistingCounts(page: seq<Song>, exists_: string -> bool)
    ensures |Existing(page, exists_)| == |page| - |Missing(Paths(page), exists_)|
  {
    if page != [] {
      var n := |page| - 1;
      ExistingCounts(page[..n], exists_);
      assert Paths(page)[..n] == Paths(page[..n]);
    }
  }
}
