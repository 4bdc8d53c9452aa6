/**
  The playlist_song table and the statements of repos/postgres/playlist.go on it, and how a
  playlist of the table stands for a sequence of songs.
 */
module PlaylistTable {
  import opened Wrappers
  import opened Selections

  /** The primary key is (playlist_id, track). */
  datatype Key = Key(playlist: string, track: int)

  type Rows = map<Key, string>

  /** The playlist's tracks are numbered 0..n-1 and hold the songs `s` in that order. */
  ghost predicate Holds(rows: Rows, id: string, s: seq<string>) {
    && (forall t :: Key(id, t) in rows <==> 0 <= t < |s|)
    && (forall t :: 0 <= t < |s| ==> rows[Key(id, t)] == s[t])
  }

  /** The rows of other playlists are the same. */
  ghost predicate SameElsewhere(rows: Rows, rows': Rows, id: string) {
    && (forall k :: k in rows && k.playlist != id ==> k in rows' && rows'[k] == rows[k])
    && (forall k :: k in rows' && k.playlist != id ==> k in rows)
  }

  function TracksOf(rows: Rows, id: string): set<int> {
    set k | k in rows && k.playlist == id :: k.track
  }

  /** The rows inserted for `songs` after track number `last`. */
  function Inserted(id: string, last: int, songs: seq<string>): Rows {
    map t: int | last < t <= last + |songs| :: Key(id, t) := songs[t - last - 1]
  }

  function Cleared(rows: Rows, id: string): Rows {
    map k | k in rows && k.playlist != id :: rows[k]
  }

  // ------------------------------------------------------------------ removal

  function SetOf(ns: seq<int>): set<int> {
    set n | n in ns
  }

  ghost predicate Increasing(ns: seq<int>) {
    forall i, j :: 0 <= i < j < |ns| ==> ns[i] < ns[j]
  }

  function Deleted(rows: Rows, id: string, ns: seq<int>): Rows {
    map k | k in rows && !(k.playlist == id && k.track in ns) :: rows[k]
  }

  /** The generated CASE expression from its branch number `i` on: the track is compared with
      the next removed track; past the last one all removed tracks are below. */
  function CaseFrom(ns: seq<int>, i: nat, track: int): int
    requires i < |ns|
    decreases |ns| - i
  {
    if i == |ns| - 1 then track - (i + 1)
    else if track < ns[i + 1] then track - (i + 1)
    else CaseFrom(ns, i + 1, track)
  }

  /** What the UPDATE makes of a track number; `ns` is sorted. */
  function NewTrack(ns: seq<int>, track: int): int
    requires ns != []
  {
    if track <= ns[0] then track
    else if |ns| == 1 then track - 1
    else CaseFrom(ns, 0, track)
  }

  /** The UPDATE: None when two rows would get the same primary key. */
  function Renumbered(rows: Rows, id: string, ns: seq<int>): Option<Rows>
    requires ns != []
  {
    if exists j, k :: j in rows && k in rows && j != k && Moved(id, ns, j) == Moved(id, ns, k) then None
    else Some(map k | k in rows :: Moved(id, ns, k) := rows[k])
  }

  function Moved(id: string, ns: seq<int>, k: Key): Key
    requires ns != []
  {
    if k.playlist == id then Key(id, NewTrack(ns, k.track)) else k
  }

  /** How many of the removed tracks are below `track`. */
  function CountBelow(ns: seq<int>, track: int): nat {
    if ns == [] then 0
    else CountBelow(ns[..|ns| - 1], track) + if ns[|ns| - 1] < track then 1 else 0
  }

  /** The songs of `s` whose index is not in `removed`. */
  function Without(s: seq<string>, removed: set<int>): seq<string> {
    if s == [] then []
    else
      var n := |s| - 1;
      Without(s[..n], removed) + if n in removed then [] else [s[n]]
  }

  /** The indices that are not removed. */
  function Remaining(n: nat, removed: set<int>): (keep: seq<bool>)
    ensures |keep| == n && forall t :: 0 <= t < n ==> keep[t] == (t !in removed)
  {
    if n == 0 then [] else Remaining(n - 1, removed) + [n - 1 !in removed]
  }

  lemma {:induction false} WithoutIsKept(s: seq<string>, removed: set<int>)
    ensures Without(s, removed) == Kept(s, Remaining(|s|, removed))
  {
    if s != [] {
      var init, last := s[..|s| - 1], s[|s| - 1];
      assert s == init + [last];
      WithoutIsKept(init, removed);
      KeptSnoc(init, Remaining(|init|, removed), last, |init| !in removed);
    }
  }

  /** What is left, in order: the songs at the indices that are not removed. */
  lemma WithoutAre(s: seq<string>, removed: set<int>) returns (at: seq<nat>)
    ensures Selects(s, Without(s, removed), at, Remaining(|s|, removed))
  {
    WithoutIsKept(s, removed);
    at := KeptAre(s, Remaining(|s|, removed));
  }

  lemma {:induction false} CountBelowSorted(ns: seq<int>, track: int, i: nat)
    requires Increasing(ns) && i <= |ns|
    requires (i == 0 || ns[i - 1] < track) && (i == |ns| || track <= ns[i])
    ensures CountBelow(ns, track) == i
  {
    if ns != [] {
      var n := |ns| - 1;
      CountBelowSorted(ns[..n], track, if i == |ns| then n else i);
    }
  }

  lemma {:induction false} CaseCounts(ns: seq<int>, i: nat, track: int)
    requires Increasing(ns) && i < |ns| && ns[i] < track && track !in ns
    ensures CaseFrom(ns, i, track) == track - CountBelow(ns, track)
    decreases |ns| - i
  {
    if i == |ns| - 1 || track < ns[i + 1] {
      CountBelowSorted(ns, track, i + 1);
    } else {
      assert ns[i + 1] in ns;
      CaseCounts(ns, i + 1, track);
    }
  }

  /** The generated expression moves every remaining track down by the number of removed
      tracks below it. */
  lemma NewTrackCounts(ns: seq<int>, track: int)
    requires Increasing(ns) && ns != [] && track !in ns
    ensures NewTrack(ns, track) == track - CountBelow(ns, track)
  {
    assert ns[0] in ns;
    if track <= ns[0] {
      CountBelowSorted(ns, track, 0);
    } else {
      CaseCounts(ns, 0, track);
    }
  }

  lemma {:induction false} CountBelowGrows(ns: seq<int>, a: int, b: int)
    requires Increasing(ns) && a <= b
    ensures CountBelow(ns, a) <= CountBelow(ns, b) <= CountBelow(ns, a) + (b - a)
    ensures a !in ns && a < b ==> CountBelow(ns, b) < CountBelow(ns, a) + (b - a)
    decreases b - a
  {
    if a < b {
      OneTrackFurther(ns, b - 1);
      CountBelowGrows(ns, a, b - 1);
      if b - 1 == a { OneTrackFurther(ns, a); }
    }
  }

  lemma {:induction false} OneTrackFurther(ns: seq<int>, a: int)
    requires Increasing(ns)
    ensures CountBelow(ns, a + 1) == CountBelow(ns, a) + if a in ns then 1 else 0
  {
    if ns != [] {
      var n := |ns| - 1;
      assert ns == ns[..n] + [ns[n]];
      OneTrackFurther(ns[..n], a);
    }
  }

  /** The new numbers keep the order of the remaining tracks and never clash. */
  lemma RenumberingKeepsOrder(ns: seq<int>, a: int, b: int)
    requires Increasing(ns) && ns != [] && a !in ns && b !in ns && a < b
    ensures NewTrack(ns, a) < NewTrack(ns, b)
  {
    NewTrackCounts(ns, a);
    NewTrackCounts(ns, b);
    CountBelowGrows(ns, a, b);
  }

  /** Where a remaining song ends up in the sequence. */
  lemma {:induction false} WithoutAt(s: seq<string>, ns: seq<int>, t: nat)
    requires Increasing(ns) && (forall n :: n in ns ==> n >= 0)
    requires t < |s| && t !in ns
    ensures var j := t - CountBelow(ns, t); 0 <= j < |Without(s, SetOf(ns))| && Without(s, SetOf(ns))[j] == s[t]
  {
    var n := |s| - 1;
    WithoutLength(s[..n], ns);
    if t < n {
      WithoutAt(s[..n], ns, t);
    }
  }

  lemma {:induction false} WithoutLength(s: seq<string>, ns: seq<int>)
    requires Increasing(ns) && (forall n :: n in ns ==> n >= 0)
    ensures |Without(s, SetOf(ns))| == |s| - CountBelow(ns, |s|)
  {
    if s == [] {
      NoneBelowZero(ns);
    } else {
      var n := |s| - 1;
      WithoutLength(s[..n], ns);
      OneTrackFurther(ns, n);
    }
  }

  lemma {:induction false} NoneBelowZero(ns: seq<int>)
    requires Increasing(ns) && forall n :: n in ns ==> n >= 0
    ensures CountBelow(ns, 0) == 0
  {
    if ns != [] {
      var init := ns[..|ns| - 1];
      assert ns[|ns| - 1] in ns;
      assert forall n :: n in init ==> n in ns;
      assert Increasing(init);
      NoneBelowZero(init);
    }
  }

  /** Every number below the new length is taken by a remaining track. */
  lemma {:induction false} WithoutSource(s: seq<string>, ns: seq<int>, j: nat) returns (t: nat)
    requires Increasing(ns) && (forall n :: n in ns ==> n >= 0)
    requires j < |Without(s, SetOf(ns))|
    ensures t < |s| && t !in ns && t - CountBelow(ns, t) == j
  {
    var n := |s| - 1;
    WithoutLength(s[..n], ns);
    if j < |Without(s[..n], SetOf(ns))| {
      t := WithoutSource(s[..n], ns, j);
    } else {
      t := n;
    }
  }

  /** In a table where some rows with these tracks are gone, no two rows clash. */
  lemma RenumberingNeverClashes(rows: Rows, id: string, ns: seq<int>)
    requires Increasing(ns) && ns != []
    ensures Renumbered(Deleted(rows, id, ns), id, ns).Some?
  {
    var rest := Deleted(rows, id, ns);
    forall j, k | j in rest && k in rest && j != k
      ensures Moved(id, ns, j) != Moved(id, ns, k)
    {
      if j.playlist == id && k.playlist == id {
        if j.track < k.track {
          RenumberingKeepsOrder(ns, j.track, k.track);
        } else {
          RenumberingKeepsOrder(ns, k.track, j.track);
        }
      }
    }
  }

  /** RemoveTracks is deletion in the sequence: deleting the rows of distinct valid indices
      and renumbering by the generated expression leaves exactly the other songs, in order,
      numbered 0..n-m-1; other playlists are not touched. */
  lemma RemovalIsDeletion(rows: Rows, id: string, s: seq<string>, ns: seq<int>)
    requires Holds(rows, id, s)
    requires Increasing(ns) && ns != [] && forall n :: n in ns ==> 0 <= n < |s|
    ensures var r := Renumbered(Deleted(rows, id, ns), id, ns);
            r.Some? && Holds(r.value, id, Without(s, SetOf(ns))) && SameElsewhere(rows, r.value, id)
  {
    RenumberingNeverClashes(rows, id, ns);
    var r, w := Renumbered(Deleted(rows, id, ns), id, ns).value, Without(s, SetOf(ns));
    forall j | 0 <= j < |w|
      ensures Key(id, j) in r && r[Key(id, j)] == w[j]
    {
      RemainingSongIsThere(rows, id, s, ns, j);
    }
    forall j | Key(id, j) in r
      ensures 0 <= j < |w|
    {
      var k :| k in Deleted(rows, id, ns) && Moved(id, ns, k) == Key(id, j);
      NewTrackCounts(ns, k.track);
      WithoutAt(s, ns, k.track);
    }
  }

  lemma RemainingSongIsThere(rows: Rows, id: string, s: seq<string>, ns: seq<int>, j: nat)
    requires Increasing(ns) && ns != [] && forall n :: n in ns ==> 0 <= n < |s|
    requires Holds(rows, id, s) && Renumbered(Deleted(rows, id, ns), id, ns).Some?
    requires j < |Without(s, SetOf(ns))|
    ensures var r := Renumbered(Deleted(rows, id, ns), id, ns).value;
            Key(id, j) in r && r[Key(id, j)] == Without(s, SetOf(ns))[j]
  {
    var t := WithoutSource(s, ns, j);
    NewTrackCounts(ns, t);
    WithoutAt(s, ns, t);
    assert Key(id, t) in Deleted(rows, id, ns) && Moved(id, ns, Key(id, t)) == Key(id, j);
  }

  // ------------------------------------------------------------------ insertion

  /** Appending rows after the last track appends to the sequence. */
  lemma InsertionIsAppend(rows: Rows, id: string, s: seq<string>, songs: seq<string>)
    requires Holds(rows, id, s)
    ensures Holds(rows + Inserted(id, |s| - 1, songs), id, s + songs)
    ensures SameElsewhere(rows, rows + Inserted(id, |s| - 1, songs), id)
  {
    var r := rows + Inserted(id, |s| - 1, songs);
    forall t | 0 <= t < |s + songs|
      ensures Key(id, t) in r && r[Key(id, t)] == (s + songs)[t]
    {
      if t < |s| {
        assert Key(id, t) !in Inserted(id, |s| - 1, songs);
      }
    }
  }

  /** It does not matter how the songs are split into batches. */
  lemma InsertionInBatches(id: string, last: int, a: seq<string>, b: seq<string>)
    ensures Inserted(id, last, a + b) == Inserted(id, last, a) + Inserted(id, last + |a|, b)
    ensures Inserted(id, last, a).Keys !! Inserted(id, last + |a|, b).Keys
  {
  }

  /** A playlist holds one sequence only. */
  lemma HeldSequenceIsUnique(rows: Rows, id: string, s: seq<string>, s': seq<string>)
    requires Holds(rows, id, s) && Holds(rows, id, s')
    ensures s == s'
  {
    assert Key(id, |s|) !in rows && Key(id, |s'|) !in rows;
    forall t | 0 <= t < |s|
      ensures s[t] == s'[t]
    {
      assert Key(id, t) in rows;
    }
  }

  // ------------------------------------------------------------------ FixTrackNumbers

  ghost function AnyOf<T>(ts: set<T>): (x: T)
    requires ts != {}
    ensures x in ts
  {
    var x :| x in ts;
    x
  }

  lemma {:induction false} HasLeast(ts: set<int>, x: int)
    requires x in ts
    ensures exists m :: m in ts && forall t :: t in ts ==> m <= t
    decreases ts
  {
    if y :| y in ts && y < x {
      var rest := ts - {x};
      HasLeast(rest, y);
      var m :| m in rest && forall t :: t in rest ==> m <= t;
      assert forall t :: t in ts ==> t == x || t in rest;
      assert m in ts && forall t :: t in ts ==> m <= t;
    } else {
      assert forall t :: t in ts ==> x <= t;
    }
  }

  ghost function Least(ts: set<int>): (m: int)
    requires ts != {}
    ensures m in ts && forall t :: t in ts ==> m <= t
  {
    HasLeast(ts, AnyOf(ts));
    var m :| m in ts && forall t :: t in ts ==> m <= t;
    m
  }

  /** The tracks in ascending order: row_number() OVER (ORDER BY track). */
  ghost function Ordered(ts: set<int>): seq<int> {
    if ts == {} then [] else [Least(ts)] + Ordered(ts - {Least(ts)})
  }

  lemma {:induction false} OrderedFacts(ts: set<int>)
    ensures Increasing(Ordered(ts))
    ensures forall t :: t in Ordered(ts) <==> t in ts
  {
    if ts != {} {
      var m := Least(ts);
      var rest := Ordered(ts - {m});
      OrderedFacts(ts - {m});
      assert Ordered(ts) == [m] + rest;
      forall t
        ensures t in Ordered(ts) <==> t in ts
      {
        assert t in [m] + rest <==> t == m || t in rest;
      }
      forall i | 0 <= i < |rest|
        ensures m < rest[i]
      {
        assert rest[i] in rest;
      }
    }
  }

  function Below(ts: set<int>, t: int): set<int> {
    set u | u in ts && u < t
  }

  /** The number the subquery gives to a row: row_number() - 1 among the playlist's tracks. */
  function NumberOf(rows: Rows, k: Key): nat {
    |Below(TracksOf(rows, k.playlist), k.track)|
  }

  /** Row `k` is updated with the number of row `j`: the join is on the song. */
  predicate Feeds(rows: Rows, j: Key, k: Key) {
    && j in rows && k in rows && j.playlist == k.playlist && rows[j] == rows[k]
    && NumberOf(rows, j) != k.track
  }

  /** A row gets the number of some row that feeds it, in no particular way, or keeps its own
      if there is none. */
  ghost predicate Gets(rows: Rows, k: Key, n: int) {
    (exists j :: Feeds(rows, j, k) && n == NumberOf(rows, j)) || (n == k.track && forall j :: !Feeds(rows, j, k))
  }

  ghost predicate Outcome(rows: Rows, move: map<Key, int>) {
    move.Keys == rows.Keys && forall k :: k in rows ==> Gets(rows, k, move[k])
  }

  /** The primary key holds at the end of the statement. */
  ghost predicate NoClash(rows: Rows, move: map<Key, int>)
    requires move.Keys == rows.Keys
  {
    forall j, k :: j in rows && k in rows && j != k ==> Key(j.playlist, move[j]) != Key(k.playlist, move[k])
  }

  function Updated(rows: Rows, move: map<Key, int>): Rows
    requires move.Keys == rows.Keys && NoClash(rows, move)
  {
    map k | k in rows :: Key(k.playlist, move[k]) := rows[k]
  }

  ghost predicate NoRepeats(rows: Rows, id: string) {
    forall a, b :: Key(id, a) in rows && Key(id, b) in rows && rows[Key(id, a)] == rows[Key(id, b)] ==> a == b
  }

  /** The songs of the playlist in track order, whatever the numbering. */
  ghost function SongsInOrder(rows: Rows, id: string): (s: seq<string>)
    ensures |s| == |Ordered(TracksOf(rows, id))|
  {
    OrderedFacts(TracksOf(rows, id));
    var ts := Ordered(TracksOf(rows, id));
    seq(|ts|, i requires 0 <= i < |ts| => if Key(id, ts[i]) in rows then rows[Key(id, ts[i])] else "")
  }

  lemma {:induction false} OrderedPlace(ts: set<int>, t: int)
    requires t in ts
    ensures |Below(ts, t)| < |Ordered(ts)| && Ordered(ts)[|Below(ts, t)|] == t
  {
    var m := Least(ts);
    if t == m {
      assert Below(ts, t) == {};
    } else {
      OrderedPlace(ts - {m}, t);
      assert Below(ts, t) == Below(ts - {m}, t) + {m};
    }
  }

  /** Rows are numbered in the order of their tracks. */
  lemma NumbersGrow(rows: Rows, j: Key, k: Key)
    requires j in rows && k in rows && j.playlist == k.playlist && j.track < k.track
    ensures NumberOf(rows, j) < NumberOf(rows, k)
  {
    var ts := TracksOf(rows, j.playlist);
    TrackIn(rows, j.playlist, j.track);
    assert Key(j.playlist, j.track) == j;
    assert Below(ts, k.track) == Below(ts, j.track) + {j.track} + (Below(ts, k.track) - Below(ts, j.track) - {j.track});
  }

  /** The song at a row's number is the row's song. */
  lemma SongAtNumber(rows: Rows, k: Key)
    requires k in rows
    ensures var s := SongsInOrder(rows, k.playlist); NumberOf(rows, k) < |s| && s[NumberOf(rows, k)] == rows[k]
  {
    TrackIn(rows, k.playlist, k.track);
    assert Key(k.playlist, k.track) == k;
    OrderedPlace(TracksOf(rows, k.playlist), k.track);
  }

  /** A row is moved to a place where its song belongs. */
  lemma MovesToItsSong(rows: Rows, k: Key, n: int)
    requires k in rows && Gets(rows, k, n)
    ensures var s := SongsInOrder(rows, k.playlist); 0 <= n < |s| && s[n] == rows[k]
  {
    if j :| Feeds(rows, j, k) && n == NumberOf(rows, j) {
      SongAtNumber(rows, j);
    } else {
      assert !Feeds(rows, k, k);
      SongAtNumber(rows, k);
    }
  }

  /** Distinct numbers below n, n of them, are all the numbers below n. */
  lemma {:induction false} Pigeonhole(ms: seq<int>, n: nat)
    requires |ms| == n && (forall i :: 0 <= i < n ==> 0 <= ms[i] < n)
    requires forall i, j :: 0 <= i < j < n ==> ms[i] != ms[j]
    ensures forall v :: 0 <= v < n ==> v in ms
  {
    var all, range := (set m | m in ms), UpTo(n);
    DistinctSize(ms);
    UpToFacts(n);
    assert all <= range;
    assert range * all == all;
    assert |range - all| == 0;
    forall v | 0 <= v < n
      ensures v in ms
    {
      assert v in range;
    }
  }

  lemma {:induction false} DistinctSize(ms: seq<int>)
    requires forall i, j :: 0 <= i < j < |ms| ==> ms[i] != ms[j]
    ensures |set m | m in ms| == |ms|
  {
    if ms != [] {
      var n := |ms| - 1;
      DistinctSize(ms[..n]);
      assert (set m | m in ms) == (set m | m in ms[..n]) + {ms[n]};
    }
  }

  function UpTo(n: nat): set<int> {
    if n == 0 then {} else UpTo(n - 1) + {n - 1}
  }

  lemma {:induction false} UpToFacts(n: nat)
    ensures |UpTo(n)| == n && forall v :: v in UpTo(n) <==> 0 <= v < n
  {
    if n > 0 {
      UpToFacts(n - 1);
    }
  }

  /** FixTrackNumbers repairs any numbering: if the statement succeeds, every playlist holds
      the same songs in the same order afterwards, numbered 0..n-1. */
  lemma FixRestoresNumbering(rows: Rows, move: map<Key, int>, id: string)
    requires Outcome(rows, move) && NoClash(rows, move)
    ensures Holds(Updated(rows, move), id, SongsInOrder(rows, id))
  {
    var s, r := SongsInOrder(rows, id), Updated(rows, move);
    forall t | Key(id, t) in r
      ensures 0 <= t < |s| && r[Key(id, t)] == s[t]
    {
      var k :| k in rows && Key(k.playlist, move[k]) == Key(id, t);
      MovesToItsSong(rows, k, move[k]);
    }
    forall n | 0 <= n < |s|
      ensures Key(id, n) in r
    {
      EveryNumberIsTaken(rows, move, id, n);
    }
  }

  lemma EveryNumberIsTaken(rows: Rows, move: map<Key, int>, id: string, n: nat)
    requires Outcome(rows, move) && NoClash(rows, move)
    requires 0 <= n < |Ordered(TracksOf(rows, id))|
    ensures exists k :: k in rows && Key(k.playlist, move[k]) == Key(id, n)
  {
    var ts := Ordered(TracksOf(rows, id));
    OrderedFacts(TracksOf(rows, id));
    forall i | 0 <= i < |ts|
      ensures Key(id, ts[i]) in rows && 0 <= move[Key(id, ts[i])] < |ts|
    {
      assert ts[i] in ts;
      MovesToItsSong(rows, Key(id, ts[i]), move[Key(id, ts[i])]);
    }
    var ms := NewNumbers(move, id, ts);
    forall i, j | 0 <= i < j < |ts|
      ensures ms[i] != ms[j]
    {
    }
    Pigeonhole(ms, |ts|);
    assert n in ms;
    var i :| 0 <= i < |ms| && ms[i] == n;
    assert Key(id, ts[i]) in rows;
  }

  function NewNumbers(move: map<Key, int>, id: string, ts: seq<int>): (ms: seq<int>)
    requires forall i :: 0 <= i < |ts| ==> Key(id, ts[i]) in move
    ensures |ms| == |ts| && forall i :: 0 <= i < |ts| ==> ms[i] == move[Key(id, ts[i])]
  {
    if ts == [] then [] else NewNumbers(move, id, ts[..|ts| - 1]) + [move[Key(id, ts[|ts| - 1])]]
  }

  /** Two rows of one playlist hold the same song. */
  ghost predicate Repeat(rows: Rows, j: Key, k: Key) {
    j in rows && k in rows && j != k && j.playlist == k.playlist && rows[j] == rows[k]
  }

  predicate Right(rows: Rows, k: Key) {
    NumberOf(rows, k) == k.track
  }

  /** A song is repeated at most once, and then both of its rows are numbered right already. */
  ghost predicate Harmless(rows: Rows) {
    && (forall j, k :: Repeat(rows, j, k) ==> Right(rows, j) && Right(rows, k))
    && (forall j, k, l :: Repeat(rows, j, k) && Repeat(rows, j, l) ==> k == l)
  }

  /** A row that is right and has one other copy, right too, takes the other's number. */
  lemma CopiesSwap(rows: Rows, move: map<Key, int>, j: Key, k: Key)
    requires Outcome(rows, move) && Repeat(rows, j, k) && Harmless(rows)
    ensures move[j] == k.track
  {
    assert Right(rows, j) && Right(rows, k);
    assert Feeds(rows, k, j);
    var i :| Feeds(rows, i, j) && move[j] == NumberOf(rows, i);
    assert Repeat(rows, j, i);
  }

  lemma HarmlessNeverClashes(rows: Rows, move: map<Key, int>)
    requires Outcome(rows, move) && Harmless(rows)
    ensures NoClash(rows, move)
  {
    forall j, k | j in rows && k in rows && j != k
      ensures Key(j.playlist, move[j]) != Key(k.playlist, move[k])
    {
      if Key(j.playlist, move[j]) == Key(k.playlist, move[k]) {
        MovesToItsSong(rows, j, move[j]);
        MovesToItsSong(rows, k, move[k]);
        assert Repeat(rows, j, k) && Repeat(rows, k, j);
        CopiesSwap(rows, move, j, k);
        CopiesSwap(rows, move, k, j);
        assert false;
      }
    }
  }

  /** Two rows may be given the number of row `i`. */
  ghost predicate MayClash(rows: Rows, j: Key, k: Key, i: Key) {
    Repeat(rows, j, k) && Feeds(rows, i, j) && Feeds(rows, i, k)
  }

  /** Some number for each row. */
  ghost function AnyMove(rows: Rows, k: Key): (n: int)
    requires k in rows
    ensures Gets(rows, k, n)
  {
    if j :| Feeds(rows, j, k) then NumberOf(rows, j) else k.track
  }

  lemma ClashHappens(rows: Rows, j: Key, k: Key, i: Key) returns (move: map<Key, int>)
    requires MayClash(rows, j, k, i)
    ensures Outcome(rows, move) && !NoClash(rows, move)
  {
    move := map l | l in rows :: if l == j || l == k then NumberOf(rows, i) else AnyMove(rows, l);
    assert move[j] == move[k];
  }

  /** The statement succeeds whatever rows the join picks exactly when every repeated song is
      repeated once only, with both of its rows numbered right already. */
  lemma FixSucceedsIffHarmless(rows: Rows)
    ensures (forall move :: Outcome(rows, move) ==> NoClash(rows, move)) <==> Harmless(rows)
  {
    if Harmless(rows) {
      forall move | Outcome(rows, move)
        ensures NoClash(rows, move)
      {
        HarmlessNeverClashes(rows, move);
      }
    } else if j, k :| Repeat(rows, j, k) && !(Right(rows, j) && Right(rows, k)) {
      var a, b := if !Right(rows, j) then j else k, if !Right(rows, j) then k else j;
      if a.track < b.track {
        NumbersGrow(rows, a, b);
      } else {
        NumbersGrow(rows, b, a);
      }
      var move := ClashHappens(rows, a, b, if b.track != NumberOf(rows, a) then a else b);
    } else {
      var j, k, l :| Repeat(rows, j, k) && Repeat(rows, j, l) && k != l;
      var n := NumberOf(rows, j);
      var move := ClashHappens(rows, if j.track == n then l else j, if k.track == n then l else k, j);
    }
  }

  /** In particular it succeeds without repeated songs. */
  lemma NoRepeatsNoClash(rows: Rows, move: map<Key, int>)
    requires Outcome(rows, move)
    requires forall id :: NoRepeats(rows, id)
    ensures NoClash(rows, move)
  {
    forall j, k | j in rows && k in rows && j != k && j.playlist == k.playlist
      ensures rows[j] != rows[k]
    {
      assert NoRepeats(rows, j.playlist);
      assert Key(j.playlist, j.track) == j && Key(k.playlist, k.track) == k;
    }
    HarmlessNeverClashes(rows, move);
  }

  /** With a song in a playlist three times the statement may fail although the numbering
      was right to begin with. */
  lemma RepeatsMayClash() returns (rows: Rows, move: map<Key, int>)
    ensures Holds(rows, "p", ["a", "a", "a"])
    ensures Outcome(rows, move) && !NoClash(rows, move)
  {
    rows := map[Key("p", 0) := "a", Key("p", 1) := "a", Key("p", 2) := "a"];
    move := map[Key("p", 0) := 1, Key("p", 1) := 2, Key("p", 2) := 1];
    ThreeCopies(rows);
    assert Feeds(rows, Key("p", 1), Key("p", 0)) && Feeds(rows, Key("p", 2), Key("p", 1))
           && Feeds(rows, Key("p", 1), Key("p", 2));
  }

  lemma ThreeCopies(rows: Rows)
    requires rows == map[Key("p", 0) := "a", Key("p", 1) := "a", Key("p", 2) := "a"]
    ensures forall n :: 0 <= n < 3 ==> NumberOf(rows, Key("p", n)) == n
  {
    assert TracksOf(rows, "p") == {0, 1, 2};
    assert Below({0, 1, 2}, 0) == {} && Below({0, 1, 2}, 1) == {0} && Below({0, 1, 2}, 2) == {0, 1};
  }

  lemma TrackIn(rows: Rows, id: string, n: int)
    ensures n in TracksOf(rows, id) <==> Key(id, n) in rows
  {
    if Key(id, n) in rows {
      assert Key(id, n).track == n;
    }
  }
}
