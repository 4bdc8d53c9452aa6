/**
  The conflict filter of handleScrobble (handlers/subsonic_mediaannotation.go): entries that
  are already stored are dropped from three parallel lists, by way of a query that is made
  in chunks (repos/postgres/scrobble.go, repos/postgres/helpers.go).
 */
module ScrobbleDedup {
  import opened Wrappers
  import opened Batches
  import opened Selections

  /** Times are compared as instants. */
  datatype Scrobble = Scrobble(user: string, song: string, time: int, nowPlaying: bool)

  predicate Matches(c: Scrobble, user: string, songs: seq<string>, times: seq<int>) {
    c.user == user && !c.nowPlaying && c.song in songs && c.time in times
  }

  /** The rows the query selects for one chunk. */
  function Select(table: seq<Scrobble>, user: string, songs: seq<string>, times: seq<int>): (r: seq<Scrobble>)
    ensures forall c :: c in r <==> c in table && Matches(c, user, songs, times)
  {
    if table == [] then []
    else
      var n := |table| - 1;
      assert table == table[..n] + [table[n]];
      Select(table[..n], user, songs, times) + if Matches(table[n], user, songs, times) then [table[n]] else []
  }

  function Chunk<T>(s: seq<T>, b: nat): seq<T> {
    s[Min(b, |s|)..Min(b + SELECT_BATCH_SIZE, |s|)]
  }

  /** Some chunk of the two lists, taken at the same place, matches. */
  ghost predicate MatchesSomeChunk(c: Scrobble, user: string, songs: seq<string>, times: seq<int>, end: nat) {
    exists k: nat :: k * SELECT_BATCH_SIZE < end
                     && Matches(c, user, Chunk(songs, k * SELECT_BATCH_SIZE), Chunk(times, k * SELECT_BATCH_SIZE))
  }

  /** selectBatch2 over the two lists; None when their lengths differ. */
  method FindPossibleConflicts(table: seq<Scrobble>, user: string, songs: seq<string>, times: seq<int>)
    returns (r: Option<seq<Scrobble>>)
    ensures r.None? <==> |songs| != |times|
    ensures r.Some? ==> forall c :: c in r.value <==> c in table && MatchesSomeChunk(c, user, songs, times, |songs|)
  {
    if |songs| != |times| {
      return None;
    }
    var result := [];
    var i, k := 0, 0;
    while i < |songs|
      invariant i == k * SELECT_BATCH_SIZE
      invariant forall c :: c in result <==> c in table && MatchesSomeChunk(c, user, songs, times, i)
      decreases |songs| - i
    {
      var slice := Select(table, user, Chunk(songs, i), Chunk(times, i));
      forall c
        ensures MatchesSomeChunk(c, user, songs, times, i + SELECT_BATCH_SIZE) <==>
                MatchesSomeChunk(c, user, songs, times, i) || Matches(c, user, Chunk(songs, i), Chunk(times, i))
      {
      }
      result := result + slice;
      i, k := i + SELECT_BATCH_SIZE, k + 1;
    }
    forall c
      ensures MatchesSomeChunk(c, user, songs, times, i) <==> MatchesSomeChunk(c, user, songs, times, |songs|)
    {
      if j: nat :| j * SELECT_BATCH_SIZE < i
                   && Matches(c, user, Chunk(songs, j * SELECT_BATCH_SIZE), Chunk(times, j * SELECT_BATCH_SIZE)) {
        assert Chunk(songs, j * SELECT_BATCH_SIZE) != [];
      }
    }
    r := Some(result);
  }

  /** The pair of an entry is never split: whatever is stored for it is found in its chunk. */
  lemma EntryIsInItsChunk(songs: seq<string>, times: seq<int>, i: nat)
    requires |songs| == |times| && i < |songs|
    ensures var b := i / SELECT_BATCH_SIZE * SELECT_BATCH_SIZE;
            b <= i && songs[i] in Chunk(songs, b) && times[i] in Chunk(times, b)
  {
    var b := i / SELECT_BATCH_SIZE * SELECT_BATCH_SIZE;
    assert Chunk(songs, b)[i - b] == songs[i] && Chunk(times, b)[i - b] == times[i];
  }

  predicate Stored(table: seq<Scrobble>, user: string, song: string, time: int) {
    Scrobble(user, song, time, false) in table
  }

  /** Among the conflicts found, an entry has one exactly when it is stored. */
  lemma ConflictIffStored(table: seq<Scrobble>, user: string, songs: seq<string>, times: seq<int>,
                          conflicts: seq<Scrobble>, i: nat)
    requires |songs| == |times| && i < |songs|
    requires forall c :: c in conflicts <==> c in table && MatchesSomeChunk(c, user, songs, times, |songs|)
    ensures (exists c :: c in conflicts && c.song == songs[i] && c.time == times[i]) <==>
            Stored(table, user, songs[i], times[i])
  {
    var row := Scrobble(user, songs[i], times[i], false);
    if Stored(table, user, songs[i], times[i]) {
      EntryIsInItsChunk(songs, times, i);
      var k := i / SELECT_BATCH_SIZE;
      assert Matches(row, user, Chunk(songs, k * SELECT_BATCH_SIZE), Chunk(times, k * SELECT_BATCH_SIZE));
      assert row in conflicts;
    }
    if c :| c in conflicts && c.song == songs[i] && c.time == times[i] {
      assert c == row;
    }
  }

  /** The query in chunks does lose pairs: here a stored scrobble matches the two whole lists
      and no chunk, because its song and its time come from different chunks. */
  lemma ChunkingLosesPairs() returns (c: Scrobble, songs: seq<string>, times: seq<int>)
    ensures |songs| == |times|
    ensures Matches(c, c.user, songs, times) && !MatchesSomeChunk(c, c.user, songs, times, |songs|)
  {
    c := Scrobble("u", "b", 0, false);
    songs := seq(SELECT_BATCH_SIZE + 1, i => if i == SELECT_BATCH_SIZE then "b" else "a");
    times := seq(SELECT_BATCH_SIZE + 1, i => if i == 0 then 0 else 1);
    assert songs[SELECT_BATCH_SIZE] == "b" && times[0] == 0;
    forall k: nat | k * SELECT_BATCH_SIZE < |songs|
      ensures !Matches(c, c.user, Chunk(songs, k * SELECT_BATCH_SIZE), Chunk(times, k * SELECT_BATCH_SIZE))
    {
      assert k <= 1;
      if k == 0 {
        assert "b" !in Chunk(songs, 0);
      } else {
        assert 0 !in Chunk(times, SELECT_BATCH_SIZE);
      }
    }
  }

  // ------------------------------------------------------------------ the filter

  function NotStored(table: seq<Scrobble>, user: string, songs: seq<string>, times: seq<int>): (keep: seq<bool>)
    requires |songs| == |times|
    ensures |keep| == |songs| && forall i :: 0 <= i < |songs| ==> keep[i] == !Stored(table, user, songs[i], times[i])
  {
    seq(|songs|, i requires 0 <= i < |songs| && |songs| == |times| => !Stored(table, user, songs[i], times[i]))
  }

  method IsConflict(conflicts: seq<Scrobble>, song: string, time: int) returns (b: bool)
    ensures b <==> exists c :: c in conflicts && c.song == song && c.time == time
  {
    b := false;
    for j := 0 to |conflicts|
      invariant !b && forall k :: 0 <= k < j ==> !(conflicts[k].song == song && conflicts[k].time == time)
    {
      if conflicts[j].song == song && conflicts[j].time == time {
        return true;
      }
    }
  }

  /** An entry is dropped exactly when this user already has a stored scrobble of that song at
      that time; the three lists stay aligned and in order. */
  method DropStored(table: seq<Scrobble>, user: string, songs: seq<string>, times: seq<int>,
                    durations: seq<Option<int>>)
    returns (newSongs: seq<string>, newTimes: seq<int>, newDurations: seq<Option<int>>)
    requires |songs| == |times| == |durations|
    ensures var keep := NotStored(table, user, songs, times);
            newSongs == Kept(songs, keep) && newTimes == Kept(times, keep) && newDurations == Kept(durations, keep)
    ensures |newSongs| == |newTimes| == |newDurations|
    ensures Entries(newSongs, newTimes, newDurations) == Unstored(table, user, Entries(songs, times, durations))
    ensures forall e :: e in Entries(newSongs, newTimes, newDurations) <==>
                        e in Entries(songs, times, durations)
                        && !exists c :: c in table && c.user == user && !c.nowPlaying && c.song == e.song
                                        && c.time == e.time
  {
    ListsStayAligned(table, user, songs, times, durations);
    ghost var keep := NotStored(table, user, songs, times);
    var found := FindPossibleConflicts(table, user, songs, times);
    var conflicts := found.value;
    ConflictsMark(table, user, songs, times, conflicts);
    if |conflicts| == 0 {
      KeptAll(songs, keep);
      KeptAll(times, keep);
      KeptAll(durations, keep);
      return songs, times, durations;
    }
    newSongs, newTimes, newDurations := DropConflicts(conflicts, songs, times, durations, keep);
  }

  /** Whether there is a conflict for this song at this time. */
  ghost predicate HasConflict(conflicts: seq<Scrobble>, song: string, time: int) {
    exists c :: c in conflicts && c.song == song && c.time == time
  }

  lemma ConflictsMark(table: seq<Scrobble>, user: string, songs: seq<string>, times: seq<int>, conflicts: seq<Scrobble>)
    requires |songs| == |times|
    requires forall c :: c in conflicts <==> c in table && MatchesSomeChunk(c, user, songs, times, |songs|)
    ensures var keep := NotStored(table, user, songs, times);
            forall i :: 0 <= i < |songs| ==> keep[i] == !HasConflict(conflicts, songs[i], times[i])
  {
    forall i | 0 <= i < |songs|
      ensures HasConflict(conflicts, songs[i], times[i]) <==> Stored(table, user, songs[i], times[i])
    {
      ConflictIffStored(table, user, songs, times, conflicts, i);
    }
  }

  /** The loop over the entries. */
  method DropConflicts(conflicts: seq<Scrobble>, songs: seq<string>, times: seq<int>, durations: seq<Option<int>>,
                       ghost keep: seq<bool>)
    returns (newSongs: seq<string>, newTimes: seq<int>, newDurations: seq<Option<int>>)
    requires |songs| == |times| == |durations| == |keep|
    requires forall i :: 0 <= i < |songs| ==> keep[i] == !HasConflict(conflicts, songs[i], times[i])
    ensures newSongs == Kept(songs, keep) && newTimes == Kept(times, keep) && newDurations == Kept(durations, keep)
  {
    newSongs, newTimes, newDurations := [], [], [];
    for i := 0 to |songs|
      invariant newSongs == Kept(songs[..i], keep[..i])
      invariant newTimes == Kept(times[..i], keep[..i])
      invariant newDurations == Kept(durations[..i], keep[..i])
    {
      KeptOneMore(songs, keep, i);
      KeptOneMore(times, keep, i);
      KeptOneMore(durations, keep, i);
      var conflict := IsConflict(conflicts, songs[i], times[i]);
      if !conflict {
        newSongs := newSongs + [songs[i]];
        newTimes := newTimes + [times[i]];
        newDurations := newDurations + [durations[i]];
      }
    }
    assert songs[..|songs|] == songs && times[..|songs|] == times && durations[..|songs|] == durations
           && keep[..|songs|] == keep;
  }

  lemma KeptOneMore<T>(xs: seq<T>, keep: seq<bool>, i: nat)
    requires |xs| == |keep| && i < |xs|
    ensures Kept(xs[..i + 1], keep[..i + 1]) == Kept(xs[..i], keep[..i]) + if keep[i] then [xs[i]] else []
  {
    assert xs[..i + 1][..i] == xs[..i] && keep[..i + 1][..i] == keep[..i];
  }

  lemma {:induction false} KeptAll<T>(xs: seq<T>, keep: seq<bool>)
    requires |xs| == |keep| && forall i :: 0 <= i < |keep| ==> keep[i]
    ensures Kept(xs, keep) == xs
  {
    if xs != [] {
      KeptAll(xs[..|xs| - 1], keep[..|xs| - 1]);
    }
  }

  // ------------------------------------------------------------------ alignment

  datatype Entry = Entry(song: string, time: int, duration: Option<int>)

  /** The three lists read as one list of entries. */
  function Entries(songs: seq<string>, times: seq<int>, durations: seq<Option<int>>): (es: seq<Entry>)
    requires |songs| == |times| == |durations|
    ensures |es| == |songs|
    ensures forall i :: 0 <= i < |es| ==> es[i] == Entry(songs[i], times[i], durations[i])
  {
    if songs == [] then []
    else
      var n := |songs| - 1;
      Entries(songs[..n], times[..n], durations[..n]) + [Entry(songs[n], times[n], durations[n])]
  }

  /** The entries without a stored scrobble, in order. */
  function Unstored(table: seq<Scrobble>, user: string, es: seq<Entry>): (r: seq<Entry>)
    ensures forall e :: e in r <==> e in es && !Stored(table, user, e.song, e.time)
  {
    if es == [] then []
    else
      var n := |es| - 1;
      assert es == es[..n] + [es[n]];
      Unstored(table, user, es[..n]) + if Stored(table, user, es[n].song, es[n].time) then [] else [es[n]]
  }

  lemma EntriesOneMore(songs: seq<string>, times: seq<int>, durations: seq<Option<int>>, song: string, time: int,
                       duration: Option<int>)
    requires |songs| == |times| == |durations|
    ensures Entries(songs + [song], times + [time], durations + [duration]) ==
            Entries(songs, times, durations) + [Entry(song, time, duration)]
  {
  }

  /** One entry after the others, for ListsStayAligned. */
  lemma OneMoreAligned(table: seq<Scrobble>, user: string, songs: seq<string>, times: seq<int>,
                       durations: seq<Option<int>>,
                       song: string, time: int, duration: Option<int>, keep: seq<bool>, last: bool)
    requires |songs| == |times| == |durations| == |keep| && last == !Stored(table, user, song, time)
    requires Aligned(table, user, songs, times, durations, keep)
    ensures Aligned(table, user, songs + [song], times + [time], durations + [duration], keep + [last])
  {
    KeptSnoc(songs, keep, song, last);
    KeptSnoc(times, keep, time, last);
    KeptSnoc(durations, keep, duration, last);
    EntriesOneMore(songs, times, durations, song, time, duration);
    EntriesOneMore(Kept(songs, keep), Kept(times, keep), Kept(durations, keep), song, time, duration);
    var es, e := Entries(songs, times, durations), Entry(song, time, duration);
    assert (es + [e])[..|es|] == es;
  }

  ghost predicate Aligned(table: seq<Scrobble>, user: string, songs: seq<string>, times: seq<int>,
                          durations: seq<Option<int>>, keep: seq<bool>)
    requires |songs| == |times| == |durations| == |keep|
  {
    var s, t, d := Kept(songs, keep), Kept(times, keep), Kept(durations, keep);
    |s| == |t| == |d| && Entries(s, t, d) == Unstored(table, user, Entries(songs, times, durations))
  }

  lemma {:induction false} AlignedForAll(table: seq<Scrobble>, user: string, songs: seq<string>, times: seq<int>,
                                         durations: seq<Option<int>>, keep: seq<bool>)
    requires |songs| == |times| == |durations| == |keep|
    requires forall i :: 0 <= i < |songs| ==> keep[i] == !Stored(table, user, songs[i], times[i])
    ensures Aligned(table, user, songs, times, durations, keep)
    decreases |songs|
  {
    if songs != [] {
      var n := |songs| - 1;
      var s, t, d, k := songs[..n], times[..n], durations[..n], keep[..n];
      assert songs == s + [songs[n]] && times == t + [times[n]] && durations == d + [durations[n]]
             && keep == k + [keep[n]];
      AlignedForAll(table, user, s, t, d, k);
      OneMoreAligned(table, user, s, t, d, songs[n], times[n], durations[n], k, keep[n]);
    }
  }

  /** The lists stay aligned and in order: read as entries, what is kept is the list of the
      entries that are not stored. */
  lemma ListsStayAligned(table: seq<Scrobble>, user: string, songs: seq<string>, times: seq<int>,
                         durations: seq<Option<int>>)
    requires |songs| == |times| == |durations|
    ensures Aligned(table, user, songs, times, durations, NotStored(table, user, songs, times))
  {
    AlignedForAll(table, user, songs, times, durations, NotStored(table, user, songs, times));
  }
}
