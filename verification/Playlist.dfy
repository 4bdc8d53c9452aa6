/**
  The playlist repository (repos/postgres/playlist.go) and the playlist update handler
  (handlers/subsonic_playlists.go) in imperative form. Transactions are atomic: a failing
  one restores the rows.
 */
module Playlist {
  import opened Wrappers
  import opened PlaylistTable
  import opened Batches

  /** COALESCE(MAX(track), -1) over the playlist. */
  ghost predicate IsMax(rows: Rows, id: string, n: int) {
    && (forall k :: k in rows && k.playlist == id ==> k.track <= n)
    && (Key(id, n) in rows || (n == -1 && forall k :: k in rows ==> k.playlist != id))
  }

  lemma MaxOfHeld(rows: Rows, id: string, s: seq<string>, n: int)
    requires Holds(rows, id, s) && IsMax(rows, id, n)
    ensures n == |s| - 1
  {
    if s != [] {
      assert Key(id, |s| - 1) in rows;
    } else {
      assert Key(id, n) !in rows;
    }
  }

  // ------------------------------------------------------------------ sorting the removed tracks

  ghost predicate NoDuplicates(ns: seq<int>) {
    forall i, j :: 0 <= i < j < |ns| ==> ns[i] != ns[j]
  }

  function InsertInt(n: int, ns: seq<int>): seq<int> {
    if ns == [] then [n] else if n <= ns[0] then [n] + ns else [ns[0]] + InsertInt(n, ns[1..])
  }

  function SortedInts(ns: seq<int>): seq<int> {
    if ns == [] then [] else InsertInt(ns[0], SortedInts(ns[1..]))
  }

  ghost predicate Ascending(ns: seq<int>) {
    forall i, j :: 0 <= i < j < |ns| ==> ns[i] <= ns[j]
  }

  lemma {:induction false} InsertIntPermutes(n: int, ns: seq<int>)
    ensures multiset(InsertInt(n, ns)) == multiset{n} + multiset(ns)
  {
    if ns != [] {
      assert ns == [ns[0]] + ns[1..];
      InsertIntPermutes(n, ns[1..]);
    }
  }

  lemma {:induction false} InsertIntAscending(n: int, ns: seq<int>, low: int)
    requires Ascending(ns) && low <= n && forall i :: 0 <= i < |ns| ==> low <= ns[i]
    ensures var r := InsertInt(n, ns); Ascending(r) && forall i :: 0 <= i < |r| ==> low <= r[i]
  {
    if ns != [] && n > ns[0] {
      InsertIntAscending(n, ns[1..], ns[0]);
    }
  }

  lemma {:induction false} SortedIntsPermute(ns: seq<int>)
    ensures multiset(SortedInts(ns)) == multiset(ns)
  {
    if ns != [] {
      SortedIntsPermute(ns[1..]);
      InsertIntPermutes(ns[0], SortedInts(ns[1..]));
      assert ns == [ns[0]] + ns[1..];
    }
  }

  lemma {:induction false} SortedIntsAscend(ns: seq<int>)
    ensures Ascending(SortedInts(ns))
  {
    if ns != [] {
      var rest := SortedInts(ns[1..]);
      SortedIntsAscend(ns[1..]);
      InsertIntAscending(ns[0], rest, if rest != [] && rest[0] < ns[0] then rest[0] else ns[0]);
    }
  }

  /** A sorted permutation has the same length and elements; without duplicates it is
      strictly increasing. */
  lemma SortedPermutation(ns: seq<int>, ms: seq<int>)
    requires multiset(ms) == multiset(ns) && Ascending(ms)
    ensures |ms| == |ns| && SetOf(ms) == SetOf(ns)
    ensures NoDuplicates(ns) ==> Increasing(ms)
  {
    assert |ms| == |multiset(ms)| == |multiset(ns)| == |ns|;
    forall x
      ensures x in ms <==> x in ns
    {
      assert x in ms <==> x in multiset(ms);
      assert x in ns <==> x in multiset(ns);
    }
    if NoDuplicates(ns) {
      forall i, j | 0 <= i < j < |ms|
        ensures ms[i] < ms[j]
      {
        AtMostOnce(ns, ms[i]);
        TwiceCountsTwo(ms, i, j);
      }
    }
  }

  lemma {:induction false} AtMostOnce(ns: seq<int>, x: int)
    requires NoDuplicates(ns)
    ensures multiset(ns)[x] <= 1
  {
    if ns != [] {
      var init, last := ns[..|ns| - 1], ns[|ns| - 1];
      assert ns == init + [last];
      AtMostOnce(init, x);
      assert x == last ==> x !in init && x !in multiset(init);
    }
  }

  lemma TwiceCountsTwo(ms: seq<int>, i: nat, j: nat)
    requires i < j < |ms|
    ensures ms[i] == ms[j] ==> multiset(ms)[ms[i]] >= 2
  {
    assert ms == ms[..j] + ms[j..];
    assert ms[i] in ms[..j] && ms[j] in ms[j..];
    assert ms[i] in multiset(ms[..j]) && ms[j] in multiset(ms[j..]);
    assert multiset(ms) == multiset(ms[..j]) + multiset(ms[j..]);
  }

  /** slices.Sort: sorts in place. */
  method SortInts(a: array<int>)
    modifies a
    ensures Ascending(a[..]) && multiset(a[..]) == multiset(old(a[..]))
  {
    var s := Sort(a[..]);
    for i := 0 to a.Length
      invariant a[..i] == s[..i]
    {
      a[i] := s[i];
    }
    assert a[..] == s;
  }

  function Sort(ns: seq<int>): (s: seq<int>)
    ensures Ascending(s) && multiset(s) == multiset(ns) && |s| == |ns|
  {
    SortedIntsAscend(ns);
    SortedIntsPermute(ns);
    assert |multiset(SortedInts(ns))| == |multiset(ns)|;
    SortedInts(ns)
  }

  // ------------------------------------------------------------------ counting the deleted rows

  lemma {:induction false} SizeOfSetOf(ns: seq<int>)
    ensures |SetOf(ns)| <= |ns|
    ensures |SetOf(ns)| == |ns| <==> NoDuplicates(ns)
  {
    if ns != [] {
      var init, last := ns[..|ns| - 1], ns[|ns| - 1];
      SizeOfSetOf(init);
      assert SetOf(ns) == SetOf(init) + {last};
      assert NoDuplicates(ns) <==> NoDuplicates(init) && last !in init;
    }
  }

  /** The number of deleted rows is the number of requested tracks exactly when those are
      distinct and all present. */
  lemma DeletedAllRequested(rows: Rows, id: string, ns: seq<int>)
    ensures |TracksOf(rows, id) * SetOf(ns)| == |ns| <==> NoDuplicates(ns) && forall n :: n in ns ==> Key(id, n) in rows
  {
    var hit := TracksOf(rows, id) * SetOf(ns);
    SizeOfSetOf(ns);
    assert hit <= SetOf(ns);
    SubsetSize(hit, SetOf(ns));
    forall n
      ensures n in hit <==> n in ns && Key(id, n) in rows
    {
      TrackIn(rows, id, n);
    }
    if forall n :: n in ns ==> Key(id, n) in rows {
      forall n | n in SetOf(ns)
        ensures n in hit
      {
        assert n in ns;
      }
    }
    if hit == SetOf(ns) {
      assert forall n :: n in ns ==> n in hit;
    }
  }

  lemma SubsetSize(a: set<int>, b: set<int>)
    requires a <= b
    ensures |a| <= |b| && (|a| == |b| <==> a == b)
  {
    assert b == a + (b - a);
    if |a| == |b| {
      assert |b - a| == 0;
    }
  }

  // ------------------------------------------------------------------ operations on the sequence

  datatype Op = Add(songs: seq<string>) | Remove(tracks: seq<int>) | Clear | Set(songs: seq<string>)

  predicate Known(songs: seq<string>, library: set<string>) {
    forall s :: s in songs ==> s in library
  }

  /** Whether the operation goes through on a playlist of `n` songs. */
  ghost predicate Valid(op: Op, n: nat, library: set<string>) {
    match op
    case Add(songs) => Known(songs, library)
    case Remove(tracks) => NoDuplicates(tracks) && forall t :: t in tracks ==> 0 <= t < n
    case Clear => true
    case Set(songs) => Known(songs, library)
  }

  /** What the operation means for the sequence; one that does not go through means nothing. */
  ghost function Step(s: seq<string>, op: Op, library: set<string>): seq<string> {
    if !Valid(op, |s|, library) then s
    else match op
         case Add(songs) => s + songs
         case Remove(tracks) => Without(s, SetOf(tracks))
         case Clear => []
         case Set(songs) => songs
  }

  ghost function Steps(s: seq<string>, ops: seq<Op>, library: set<string>): seq<string> {
    if ops == [] then s else Step(Steps(s, ops[..|ops| - 1], library), ops[|ops| - 1], library)
  }

  lemma {:induction false} WithoutNothing(s: seq<string>)
    ensures Without(s, {}) == s
  {
    if s != [] {
      WithoutNothing(s[..|s| - 1]);
    }
  }

  class Playlists {
    /** The ids of the songs table, which playlist rows reference. */
    const library: set<string>
    var rows: Rows

    constructor (library: set<string>)
      ensures this.library == library && rows == map[]
    {
      this.library, rows := library, map[];
    }

    method GetMaxTrackNr(id: string) returns (n: int)
      ensures IsMax(rows, id, n)
    {
      n := -1;
      var found := false;
      var todo := rows.Keys;
      while todo != {}
        invariant todo <= rows.Keys
        invariant forall k :: k in rows && k !in todo && k.playlist == id ==> found && k.track <= n
        invariant if found then Key(id, n) in rows else n == -1
        decreases todo
      {
        var k :| k in todo;
        todo := todo - {k};
        if k.playlist == id && (!found || k.track > n) {
          n, found := k.track, true;
        }
      }
    }

    /** The value list of one INSERT, counting on from `last`. */
    method ValueList(id: string, songs: seq<string>, last: int) returns (values: Rows, maxTrackNr: int)
      ensures values == Inserted(id, last, songs) && maxTrackNr == last + |songs|
    {
      maxTrackNr := last;
      values := map[];
      for i := 0 to |songs|
        invariant maxTrackNr == last + i && values == Inserted(id, last, songs[..i])
      {
        maxTrackNr := maxTrackNr + 1;
        assert songs[..i + 1] == songs[..i] + [songs[i]];
        values := values[Key(id, maxTrackNr) := songs[i]];
      }
      assert songs[..|songs|] == songs;
    }

    /** Inserts in batches after track number `last`; a batch fails as a whole if one of its
        songs is unknown. */
    method InsertAll(id: string, songs: seq<string>, last: int) returns (ok: bool)
      modifies `rows
      ensures ok <==> Known(songs, library)
      ensures ok ==> rows == old(rows) + Inserted(id, last, songs)
    {
      ghost var saved := rows;
      var maxTrackNr := last;
      var i := 0;
      while i < |songs|
        invariant 0 <= i <= |songs| && maxTrackNr == last + i
        invariant Known(songs[..i], library) && rows == saved + Inserted(id, last, songs[..i])
        decreases |songs| - i
      {
        var end := Min(i + EXEC_BATCH_SIZE, |songs|);
        var batch := songs[i..end];
        NextBatch(saved, id, last, songs, i, end);
        KnownBatch(songs, i, end, library);
        if !Known(batch, library) {
          return false;
        }
        var values;
        values, maxTrackNr := ValueList(id, batch, maxTrackNr);
        rows := rows + values;
        i := end;
      }
      assert songs[..|songs|] == songs;
      ok := true;
    }

    /** Appends after the last track; the result does not depend on the batch size. */
    method AddTracks(id: string, songs: seq<string>) returns (ok: bool)
      modifies `rows
      ensures ok <==> Known(songs, library)
      ensures !ok ==> rows == old(rows)
      ensures ok ==> forall last :: IsMax(old(rows), id, last) ==> rows == old(rows) + Inserted(id, last, songs)
    {
      var saved := rows;
      if songs == [] {
        assert forall last :: saved + Inserted(id, last, songs) == saved;
        return true;
      }
      var maxTrackNr := GetMaxTrackNr(id);
      ok := InsertAll(id, songs, maxTrackNr);
      if !ok {
        rows := saved;
      }
      forall last | IsMax(saved, id, last)
        ensures last == maxTrackNr
      {
      }
    }

    /** Deletes the given tracks and renumbers the rest; sorts the caller's array. */
    method RemoveTracks(id: string, trackNumbers: array<int>) returns (ok: bool)
      modifies `rows, trackNumbers
      ensures ok <==> NoDuplicates(old(trackNumbers[..])) && forall n :: n in old(trackNumbers[..]) ==>
                                                                           Key(id, n) in old(rows)
      ensures !ok ==> rows == old(rows)
      ensures ok && trackNumbers.Length == 0 ==> rows == old(rows)
      ensures ok && trackNumbers.Length > 0 ==>
                && Increasing(trackNumbers[..]) && SetOf(trackNumbers[..]) == SetOf(old(trackNumbers[..]))
                && Renumbered(Deleted(old(rows), id, trackNumbers[..]), id, trackNumbers[..]) == Some(rows)
    {
      ghost var ns := trackNumbers[..];
      if trackNumbers.Length == 0 {
        return true;
      }
      var saved := rows;
      var count := |TracksOf(rows, id) * SetOf(trackNumbers[..])|;
      DeletedAllRequested(rows, id, trackNumbers[..]);
      rows := Deleted(rows, id, trackNumbers[..]);
      if count != trackNumbers.Length {
        rows := saved;
        return false;
      }
      SortInts(trackNumbers);
      SortedPermutation(ns, trackNumbers[..]);
      SameDeletion(saved, id, ns, trackNumbers[..]);
      RenumberingNeverClashes(saved, id, trackNumbers[..]);
      rows := Renumbered(rows, id, trackNumbers[..]).value;
      ok := true;
    }

    /** Afterwards the playlist is empty; the rows of other playlists are left. */
    method ClearTracks(id: string)
      modifies `rows
      ensures Holds(rows, id, []) && SameElsewhere(old(rows), rows, id)
    {
      rows := Cleared(rows, id);
    }

    method SetTracks(id: string, songs: seq<string>) returns (ok: bool)
      modifies `rows
      ensures ok <==> Known(songs, library)
      ensures ok ==> Holds(rows, id, songs) && SameElsewhere(old(rows), rows, id)
      ensures !ok ==> rows == old(rows)
    {
      var saved := rows;
      ClearTracks(id);
      ghost var mid := rows;
      AppendRefines(rows, id, [], songs, -1);
      ok := AddTracks(id, songs);
      if ok {
        assert [] + songs == songs;
        ElsewhereTwice(saved, mid, rows, id);
      } else {
        rows := saved;
      }
    }

    /** RemoveTracks on a held playlist is removal from its sequence. */
    method RemoveSongs(id: string, tracks: array<int>, ghost s: seq<string>) returns (ok: bool)
      requires Holds(rows, id, s)
      modifies `rows, tracks
      ensures ok <==> Valid(Remove(old(tracks[..])), |s|, library)
      ensures Holds(rows, id, Step(s, Remove(old(tracks[..])), library)) && SameElsewhere(old(rows), rows, id)
      ensures !ok ==> rows == old(rows)
    {
      ghost var ns := tracks[..];
      ok := RemoveTracks(id, tracks);
      assert forall n :: n in ns ==> (Key(id, n) in old(rows) <==> 0 <= n < |s|);
      if ok {
        if tracks.Length == 0 {
          assert SetOf(ns) == {};
          WithoutNothing(s);
        } else {
          RemovalRefines(old(rows), id, s, ns, tracks[..], rows);
        }
      }
    }

    method AddSongs(id: string, songs: seq<string>, ghost s: seq<string>) returns (ok: bool)
      requires Holds(rows, id, s)
      modifies `rows
      ensures ok <==> Known(songs, library)
      ensures Holds(rows, id, Step(s, Add(songs), library)) && SameElsewhere(old(rows), rows, id)
      ensures !ok ==> rows == old(rows)
    {
      AppendRefines(rows, id, s, songs, |s| - 1);
      ok := AddTracks(id, songs);
    }

    /** The transaction of the update handler: the indices are checked against the number of
        tracks, then tracks are removed, then songs are added. */
    method UpdatePlaylist(id: string, removeIndices: array<int>, songIds: seq<string>, ghost s: seq<string>)
      returns (ok: bool)
      requires Holds(rows, id, s)
      modifies `rows, removeIndices
      ensures ok <==>
              && (forall i, j :: 0 <= i < j < removeIndices.Length ==> old(removeIndices[i]) != old(removeIndices[j]))
              && (forall i :: 0 <= i < removeIndices.Length ==> 0 <= old(removeIndices[i]) < |s|)
              && forall x :: x in songIds ==> x in library
      ensures ok ==> Holds(rows, id, Without(s, SetOf(old(removeIndices[..]))) + songIds)
                     && SameElsewhere(old(rows), rows, id)
      ensures !ok ==> rows == old(rows)
    {
      var saved := rows;
      ghost var ns := removeIndices[..];
      TrackCount(rows, id, s);
      var trackCount := |TracksOf(rows, id)|;
      for i := 0 to removeIndices.Length
        invariant forall j :: 0 <= j < i ==> 0 <= ns[j] < trackCount
      {
        if removeIndices[i] < 0 || removeIndices[i] >= trackCount {
          assert ns[i] in ns;
          return false;
        }
      }
      ok := RemoveSongs(id, removeIndices, s);
      if !ok {
        return;
      }
      ghost var mid := rows;
      ok := AddSongs(id, songIds, Without(s, SetOf(ns)));
      if !ok {
        rows := saved;
      } else {
        ElsewhereTwice(saved, mid, rows, id);
      }
    }

    method RemoveListed(id: string, tracks: seq<int>, ghost s: seq<string>)
      requires Holds(rows, id, s)
      modifies `rows
      ensures Holds(rows, id, Step(s, Remove(tracks), library)) && SameElsewhere(old(rows), rows, id)
    {
      var a := new int[|tracks|](i requires 0 <= i < |tracks| => tracks[i]);
      assert a[..] == tracks;
      var ok := RemoveSongs(id, a, s);
    }

    /** One operation; an aborted one leaves the table as it is. */
    method Do(id: string, op: Op, ghost s: seq<string>)
      requires Holds(rows, id, s)
      modifies `rows
      ensures Holds(rows, id, Step(s, op, library)) && SameElsewhere(old(rows), rows, id)
    {
      match op {
        case Add(songs) => var ok := AddSongs(id, songs, s);
        case Remove(tracks) => RemoveListed(id, tracks, s);
        case Clear => ClearTracks(id);
        case Set(songs) => var ok := SetTracks(id, songs);
      }
    }

    /** Any sequence of operations does to the table what it does to the plain sequence. */
    method DoAll(id: string, ops: seq<Op>, ghost s: seq<string>)
      requires Holds(rows, id, s)
      modifies `rows
      ensures Holds(rows, id, Steps(s, ops, library)) && SameElsewhere(old(rows), rows, id)
    {
      for i := 0 to |ops|
        invariant Holds(rows, id, Steps(s, ops[..i], library)) && SameElsewhere(old(rows), rows, id)
      {
        assert ops[..i + 1][..i] == ops[..i];
        ghost var before := rows;
        Do(id, ops[i], Steps(s, ops[..i], library));
        ElsewhereTwice(old(rows), before, rows, id);
      }
      assert ops[..|ops|] == ops;
    }
  }

  lemma ElsewhereTwice(a: Rows, b: Rows, c: Rows, id: string)
    requires SameElsewhere(a, b, id) && SameElsewhere(b, c, id)
    ensures SameElsewhere(a, c, id)
  {
  }

  /** A held playlist has as many rows as songs. */
  lemma TrackCount(rows: Rows, id: string, s: seq<string>)
    requires Holds(rows, id, s)
    ensures |TracksOf(rows, id)| == |s|
  {
    UpToFacts(|s|);
    forall t
      ensures t in TracksOf(rows, id) <==> t in UpTo(|s|)
    {
      TrackIn(rows, id, t);
    }
    assert TracksOf(rows, id) == UpTo(|s|);
  }

  /** What RemoveTracks does to a held playlist. */
  lemma RemovalRefines(rows: Rows, id: string, s: seq<string>, tracks: seq<int>, ns: seq<int>, rows': Rows)
    requires Holds(rows, id, s) && (forall n :: n in tracks ==> Key(id, n) in rows)
    requires SetOf(ns) == SetOf(tracks) && Increasing(ns) && ns != []
    requires Renumbered(Deleted(rows, id, ns), id, ns) == Some(rows')
    ensures Holds(rows', id, Without(s, SetOf(tracks))) && SameElsewhere(rows, rows', id)
  {
    forall n | n in ns
      ensures 0 <= n < |s|
    {
      assert n in SetOf(ns);
      assert n in tracks;
    }
    RemovalIsDeletion(rows, id, s, ns);
  }

  lemma AppendRefines(rows: Rows, id: string, s: seq<string>, songs: seq<string>, last: int)
    requires Holds(rows, id, s) && IsMax(rows, id, last)
    ensures Holds(rows + Inserted(id, last, songs), id, s + songs)
            && SameElsewhere(rows, rows + Inserted(id, last, songs), id)
  {
    MaxOfHeld(rows, id, s, last);
    InsertionIsAppend(rows, id, s, songs);
  }

  lemma NextBatch(rows: Rows, id: string, last: int, songs: seq<string>, i: nat, end: nat)
    requires i <= end <= |songs|
    ensures rows + Inserted(id, last, songs[..i]) + Inserted(id, last + i, songs[i..end]) ==
            rows + Inserted(id, last, songs[..end])
  {
    assert songs[..end] == songs[..i] + songs[i..end];
    InsertionInBatches(id, last, songs[..i], songs[i..end]);
    MapsAssociate(rows, Inserted(id, last, songs[..i]), Inserted(id, last + i, songs[i..end]));
  }

  lemma MapsAssociate(a: Rows, b: Rows, c: Rows)
    ensures a + (b + c) == a + b + c
  {
  }

  lemma KnownBatch(songs: seq<string>, i: nat, end: nat, library: set<string>)
    requires i <= end <= |songs|
    ensures Known(songs[..end], library) <==> Known(songs[..i], library) && Known(songs[i..end], library)
    ensures Known(songs, library) ==> Known(songs[..end], library)
  {
    assert songs[..end] == songs[..i] + songs[i..end];
    assert songs == songs[..end] + songs[end..];
  }

  lemma SameDeletion(rows: Rows, id: string, ns: seq<int>, ms: seq<int>)
    requires SetOf(ns) == SetOf(ms)
    ensures Deleted(rows, id, ns) == Deleted(rows, id, ms)
  {
    forall n
      ensures n in ns <==> n in ms
    {
      assert n in ns <==> n in SetOf(ns);
      assert n in ms <==> n in SetOf(ms);
    }
  }
}
