/**
  The album map of a scan (scanner/album_map.go): albums are objects shared by every caller
  that was handed one, so `FindOrCreate` changes them in place.
 */
module AlbumMap {
  import opened Wrappers
  import opened AlbumIdentity

  datatype UpdateOutcome = Updated | NotFound | Failed

  /** What the two statements would answer; a created row's id, or None on an error. */
  datatype Database = Database(onUpdate: UpdateOutcome, onCreate: Option<string>)

  /** The new list, whether a statement is made, and whether the call succeeds. */
  datatype Answer = Answer(list: seq<Record>, wrote: bool, ok: bool)

  function IdOf(id: Option<string>): string {
    if id.Some? then id.value else ""
  }

  /** The one album after it was found. */
  function Reused(a: Record, p: Params, fullScan: bool, db: Database): (r: Answer)
    ensures |r.list| == 1
  {
    var a' := Refreshed(a, p);
    if a.updated || !(Differs(a, p) || fullScan) then Answer([a'], false, true)
    else
      var recreated := db.onUpdate == NotFound && db.onCreate.Some?;
      Answer([if recreated then a'.(id := db.onCreate.value) else a'], true, db.onUpdate == Updated)
  }

  function Answered(list: seq<Record>, p: Params, fullScan: bool, db: Database): Answer {
    var i := FirstMatch(list, p);
    if i == |list| then Answer(list + [NewAlbum(IdOf(db.onCreate), p)], true, db.onCreate.Some?)
    else
      var r := Reused(list[i], p, fullScan, db);
      r.(list := list[i := r.list[0]])
  }

  /** A call that succeeds is a call of the plain search, and any call keeps the places. */
  lemma SuccessIsFindOrCreate(list: seq<Record>, p: Params, fullScan: bool, db: Database)
    ensures var r := Answered(list, p, fullScan, db);
            && (r.ok ==> r.list == AlbumIdentity.FindOrCreate(list, p, IdOf(db.onCreate)))
            && |list| <= |r.list| <= |list| + 1
            && forall j :: 0 <= j < |list| && j != FirstMatch(list, p) ==> r.list[j] == list[j]
  {
  }

  // ------------------------------------------------------------------ a whole scan

  datatype Call = Call(p: Params, fullScan: bool, db: Database)

  function AfterCalls(list: seq<Record>, calls: seq<Call>): seq<Record>
    decreases |calls|
  {
    if calls == [] then list else AfterCalls(Answered(list, calls[0].p, calls[0].fullScan, calls[0].db).list,
                                             calls[1..])
  }

  /** Once updated, an album never changes again in the scan, whichever calls fail. */
  lemma {:induction false} FrozenForTheScan(list: seq<Record>, calls: seq<Call>, j: nat)
    requires j < |list| && list[j].updated
    ensures j < |AfterCalls(list, calls)| && AfterCalls(list, calls)[j] == list[j]
    decreases |calls|
  {
    if calls != [] {
      FrozenForTheScan(Answered(list, calls[0].p, calls[0].fullScan, calls[0].db).list, calls[1..], j);
    }
  }

  /** An album returned by a call carries the caller's music folder, and keeps its data to the
      end of the scan. */
  lemma ReturnedAlbumStays(list: seq<Record>, c: Call, calls: seq<Call>)
    requires Answered(list, c.p, c.fullScan, c.db).ok
    ensures var i, list' := FirstMatch(list, c.p), Answered(list, c.p, c.fullScan, c.db).list;
            && i < |list'| && list'[i].updated && list'[i].folder == c.p.folder
            && i < |AfterCalls(list', calls)| && AfterCalls(list', calls)[i] == list'[i]
  {
    var i, list' := FirstMatch(list, c.p), Answered(list, c.p, c.fullScan, c.db).list;
    SuccessIsFindOrCreate(list, c.p, c.fullScan, c.db);
    FrozenForTheScan(list', calls, i);
  }

  /** Immediately repeating a call returns the same album and makes no statement, when the
      artist ids are distinct; even where the first call failed to update the album, so
      that failure is not made good. */
  lemma RepeatWritesNothing(list: seq<Record>, p: Params, fullScan: bool, db: Database, db': Database)
    requires DistinctArtists(p.artists)
    ensures var first := Answered(list, p, fullScan, db);
            var again := Answered(first.list, p, fullScan, db');
            && FirstMatch(first.list, p) == FirstMatch(list, p)
            && again == Answer(first.list, false, true)
  {
    var i, list' := FirstMatch(list, p), Answered(list, p, fullScan, db).list;
    if !(i < |list| && list[i].updated) {
      RecognisedAgain(list'[i], p);
    }
    FirstMatchIs(list', p, i);
  }

  /** Whether the call has to write the album. */
  predicate MustWrite(list: seq<Record>, p: Params, fullScan: bool) {
    var i := FirstMatch(list, p);
    i == |list| || (!list[i].updated && (Differs(list[i], p) || fullScan))
  }

  /** The id of the row that the statements of the call have stored the album in. */
  function StoredRow(list: seq<Record>, p: Params, fullScan: bool, db: Database): Option<string> {
    var i := FirstMatch(list, p);
    if !MustWrite(list, p, fullScan) then None
    else if i == |list| then db.onCreate
    else match db.onUpdate
         case Updated => Some(list[i].id)
         case NotFound => db.onCreate
         case Failed => None
  }

  /** Exactly when a call succeeds, for every answer of the database and in both scan modes:
      it has nothing to write, or the album's row is stored without having been created
      again. Stored or not, the album in memory has taken over the tags, and its id is that
      of its row if there is one. */
  lemma CallSucceedsIff(list: seq<Record>, p: Params, fullScan: bool, db: Database)
    ensures var i, r, row := FirstMatch(list, p), Answered(list, p, fullScan, db), StoredRow(list, p, fullScan, db);
            && (r.wrote <==> MustWrite(list, p, fullScan))
            && (r.ok <==> !r.wrote || (row.Some? && (i == |list| || db.onUpdate == Updated)))
            && i < |r.list| && r.list[i].updated
            && (r.wrote ==> r.list[i].tags == p.tags && r.list[i].folder == p.folder)
            && (row.Some? ==> r.list[i].id == row.value)
  {
  }

  /** A call fails although the album's row is stored exactly when the row had vanished and
      was created again: the success of the second statement is reported as an error of the
      first. */
  lemma RecreationIsReportedAsFailure(list: seq<Record>, p: Params, fullScan: bool, db: Database)
    ensures !Answered(list, p, fullScan, db).ok && StoredRow(list, p, fullScan, db).Some? <==>
            FirstMatch(list, p) < |list| && MustWrite(list, p, fullScan) && db.onUpdate == NotFound && db.onCreate.Some?
  {
    CallSucceedsIff(list, p, fullScan, db);
  }

  // ------------------------------------------------------------------ the stored rows

  /** A row of the albums table, as a scan writes it; the names go into the search text. The
      artists' ids and places are in the album_artist table, see `UpdateArtists`. */
  datatype Row = Row(name: string, tags: Tags, artistNames: seq<string>, folder: int)

  function RowOf(name: string, a: Record): Row {
    Row(name, a.tags, a.artistNames, a.folder)
  }

  /** The table after the call. */
  function RowsAfter(name: string, rows: map<string, Row>, list: seq<Record>, p: Params, fullScan: bool, db: Database)
    : map<string, Row>
  {
    var row := StoredRow(list, p, fullScan, db);
    if row.None? then rows else rows[row.value := Row(name, p.tags, NamesAfter(list, p), p.folder)]
  }

  /** The artist names of the returned album. */
  function NamesAfter(list: seq<Record>, p: Params): seq<string> {
    var i := FirstMatch(list, p);
    if i < |list| then Refreshed(list[i], p).artistNames else NamesOf(p.artists)
  }

  /** The album's row says what the album in memory says. */
  predicate Current(name: string, rows: map<string, Row>, a: Record) {
    a.id in rows && rows[a.id] == Row(name, a.tags, a.artistNames, a.folder)
  }

  /** After a call that succeeds the row of the returned album is current, if it was before or
      the album is new. No other row changes. */
  lemma RowStaysCurrent(name: string, rows: map<string, Row>, list: seq<Record>, p: Params, fullScan: bool,
                        db: Database)
    requires Answered(list, p, fullScan, db).ok
    requires FirstMatch(list, p) < |list| ==> Current(name, rows, list[FirstMatch(list, p)])
    ensures var i, list', rows' := FirstMatch(list, p), Answered(list, p, fullScan, db).list,
                                   RowsAfter(name, rows, list, p, fullScan, db);
            && i < |list'| && Current(name, rows', list'[i])
            && forall id :: id in rows && id != list'[i].id ==> id in rows' && rows'[id] == rows[id]
  {
  }

  /** The first call of a normal scan for a known album makes no statement exactly when the
      music folder, every tag and the artists with their places are already those of the call.
      A full scan always makes one; later calls never do. */
  lemma NoStatementIff(list: seq<Record>, p: Params, db: Database)
    requires FirstMatch(list, p) < |list|
    ensures var a := list[FirstMatch(list, p)];
            && (Answered(list, p, true, db).wrote <==> !a.updated)
            && (!Answered(list, p, false, db).wrote <==>
                a.updated
                || (a.folder == p.folder && a.tags.mbid == p.tags.mbid && a.tags.releaseMBID == p.tags.releaseMBID
                    && a.tags.originalDate == p.tags.originalDate && a.tags.releaseDate == p.tags.releaseDate
                    && a.tags.version == p.tags.version && a.tags.recordLabels == p.tags.recordLabels
                    && a.tags.releaseTypes == p.tags.releaseTypes && a.tags.isCompilation == p.tags.isCompilation
                    && a.tags.replayGain == p.tags.replayGain && a.tags.replayGainPeak == p.tags.replayGainPeak
                    && |a.artistIDs| == |p.artists|
                    && forall k :: 0 <= k < |p.artists| ==>
                                     p.artists[k].id in a.artistIDs && a.artistIDs[p.artists[k].id] == k))
  {
  }

  /** The artists of an album are those of the song, under their last places. */
  ghost predicate HasArtists(a: Record, artists: seq<Artist>) {
    && (forall k :: 0 <= k < |artists| ==> artists[k].id in a.artistIDs)
    && (forall id :: id in a.artistIDs ==> IsLastPlace(artists, id, a.artistIDs[id]))
  }

  ghost predicate HasNames(a: Record, artists: seq<Artist>) {
    |a.artistNames| == |artists| && forall k :: 0 <= k < |artists| ==> a.artistNames[k] == artists[k].name
  }

  lemma NewHasArtists(id: string, p: Params)
    ensures HasArtists(NewAlbum(id, p), p.artists) && HasNames(NewAlbum(id, p), p.artists)
  {
    IndexIsLast(p.artists);
    NamesAre(p.artists);
  }

  lemma RefreshedHasArtists(a: Record, p: Params)
    requires !a.updated
    ensures var r := Refreshed(a, p);
            && HasArtists(r, p.artists)
            && (HasNames(r, p.artists) || (r.artistIDs == a.artistIDs && r.artistNames == a.artistNames))
  {
    if SamePlaces(a.artistIDs, p.artists) {
      SamePlacesAreLast(a.artistIDs, p.artists);
    } else {
      NewHasArtists(a.id, p);
    }
  }

  lemma OnlyIdDiffers(a: Record, p: Params, fullScan: bool, db: Database)
    ensures var r := Reused(a, p, fullScan, db).list[0]; r == Refreshed(a, p).(id := r.id)
  {
  }

  /** What the returned album has taken over, unless it was updated before: folder, tags, and
      the artists under their last places. Its names are those of the song's artists, except
      that they stay as they are when the ids and places do. */
  lemma TakenOver(list: seq<Record>, p: Params, fullScan: bool, db: Database)
    requires FirstMatch(list, p) < |list| ==> !list[FirstMatch(list, p)].updated
    ensures var i, r := FirstMatch(list, p), Answered(list, p, fullScan, db).list;
            && i < |r| && r[i].updated && r[i].folder == p.folder && r[i].tags == p.tags && HasArtists(r[i], p.artists)
            && (HasNames(r[i], p.artists)
                || (i < |list| && r[i].artistIDs == list[i].artistIDs && r[i].artistNames == list[i].artistNames))
  {
    var i := FirstMatch(list, p);
    if i < |list| {
      RefreshedHasArtists(list[i], p);
      OnlyIdDiffers(list[i], p, fullScan, db);
    } else {
      NewHasArtists(IdOf(db.onCreate), p);
    }
  }

  // ------------------------------------------------------------------ the objects

  class Album {
    var id: string
    var tags: Tags
    var artistIDs: map<string, int>
    var artistNames: seq<string>
    var updated: bool
    var folder: int

    function Value(): Record
      reads this
    {
      Record(id, tags, artistIDs, artistNames, updated, folder)
    }

    constructor (p: Params)
      ensures Value() == NewAlbum("", p)
    {
      id, tags, updated, folder := "", p.tags, true, p.folder;
      new;
      SetArtists(p.artists);
    }

    method SetArtists(artists: seq<Artist>)
      modifies this`artistIDs, this`artistNames
      ensures artistIDs == ArtistIndex(artists) && artistNames == NamesOf(artists)
    {
      artistIDs, artistNames := map[], [];
      for i := 0 to |artists|
        invariant artistIDs == ArtistIndex(artists[..i]) && artistNames == NamesOf(artists[..i])
      {
        assert artists[..i + 1][..i] == artists[..i];
        artistIDs := artistIDs[artists[i].id := i];
        artistNames := artistNames + [artists[i].name];
      }
      assert artists[..|artists|] == artists;
    }

    method HasAll(artists: seq<Artist>) returns (all: bool)
      ensures all <==> AllListed(artistIDs, artists)
    {
      for i := 0 to |artists|
        invariant forall j :: 0 <= j < i ==> artists[j].id in artistIDs
      {
        if artists[i].id !in artistIDs {
          return false;
        }
      }
      all := true;
    }

    method HasPlaces(artists: seq<Artist>) returns (equal: bool)
      ensures equal <==> SamePlaces(artistIDs, artists)
    {
      if |artistIDs| != |artists| {
        return false;
      }
      for i := 0 to |artists|
        invariant forall j :: 0 <= j < i ==> artists[j].id in artistIDs && artistIDs[artists[j].id] == j
      {
        if artists[i].id !in artistIDs || artistIDs[artists[i].id] != i {
          return false;
        }
      }
      equal := true;
    }

    /** Compares with the first criterion that both sides know. */
    method Matches(p: Params) returns (same: bool)
      ensures same <==> SameAlbum(Value(), p)
    {
      if updated && folder != p.folder {
        return false;
      }
      if tags.releaseMBID.Some? && p.tags.releaseMBID.Some? {
        return tags.releaseMBID.value == p.tags.releaseMBID.value;
      }
      if tags.mbid.Some? && p.tags.mbid.Some? {
        return tags.mbid.value == p.tags.mbid.value;
      }
      if |artistIDs| > 0 && |p.artists| > 0 {
        if |artistIDs| == |p.artists| {
          same := HasAll(p.artists);
          return same;
        }
        return false;
      }
      if tags.version.Some? && p.tags.version.Some? {
        return tags.version.value == p.tags.version.value;
      }
      if tags.releaseDate.Some? && p.tags.releaseDate.Some? {
        return tags.releaseDate.value == p.tags.releaseDate.value;
      }
      if tags.originalDate.Some? && p.tags.originalDate.Some? {
        return tags.originalDate.value == p.tags.originalDate.value;
      }
      same := true;
    }

    /** The tags an album is recognised by. */
    method TakeIdentity(t: Tags) returns (changed: bool)
      modifies this`tags
      ensures tags == old(tags).(mbid := t.mbid, releaseMBID := t.releaseMBID, originalDate := t.originalDate,
                      releaseDate := t.releaseDate, version := t.version)
      ensures changed <==> tags != old(tags)
    {
      changed := false;
      if tags.mbid != t.mbid {
        tags, changed := tags.(mbid := t.mbid), true;
      }
      if tags.releaseMBID != t.releaseMBID {
        tags, changed := tags.(releaseMBID := t.releaseMBID), true;
      }
      if tags.originalDate != t.originalDate {
        tags, changed := tags.(originalDate := t.originalDate), true;
      }
      if tags.releaseDate != t.releaseDate {
        tags, changed := tags.(releaseDate := t.releaseDate), true;
      }
      if tags.version != t.version {
        tags, changed := tags.(version := t.version), true;
      }
    }

    method TakeDetails(t: Tags) returns (changed: bool)
      modifies this`tags
      ensures tags == old(tags).(recordLabels := t.recordLabels, releaseTypes := t.releaseTypes,
                      isCompilation := t.isCompilation,
                      replayGain := t.replayGain, replayGainPeak := t.replayGainPeak)
      ensures changed <==> tags != old(tags)
    {
      changed := false;
      if tags.recordLabels != t.recordLabels {
        tags, changed := tags.(recordLabels := t.recordLabels), true;
      }
      if tags.releaseTypes != t.releaseTypes {
        tags, changed := tags.(releaseTypes := t.releaseTypes), true;
      }
      if tags.isCompilation != t.isCompilation {
        tags, changed := tags.(isCompilation := t.isCompilation), true;
      }
      if tags.replayGain != t.replayGain {
        tags, changed := tags.(replayGain := t.replayGain), true;
      }
      if tags.replayGainPeak != t.replayGainPeak {
        tags, changed := tags.(replayGainPeak := t.replayGainPeak), true;
      }
    }

    method TakeTags(t: Tags) returns (changed: bool)
      modifies this`tags
      ensures tags == t && (changed <==> old(tags) != t)
    {
      var identity := TakeIdentity(t);
      var details := TakeDetails(t);
      changed := identity || details;
    }

    /** The album's rows of the album_artist table. */
    method Connections() returns (l: seq<(Connection, int)>)
      ensures forall e :: e in l <==> ConnectsOn(Value(), e.0, e.1)
    {
      l := [];
      var todo := artistIDs.Keys;
      while todo != {}
        invariant todo <= artistIDs.Keys
        invariant forall e :: e in l <==> ConnectsOn(Value(), e.0, e.1) && e.0.artist !in todo
        decreases todo
      {
        var artist :| artist in todo;
        todo := todo - {artist};
        l := l + [(Connection(id, artist), artistIDs[artist])];
      }
    }

    /** The update of an album that is found for the first time in the scan. */
    method Refresh(p: Params) returns (changed: bool)
      requires !updated
      modifies this
      ensures Value() == Refreshed(old(Value()), p)
      ensures changed <==> Differs(old(Value()), p)
    {
      var moved := folder != p.folder;
      folder := p.folder;
      var retagged := TakeTags(p.tags);
      var equal := HasPlaces(p.artists);
      if !equal {
        SetArtists(p.artists);
      }
      updated := true;
      changed := moved || retagged || !equal;
    }
  }

  function Listed(albums: map<string, seq<Album>>, name: string): seq<Album> {
    if name in albums then albums[name] else []
  }

  /** No album is in the map twice. */
  ghost predicate NoneTwice(albums: map<string, seq<Album>>) {
    forall m, i, n, j :: 0 <= i < |Listed(albums, m)| && 0 <= j < |Listed(albums, n)|
                         && Listed(albums, m)[i] == Listed(albums, n)[j] ==>
                           m == n && i == j
  }

  lemma NotElsewhere(albums: map<string, seq<Album>>, name: string, i: nat)
    requires NoneTwice(albums) && i < |Listed(albums, name)|
    ensures forall n, j :: 0 <= j < |Listed(albums, n)| && (n != name || j != i) ==>
                             Listed(albums, n)[j] != Listed(albums, name)[i]
  {
  }

  lemma OneMoreAlbum(albums: map<string, seq<Album>>, name: string, alb: Album)
    requires NoneTwice(albums) && forall n :: alb !in Listed(albums, n)
    ensures NoneTwice(albums[name := Listed(albums, name) + [alb]])
  {
    var more := albums[name := Listed(albums, name) + [alb]];
    forall m, i, n, j | 0 <= i < |Listed(more, m)| && 0 <= j < |Listed(more, n)|
                        && Listed(more, m)[i] == Listed(more, n)[j]
      ensures m == n && i == j
    {
      assert Listed(more, m)[i] == if m == name && i == |Listed(albums, name)| then alb else Listed(albums, m)[i];
      assert Listed(more, n)[j] == if n == name && j == |Listed(albums, name)| then alb else Listed(albums, n)[j];
    }
  }

  class AlbumMap {
    var albums: map<string, seq<Album>>
    /** The albums table. */
    var rows: map<string, Row>
    /** The album_artist table: the place of an artist on an album. */
    var connections: map<Connection, int>

    /** The albums of a name. */
    function At(name: string): seq<Album>
      reads `albums
    {
      Listed(albums, name)
    }

    function Records(name: string): (r: seq<Record>)
      reads `albums, At(name)
      ensures |r| == |At(name)| && forall i :: 0 <= i < |r| ==> r[i] == At(name)[i].Value()
    {
      var list := At(name);
      seq(|list|, i requires 0 <= i < |list| reads list => list[i].Value())
    }

    ghost predicate Valid()
      reads `albums
    {
      NoneTwice(albums)
    }

    method Find(name: string, p: Params) returns (i: nat)
      ensures i == FirstMatch(Records(name), p)
    {
      var list := At(name);
      i := 0;
      while i < |list|
        invariant i <= |list|
        invariant forall j :: 0 <= j < i ==> !SameAlbum(Records(name)[j], p)
      {
        var same := list[i].Matches(p);
        if same {
          break;
        }
        i := i + 1;
      }
      FirstMatchIs(Records(name), p, i);
    }

    /** What a call does with the album it found. */
    method Reuse(name: string, i: nat, p: Params, fullScan: bool, db: Database) returns (ok: bool, wrote: bool)
      requires Valid() && i < |At(name)|
      modifies `rows, At(name)[i]
      ensures var a := old(Records(name)[i]);
              var answer := Reused(a, p, fullScan, db);
              && Records(name) == old(Records(name))[i := answer.list[0]]
              && wrote == answer.wrote && ok == answer.ok
              && rows == if !wrote then old(rows) else Stored(name, old(rows), Refreshed(a, p), db)
      ensures forall n :: n != name ==> Records(n) == old(Records(n))
    {
      var found := At(name)[i];
      ok, wrote := true, false;
      if !found.updated {
        var changed := found.Refresh(p);
        if changed || fullScan {
          ok := UpdateAlbum(name, found, db);
          wrote := true;
        }
      }
      NotElsewhere(albums, name, i);
    }

    method Append(name: string, p: Params, db: Database) returns (alb: Album, ok: bool)
      requires Valid()
      modifies `albums, `rows
      ensures Valid() && fresh(alb) && ok == db.onCreate.Some?
      ensures At(name) == old(At(name)) + [alb]
      ensures Records(name) == old(Records(name)) + [NewAlbum(IdOf(db.onCreate), p)]
      ensures rows == if ok then old(rows)[db.onCreate.value := RowOf(name, NewAlbum("", p))] else old(rows)
      ensures forall n :: n != name ==> At(n) == old(At(n)) && Records(n) == old(Records(n))
    {
      alb := new Album(p);
      OneMoreAlbum(albums, name, alb);
      albums := albums[name := At(name) + [alb]];
      ok := CreateAlbum(name, alb, db);
    }

    /** The album for a song. A failure leaves the album in the map as it then is. */
    method FindOrCreate(name: string, p: Params, fullScan: bool, db: Database) returns (r: Option<Album>, wrote: bool)
      requires Valid()
      modifies `albums, `rows, At(name)
      ensures Valid()
      ensures var answer := Answered(old(Records(name)), p, fullScan, db);
              && Records(name) == answer.list && wrote == answer.wrote && r.Some? == answer.ok
      ensures rows == RowsAfter(name, old(rows), old(Records(name)), p, fullScan, db)
      ensures var i := FirstMatch(old(Records(name)), p);
              && i < |At(name)| && (r.Some? ==> r.value == At(name)[i])
              && (i < |old(At(name))| ==> At(name) == old(At(name)))
              && (i == |old(At(name))| ==> At(name) == old(At(name)) + [At(name)[i]] && fresh(At(name)[i]))
      ensures forall n :: n != name ==> At(n) == old(At(n)) && Records(n) == old(Records(n))
    {
      var i := Find(name, p);
      if i < |At(name)| {
        r, wrote := ReuseFound(name, i, p, fullScan, db);
      } else {
        r, wrote := AppendNew(name, p, fullScan, db);
      }
    }

    method ReuseFound(name: string, i: nat, p: Params, fullScan: bool, db: Database)
      returns (r: Option<Album>, wrote: bool)
      requires Valid() && i < |At(name)| && i == FirstMatch(Records(name), p)
      modifies `rows, At(name)[i]
      ensures var answer := Answered(old(Records(name)), p, fullScan, db);
              && Records(name) == answer.list && wrote == answer.wrote && r.Some? == answer.ok
              && (r.Some? ==> r.value == At(name)[i])
      ensures rows == RowsAfter(name, old(rows), old(Records(name)), p, fullScan, db)
      ensures forall n :: n != name ==> Records(n) == old(Records(n))
    {
      ReusedRows(name, rows, Records(name), p, fullScan, db);
      var ok;
      ok, wrote := Reuse(name, i, p, fullScan, db);
      r := if ok then Some(At(name)[i]) else None;
    }

    method AppendNew(name: string, p: Params, fullScan: bool, db: Database) returns (r: Option<Album>, wrote: bool)
      requires Valid() && FirstMatch(Records(name), p) == |At(name)|
      modifies `albums, `rows
      ensures Valid()
      ensures var answer := Answered(old(Records(name)), p, fullScan, db);
              && Records(name) == answer.list && wrote == answer.wrote && r.Some? == answer.ok
      ensures rows == RowsAfter(name, old(rows), old(Records(name)), p, fullScan, db)
      ensures var i := |old(At(name))|;
              && |At(name)| == i + 1 && At(name) == old(At(name)) + [At(name)[i]] && fresh(At(name)[i])
              && (r.Some? ==> r.value == At(name)[i])
      ensures forall n :: n != name ==> At(n) == old(At(n)) && Records(n) == old(Records(n))
    {
      var alb, ok := Append(name, p, db);
      wrote := true;
      r := if ok then Some(alb) else None;
    }

    /** Updates the album's row; when there is none, creates one, and fails even so. */
    method UpdateAlbum(name: string, a: Album, db: Database) returns (ok: bool)
      modifies `rows, a`id
      ensures ok <==> db.onUpdate == Updated
      ensures a.id == if db.onUpdate == NotFound && db.onCreate.Some? then db.onCreate.value else old(a.id)
      ensures rows == Stored(name, old(rows), old(a.Value()), db)
    {
      if db.onUpdate != Updated {
        if db.onUpdate == NotFound {
          var created := CreateAlbum(name, a, db);
        }
        return false;
      }
      rows := rows[a.id := Row(name, a.tags, a.artistNames, a.folder)];
      ok := true;
    }

    method CreateAlbum(name: string, a: Album, db: Database) returns (ok: bool)
      modifies `rows, a`id
      ensures ok <==> db.onCreate.Some?
      ensures a.id == if db.onCreate.Some? then db.onCreate.value else old(a.id)
      ensures rows == if ok then old(rows)[db.onCreate.value := RowOf(name, old(a.Value()))] else old(rows)
    {
      if db.onCreate.Some? {
        rows := rows[db.onCreate.value := Row(name, a.tags, a.artistNames, a.folder)];
        a.id := db.onCreate.value;
      }
      ok := db.onCreate.Some?;
    }

    /** Some album has this artist at this place. */
    ghost predicate Connects(c: Connection, place: int)
      reads `albums, set n, i | n in albums && 0 <= i < |albums[n]| :: albums[n][i]
    {
      exists n, i :: 0 <= i < |At(n)| && ConnectsOn(At(n)[i].Value(), c, place)
    }

    /** Writes the artists of all albums at the end of a scan: every artist of every album is
        in the table, and what is there is some album's artist with its place. */
    method UpdateArtists()
      modifies `connections
      ensures forall n, i, c, place :: 0 <= i < |At(n)| && ConnectsOn(At(n)[i].Value(), c, place) ==> c in connections
      ensures forall c :: c in connections ==> Connects(c, connections[c])
    {
      var all := CollectConnections();
      FirstWinsFacts(all);
      forall n, i, c, place | 0 <= i < |At(n)| && ConnectsOn(At(n)[i].Value(), c, place)
        ensures c in FirstWins(all)
      {
        assert (c, place) in all;
      }
      connections := FirstWins(all);
    }

    /** The connections of all albums, in the arbitrary order of map iterations. */
    method CollectConnections() returns (all: seq<(Connection, int)>)
      ensures forall n, i, c, place :: 0 <= i < |At(n)| && ConnectsOn(At(n)[i].Value(), c, place) ==> (c, place) in all
      ensures forall e :: e in all ==> Connects(e.0, e.1)
    {
      all := [];
      var todo := albums.Keys;
      while todo != {}
        invariant todo <= albums.Keys
        invariant forall n, i, c, place ::
                    n !in todo && 0 <= i < |At(n)| && ConnectsOn(At(n)[i].Value(), c, place) ==> (c, place) in all
        invariant forall e :: e in all ==> Connects(e.0, e.1)
        decreases todo
      {
        var n :| n in todo;
        todo := todo - {n};
        var more := ConnectionsOf(albums[n]);
        assert At(n) == albums[n];
        all := all + more;
      }
    }

    method ConnectionsOf(list: seq<Album>) returns (l: seq<(Connection, int)>)
      ensures forall e :: e in l <==> exists i :: 0 <= i < |list| && ConnectsOn(list[i].Value(), e.0, e.1)
    {
      l := [];
      for i := 0 to |list|
        invariant forall e :: e in l <==> exists k :: 0 <= k < i && ConnectsOn(list[k].Value(), e.0, e.1)
      {
        var more := list[i].Connections();
        l := l + more;
      }
    }
  }

  /** The album has the artist at this place. */
  predicate ConnectsOn(a: Record, c: Connection, place: int) {
    c.album == a.id && c.artist in a.artistIDs && a.artistIDs[c.artist] == place
  }

  /** Insertion where existing rows stay. */
  function FirstWins(all: seq<(Connection, int)>): map<Connection, int> {
    if all == [] then map[]
    else
      var n := |all| - 1;
      var before := FirstWins(all[..n]);
      if all[n].0 in before then before else before[all[n].0 := all[n].1]
  }

  lemma {:induction false} FirstWinsFacts(all: seq<(Connection, int)>)
    ensures forall c, place :: (c, place) in all ==> c in FirstWins(all)
    ensures forall c :: c in FirstWins(all) ==> (c, FirstWins(all)[c]) in all
  {
    if all != [] {
      var n := |all| - 1;
      assert all == all[..n] + [all[n]];
      FirstWinsFacts(all[..n]);
    }
  }

  datatype Connection = Connection(album: string, artist: string)

  /** The table after an update of the row of `a`, which is created when it has vanished. */
  function Stored(name: string, rows: map<string, Row>, a: Record, db: Database): map<string, Row> {
    match db.onUpdate
    case Updated => rows[a.id := RowOf(name, a)]
    case NotFound => if db.onCreate.Some? then rows[db.onCreate.value := RowOf(name, a)] else rows
    case Failed => rows
  }

  lemma ReusedRows(name: string, rows: map<string, Row>, list: seq<Record>, p: Params, fullScan: bool, db: Database)
    requires FirstMatch(list, p) < |list|
    ensures var a := list[FirstMatch(list, p)];
            RowsAfter(name, rows, list, p, fullScan, db) ==
            if Reused(a, p, fullScan, db).wrote then Stored(name, rows, Refreshed(a, p), db) else rows
  {
  }

  lemma FirstMatchIs(list: seq<Record>, p: Params, i: nat)
    requires i <= |list| && (i < |list| ==> SameAlbum(list[i], p))
    requires forall j :: 0 <= j < i ==> !SameAlbum(list[j], p)
    ensures FirstMatch(list, p) == i
  {
  }
}
