/**
  The tables behind the ListenBrainz favourites sync, for one user, and the statements of
  repos/postgres/song.go on them by their set-level meaning. Every statement names the user,
  so the rows of other users are neither read nor written.
 */
module FeedbackTables {
  import opened Wrappers

  /** Song ids are only compared and ordered, so numbers stand for them. */
  type SongId = nat

  /** `release` is the release MBID of the song's album. */
  datatype Song = Song(mbid: Option<string>, release: Option<string>)

  /** A row of lb_feedback_status; a song without a row has unknown status. */
  datatype Status = Status(remote: Option<string>, uploaded: bool)

  datatype Tables = Tables(songs: map<SongId, Song>, starred: set<SongId>, status: map<SongId, Status>)
  {
    /** Stars and status rows reference songs. */
    ghost predicate Valid() {
      starred <= songs.Keys && status.Keys <= songs.Keys
    }
  }

  /** `x IN (l)` is true; a NULL is in no list. */
  predicate IsIn(x: Option<string>, l: set<string>) {
    x.Some? && x.value in l
  }

  /** `x IS NULL OR x NOT IN (l)` is true. */
  predicate NullOrNotIn(x: Option<string>, l: set<string>) {
    x.None? || x.value !in l
  }

  /** An empty list is padded, because `IN ()` is not valid SQL. */
  function InList(loved: set<string>): set<string> {
    if loved == {} then {"\n"} else loved
  }

  /** A starred song has the same recording MBID; a NULL equals nothing. */
  predicate HasStarredCopy(t: Tables, id: SongId)
    requires id in t.songs
  {
    t.songs[id].mbid.Some? && exists j :: j in t.starred && j in t.songs && t.songs[j].mbid == t.songs[id].mbid
  }

  /** The WHERE clause of FindNotUploadedLBFeedback. */
  predicate NotUploaded(t: Tables, l: set<string>, id: SongId) {
    id in t.songs &&
    var mbid := t.songs[id].mbid;
    if id !in t.status then
      id in t.starred && NullOrNotIn(mbid, l)
    else
      var remote := t.status[id].remote;
      !t.status[id].uploaded &&
      if id !in t.starred then IsIn(mbid, l) || IsIn(remote, l)
      else NullOrNotIn(mbid, l) && NullOrNotIn(remote, l)
  }

  /** The WHERE clause of FindLocalOutdatedFeedbackByLB. */
  predicate LocalOutdated(t: Tables, l: set<string>, id: SongId) {
    id in t.songs &&
    var mbid := t.songs[id].mbid;
    if id !in t.status then
      id !in t.starred && IsIn(mbid, l) && !HasStarredCopy(t, id)
    else
      var remote := t.status[id].remote;
      t.status[id].uploaded &&
      if id !in t.starred then (IsIn(mbid, l) || IsIn(remote, l)) && !HasStarredCopy(t, id)
      else NullOrNotIn(mbid, l) && NullOrNotIn(remote, l)
  }

  /** SetLBFeedbackUploadedForAllMatchingStarredSongs. */
  function MarkMatching(t: Tables, loved: set<string>): (r: Tables)
    requires t.Valid()
    ensures r.Valid()
  {
    if loved == {} then t
    else
      t.(status := map id | id in t.songs && (id in t.status || (id in t.starred && IsIn(t.songs[id].mbid, loved))) ::
        if id in t.starred && IsIn(t.songs[id].mbid, loved) then
          if id in t.status then t.status[id].(uploaded := true) else Status(t.songs[id].mbid, true)
        else t.status[id])
  }

  /** SetLBFeedbackUploaded(…, true) for the songs in `done`, with their recording MBIDs. */
  function RecordUploads(t: Tables, done: map<SongId, string>): (r: Tables)
    requires t.Valid() && done.Keys <= t.songs.Keys
    ensures r.Valid()
  {
    t.(status := map id | id in t.songs && (id in t.status || id in done) ::
      if id in done then Status(Some(done[id]), true) else t.status[id])
  }

  /** SetLBFeedbackUploaded(…, false): existing rows keep their remote MBID. */
  function RecordPulled(t: Tables, ids: set<SongId>): (r: Tables)
    requires t.Valid() && ids <= t.songs.Keys
    ensures r.Valid()
  {
    t.(status := map id | id in t.songs && (id in t.status || id in ids) ::
      if id !in ids then t.status[id]
      else if id in t.status then t.status[id].(uploaded := true)
      else Status(None, true))
  }

  /** UnStarMultiple followed by StarMultiple. */
  function UpdateStars(t: Tables, unstar: set<SongId>, star: set<SongId>): (r: Tables)
    requires t.Valid() && star <= t.songs.Keys
    ensures r.Valid()
  {
    t.(starred := t.starred - unstar + star)
  }

  function NotUploadedSet(t: Tables, l: set<string>): set<SongId> {
    set id | id in t.songs && NotUploaded(t, l, id)
  }

  function OutdatedSet(t: Tables, l: set<string>): set<SongId> {
    set id | id in t.songs && LocalOutdated(t, l, id)
  }
}
