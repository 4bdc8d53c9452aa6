/**
  Rounds of SyncSongFeedback (listenbrainz/listenbrainz.go): what one round does to the
  tables and the remote loves when its requests succeed, and where repeated rounds end.
 */
module FeedbackSync {
  import opened Wrappers
  import opened FeedbackTables

  /** The tables and the MBIDs loved remotely. */
  datatype World = World(t: Tables, loved: set<string>)

  datatype Score = Love | NoScore

  /** A posted score of 1 adds the MBID to the remote loves, a score of 0 removes it. */
  function PostOne(loved: set<string>, mbid: string, score: Score): set<string> {
    if score.Love? then loved + {mbid} else loved - {mbid}
  }

  function ScoreOf(starred: set<SongId>, id: SongId): Score {
    if id in starred then Love else NoScore
  }

  /** The remote loves after the posts, in that order. */
  function PostAll(loved: set<string>, posts: seq<(string, Score)>): set<string> {
    if posts == [] then loved
    else
      var p := posts[|posts| - 1];
      PostOne(PostAll(loved, posts[..|posts| - 1]), p.0, p.1)
  }

  ghost predicate Represented(songs: map<SongId, Song>, chosen: set<SongId>, id: SongId) {
    id in songs && exists j :: j in chosen && j in songs && songs[j].mbid == songs[id].mbid
  }

  /** One song is starred for each recording MBID among the unstarred candidates; candidates
      without an MBID are all starred. */
  ghost predicate OnePerMbid(songs: map<SongId, Song>, candidates: set<SongId>, chosen: set<SongId>)
    requires candidates <= songs.Keys
  {
    && chosen <= candidates
    && (forall id :: id in candidates && songs[id].mbid.None? ==> id in chosen)
    && (forall id {:trigger Represented(songs, chosen, id)} :: id in candidates ==> Represented(songs, chosen, id))
    && (forall i, j :: i in chosen && j in chosen && songs[i].mbid.Some? && songs[i].mbid == songs[j].mbid ==> i == j)
  }

  /** The chosen song of a recording is a candidate on a loved release if there is one, and
      otherwise the candidate with the smallest id. */
  ghost predicate Preferred(songs: map<SongId, Song>, candidates: set<SongId>, lovedReleases: set<string>,
                            chosen: set<SongId>)
    requires candidates <= songs.Keys && chosen <= songs.Keys
  {
    forall id, j :: id in chosen && j in candidates && songs[j].mbid.Some? && songs[j].mbid == songs[id].mbid ==>
                      && (IsIn(songs[j].release, lovedReleases) ==> IsIn(songs[id].release, lovedReleases))
                      && (!IsIn(songs[id].release, lovedReleases) ==> id <= j)
  }

  /** `mbids` are the recording MBIDs of the songs to upload, their own or looked up. */
  ghost predicate Resolves(songs: map<SongId, Song>, up: set<SongId>, mbids: map<SongId, string>) {
    && mbids.Keys <= up
    && forall id :: id in up && id in songs && songs[id].mbid.Some? ==> id in mbids && mbids[id] == songs[id].mbid.value
  }

  /** The posts are the (MBID, score) pairs of the uploaded songs; sharing a pair means
      sharing the post. */
  ghost predicate PostsOf(starred: set<SongId>, mbids: map<SongId, string>, posts: seq<(string, Score)>) {
    && (forall i, j :: 0 <= i < j < |posts| ==> posts[i] != posts[j])
    && (forall id :: id in mbids ==> (mbids[id], ScoreOf(starred, id)) in posts)
    && (forall p :: p in posts ==> exists id :: id in mbids && p == (mbids[id], ScoreOf(starred, id)))
  }

  /** What a run leaves behind that records `mbids` as uploaded, whose accepted posts are
      `posts` in the order in which they were sent, and that stars `chosen`. The query results
      come in no particular order. */
  ghost predicate Effect(w: World, mbids: map<SongId, string>, posts: seq<(string, Score)>, chosen: set<SongId>,
                         w': World)
    requires w.t.Valid()
  {
    var l := InList(w.loved);
    var t1 := MarkMatching(w.t, w.loved);
    var out := OutdatedSet(t1, l);
    && mbids.Keys <= NotUploadedSet(t1, l)
    && PostsOf(w.t.starred, mbids, posts)
    && OnePerMbid(w.t.songs, out - w.t.starred, chosen)
    && w'.loved == PostAll(w.loved, posts)
    && w'.t == RecordPulled(UpdateStars(RecordUploads(t1, mbids), out * w.t.starred, chosen), out)
  }

  /** The songs to upload in a world. */
  function ToUpload(w: World): set<SongId>
    requires w.t.Valid()
  {
    NotUploadedSet(MarkMatching(w.t, w.loved), InList(w.loved))
  }

  /** A successful round: every song to upload whose recording MBID is known is recorded. */
  ghost predicate RoundBy(w: World, mbids: map<SongId, string>, posts: seq<(string, Score)>, chosen: set<SongId>,
                          w': World)
    requires w.t.Valid()
  {
    Resolves(w.t.songs, ToUpload(w), mbids) && Effect(w, mbids, posts, chosen, w')
  }

  ghost predicate Round(w: World, w': World) {
    w.t.Valid() && exists mbids, posts, chosen :: RoundBy(w, mbids, posts, chosen, w')
  }

  /** The uploaded songs and the pulled songs are always different ones. */
  lemma UploadAndPullAreDisjoint(t: Tables, l: set<string>)
    ensures NotUploadedSet(t, l) !! OutdatedSet(t, l)
  {
  }

  // ------------------------------------------------------------------ rejected posts

  /** Whether ListenBrainz accepts a post. */
  type Accepts = (string, Score) -> bool

  ghost predicate AlwaysAccepts(accepts: Accepts) {
    forall m, s :: accepts(m, s)
  }

  /** Of the songs to upload, those are recorded whose post was accepted. */
  ghost predicate Recorded(t: Tables, up: set<SongId>, accepts: Accepts, mbids: map<SongId, string>) {
    && (forall id :: id in mbids ==> accepts(mbids[id], ScoreOf(t.starred, id)))
    && forall id :: id in up && id in t.songs && t.songs[id].mbid.Some? ==>
                      && (id in mbids <==> accepts(t.songs[id].mbid.value, ScoreOf(t.starred, id)))
                      && (id in mbids ==> mbids[id] == t.songs[id].mbid.value)
  }

  ghost predicate AttemptBy(w: World, accepts: Accepts, mbids: map<SongId, string>, posts: seq<(string, Score)>,
                            chosen: set<SongId>, w': World)
    requires w.t.Valid()
  {
    Recorded(w.t, ToUpload(w), accepts, mbids) && Effect(w, mbids, posts, chosen, w')
  }

  /** A run that goes through, with some posts accepted and some rejected. */
  ghost predicate Attempt(w: World, accepts: Accepts, w': World) {
    w.t.Valid() && exists mbids, posts, chosen :: AttemptBy(w, accepts, mbids, posts, chosen, w')
  }

  /** When every post is accepted, a run is a round. */
  lemma AcceptedAttemptIsRound(w: World, accepts: Accepts, w': World)
    requires Attempt(w, accepts, w') && AlwaysAccepts(accepts)
    ensures Round(w, w')
  {
    var mbids, posts, chosen :| AttemptBy(w, accepts, mbids, posts, chosen, w');
    assert RoundBy(w, mbids, posts, chosen, w');
  }

  lemma RoundIsAttempt(w: World, w': World, accepts: Accepts)
    requires Round(w, w') && AlwaysAccepts(accepts)
    ensures Attempt(w, accepts, w')
  {
    var mbids, posts, chosen :| RoundBy(w, mbids, posts, chosen, w');
    assert AttemptBy(w, accepts, mbids, posts, chosen, w');
  }

  /** A song whose post is rejected stays as it is, to be uploaded another time. */
  lemma RejectedStays(w: World, accepts: Accepts, w': World, id: SongId)
    requires Attempt(w, accepts, w')
    requires id in ToUpload(w) && w.t.songs[id].mbid.Some?
    requires !accepts(w.t.songs[id].mbid.value, ScoreOf(w.t.starred, id))
    ensures id in w'.t.starred <==> id in w.t.starred
    ensures id in w'.t.status <==> id in w.t.status
    ensures id in w.t.status ==> w'.t.status[id] == w.t.status[id] && !w.t.status[id].uploaded
  {
  }

  // ------------------------------------------------------------------ one recording

  /** Every song has a recording MBID, and a status row recorded no other one. MBIDs are
      UUIDs, so none equals the padding of an empty list. */
  ghost predicate Clean(w: World) {
    && w.t.Valid()
    && (forall id :: id in w.t.songs ==> w.t.songs[id].mbid.Some? && w.t.songs[id].mbid.value != "\n")
    && RemotesMatch(w.t)
  }

  ghost predicate RemotesMatch(t: Tables)
    requires t.Valid()
  {
    forall id :: id in t.status ==> t.status[id].remote.None? || t.status[id].remote == t.songs[id].mbid
  }

  predicate IsCopy(t: Tables, m: string, id: SongId) {
    id in t.songs && t.songs[id].mbid == Some(m)
  }

  predicate Uploaded(t: Tables, id: SongId) {
    id in t.status && t.status[id].uploaded
  }

  predicate Pending(t: Tables, id: SongId) {
    id in t.status && !t.status[id].uploaded
  }

  /** The user has removed the star of some copy and that has not been uploaded. */
  ghost predicate UnstarPending(t: Tables, m: string) {
    exists id :: IsCopy(t, m, id) && id !in t.starred && Pending(t, id)
  }

  /** Some copy is starred and that has not been uploaded. */
  ghost predicate StarPending(t: Tables, m: string) {
    exists id :: IsCopy(t, m, id) && id in t.starred && !Uploaded(t, id)
  }

  ghost predicate SomeStarred(t: Tables, m: string) {
    exists id :: IsCopy(t, m, id) && id in t.starred
  }

  lemma {:induction false} AgreeingPosts(loved: set<string>, posts: seq<(string, Score)>, m: string, score: Score)
    requires forall p :: p in posts && p.0 == m ==> p.1 == score
    ensures m in PostAll(loved, posts) <==> (if (m, score) in posts then score.Love? else m in loved)
  {
    if posts != [] {
      var init, last := posts[..|posts| - 1], posts[|posts| - 1];
      assert posts == init + [last];
      AgreeingPosts(loved, init, m, score);
    }
  }

  /** What the two queries select of a clean world after the first statement. */
  lemma Selected(w: World, id: SongId, m: string)
    requires Clean(w) && IsCopy(w.t, m, id)
    ensures var t1, l := MarkMatching(w.t, w.loved), InList(w.loved);
            && (NotUploaded(t1, l, id) <==> if m in w.loved then id !in w.t.starred && Pending(w.t, id)
                                            else id in w.t.starred && !Uploaded(w.t, id))
            && (LocalOutdated(t1, l, id) <==> if m in w.loved then !Pending(w.t, id) && !SomeStarred(w.t, m)
                                              else id in w.t.starred && Uploaded(w.t, id))
  {
    var t1 := MarkMatching(w.t, w.loved);
    assert HasStarredCopy(t1, id) <==> SomeStarred(w.t, m);
  }

  /** Whether the user has changed something about a recording that a round will upload. */
  ghost predicate ChangePending(w: World, m: string) {
    if m in w.loved then UnstarPending(w.t, m) else StarPending(w.t, m)
  }

  lemma PostMeansPending(w: World, mbids: map<SongId, string>, posts: seq<(string, Score)>, p: (string, Score))
    requires Clean(w)
    requires Resolves(w.t.songs, NotUploadedSet(MarkMatching(w.t, w.loved), InList(w.loved)), mbids)
    requires PostsOf(w.t.starred, mbids, posts) && p in posts
    ensures p.1 == (if p.0 in w.loved then NoScore else Love) && ChangePending(w, p.0)
  {
    var id :| id in mbids && p == (mbids[id], ScoreOf(w.t.starred, id));
    assert IsCopy(w.t, p.0, id);
    Selected(w, id, p.0);
  }

  /** The remote side of one round, for one MBID. */
  lemma LovedAfter(w: World, mbids: map<SongId, string>, posts: seq<(string, Score)>, m: string)
    requires Clean(w)
    requires Resolves(w.t.songs, NotUploadedSet(MarkMatching(w.t, w.loved), InList(w.loved)), mbids)
    requires PostsOf(w.t.starred, mbids, posts)
    ensures m in PostAll(w.loved, posts) <==> (if m in w.loved then !UnstarPending(w.t, m) else StarPending(w.t, m))
  {
    var score := if m in w.loved then NoScore else Love;
    forall p | p in posts && p.0 == m
      ensures p.1 == score && ChangePending(w, m)
    {
      PostMeansPending(w, mbids, posts, p);
    }
    AgreeingPosts(w.loved, posts, m, score);
  }

  /** What a round does to one song; `pulled` says that it was chosen to be starred. */
  ghost predicate SongMoved(t: Tables, t': Tables, id: SongId, inLoved: bool, pulled: bool) {
    && (id in t'.starred <==> if inLoved then id in t.starred || pulled else id in t.starred && !Uploaded(t, id))
    && (id in t'.starred ==> Uploaded(t', id))
    && (Pending(t', id) <==> !inLoved && id !in t.starred && Pending(t, id))
  }

  /** The local side of one round, for one song. */
  lemma LocalAfter(w: World, mbids: map<SongId, string>, posts: seq<(string, Score)>, chosen: set<SongId>, w': World,
                   id: SongId, m: string)
    requires Clean(w) && RoundBy(w, mbids, posts, chosen, w') && IsCopy(w.t, m, id)
    ensures SongMoved(w.t, w'.t, id, m in w.loved, id in chosen)
  {
    Selected(w, id, m);
  }

  /** A loved recording without a starred copy and without a removed star gets one. */
  lemma LovedIsPulled(w: World, chosen: set<SongId>, id: SongId, m: string)
    requires Clean(w) && IsCopy(w.t, m, id) && m in w.loved
    requires !UnstarPending(w.t, m) && !SomeStarred(w.t, m)
    requires OnePerMbid(w.t.songs, OutdatedSet(MarkMatching(w.t, w.loved), InList(w.loved)) - w.t.starred, chosen)
    ensures exists j :: IsCopy(w.t, m, j) && j in chosen
  {
    Selected(w, id, m);
    assert id in OutdatedSet(MarkMatching(w.t, w.loved), InList(w.loved)) - w.t.starred;
    assert Represented(w.t.songs, chosen, id);
    var j :| j in chosen && j in w.t.songs && w.t.songs[j].mbid == w.t.songs[id].mbid;
    assert IsCopy(w.t, m, j);
  }

  /** What a round does to one recording: the remote side follows a pending change of the
      user, the local side follows the remote side, and no star is left to upload. */
  ghost predicate RecordingMoved(w: World, w': World, m: string) {
    && (m in w'.loved <==> if m in w.loved then !UnstarPending(w.t, m) else StarPending(w.t, m))
    && !StarPending(w'.t, m)
    && (UnstarPending(w'.t, m) <==> m !in w.loved && UnstarPending(w.t, m))
    && (m !in w.loved ==> (SomeStarred(w'.t, m) <==> StarPending(w.t, m)))
    && (m in w.loved && !UnstarPending(w.t, m) ==> SomeStarred(w'.t, m))
  }

  lemma LocalSideMoved(w: World, mbids: map<SongId, string>, posts: seq<(string, Score)>, chosen: set<SongId>,
                       w': World, m: string)
    requires Clean(w) && RoundBy(w, mbids, posts, chosen, w')
    ensures forall id :: IsCopy(w.t, m, id) <==> IsCopy(w'.t, m, id)
    ensures forall id :: IsCopy(w.t, m, id) ==> SongMoved(w.t, w'.t, id, m in w.loved, id in chosen)
  {
    assert w'.t.songs == w.t.songs;
    forall id | IsCopy(w.t, m, id)
      ensures SongMoved(w.t, w'.t, id, m in w.loved, id in chosen)
    {
      LocalAfter(w, mbids, posts, chosen, w', id, m);
    }
  }

  lemma RemoteSideMoved(w: World, mbids: map<SongId, string>, posts: seq<(string, Score)>, chosen: set<SongId>,
                        w': World, m: string)
    requires Clean(w) && RoundBy(w, mbids, posts, chosen, w')
    ensures m in w'.loved <==> if m in w.loved then !UnstarPending(w.t, m) else StarPending(w.t, m)
  {
    LovedAfter(w, mbids, posts, m);
  }

  lemma RoundOnRecording(w: World, w': World, m: string, id: SongId)
    requires Clean(w) && Round(w, w') && IsCopy(w.t, m, id)
    ensures RecordingMoved(w, w', m)
  {
    var mbids, posts, chosen :| RoundBy(w, mbids, posts, chosen, w');
    RemoteSideMoved(w, mbids, posts, chosen, w', m);
    LocalSideMoved(w, mbids, posts, chosen, w', m);
    if m in w.loved && !UnstarPending(w.t, m) && !SomeStarred(w.t, m) {
      LovedIsPulled(w, chosen, id, m);
    }
  }

  lemma StatementsKeepRemotes(t: Tables, loved: set<string>, mbids: map<SongId, string>, unstar: set<SongId>,
                              star: set<SongId>, ids: set<SongId>)
    requires t.Valid() && RemotesMatch(t)
    requires mbids.Keys <= t.songs.Keys && star <= t.songs.Keys && ids <= t.songs.Keys
    requires forall id :: id in mbids ==> Some(mbids[id]) == t.songs[id].mbid
    ensures RemotesMatch(RecordPulled(UpdateStars(RecordUploads(MarkMatching(t, loved), mbids), unstar, star), ids))
  {
  }

  lemma OwnMbids(w: World, accepts: Accepts, mbids: map<SongId, string>)
    requires Clean(w) && Recorded(w.t, ToUpload(w), accepts, mbids) && mbids.Keys <= ToUpload(w)
    ensures forall id :: id in mbids ==> id in w.t.songs && Some(mbids[id]) == w.t.songs[id].mbid
  {
    forall id | id in mbids
      ensures id in w.t.songs && Some(mbids[id]) == w.t.songs[id].mbid
    {
      assert id in ToUpload(w);
    }
  }

  /** A run, whichever posts it loses, never records a foreign MBID. */
  lemma AttemptKeepsClean(w: World, accepts: Accepts, w': World)
    requires Clean(w) && Attempt(w, accepts, w')
    ensures Clean(w') && w'.t.songs == w.t.songs
  {
    var mbids, posts, chosen :| AttemptBy(w, accepts, mbids, posts, chosen, w');
    OwnMbids(w, accepts, mbids);
    EffectKeepsClean(w, mbids, posts, chosen, w');
  }

  lemma EffectKeepsClean(w: World, mbids: map<SongId, string>, posts: seq<(string, Score)>, chosen: set<SongId>,
                         w': World)
    requires Clean(w) && Effect(w, mbids, posts, chosen, w')
    requires forall id :: id in mbids ==> id in w.t.songs && Some(mbids[id]) == w.t.songs[id].mbid
    ensures Clean(w') && w'.t.songs == w.t.songs
  {
    var out := OutdatedSet(MarkMatching(w.t, w.loved), InList(w.loved));
    StatementsKeepRemotes(w.t, w.loved, mbids, out * w.t.starred, chosen, out);
  }

  lemma RoundKeepsClean(w: World, w': World)
    requires Clean(w) && Round(w, w')
    ensures Clean(w') && w'.t.songs == w.t.songs
  {
    var always: Accepts := (m, s) => true;
    RoundIsAttempt(w, w', always);
    AttemptKeepsClean(w, always, w');
  }

  // ------------------------------------------------------------------ convergence

  /** Where the sync ends for a recording: loved, unless the user has a removed star that was
      not uploaded; and otherwise because it is loved remotely or has a star to upload. */
  ghost predicate Verdict(w: World, m: string) {
    !UnstarPending(w.t, m) && (m in w.loved || StarPending(w.t, m))
  }

  /** Both sides agree on the recording and nothing is left to do. */
  ghost predicate Settled(w: World, m: string) {
    && !StarPending(w.t, m)
    && (m in w.loved ==> SomeStarred(w.t, m) && !UnstarPending(w.t, m))
    && (m !in w.loved ==> !SomeStarred(w.t, m))
  }

  ghost predicate AllSettled(w: World) {
    forall id :: id in w.t.songs && w.t.songs[id].mbid.Some? ==> Settled(w, w.t.songs[id].mbid.value)
  }

  lemma EmptyOrInhabited<T>(s: seq<T>)
    ensures s == [] || exists x :: x in s
  {
    if s != [] {
      assert s[0] in s;
    }
  }

  lemma SettledSelectsNothing(w: World)
    requires Clean(w) && AllSettled(w)
    ensures var t1, l := MarkMatching(w.t, w.loved), InList(w.loved);
            t1 == w.t && NotUploadedSet(t1, l) == {} && OutdatedSet(t1, l) == {}
  {
    var t1, l := MarkMatching(w.t, w.loved), InList(w.loved);
    forall id | id in w.t.songs
      ensures !NotUploaded(t1, l, id) && !LocalOutdated(t1, l, id)
      ensures id in w.t.starred && IsIn(w.t.songs[id].mbid, w.loved) ==> Uploaded(w.t, id)
    {
      var m := w.t.songs[id].mbid.value;
      assert IsCopy(w.t, m, id);
      Selected(w, id, m);
    }
    assert t1.status == w.t.status;
  }

  lemma NothingSelectedIsFixed(w: World, w': World)
    requires Round(w, w')
    requires var t1, l := MarkMatching(w.t, w.loved), InList(w.loved);
             t1 == w.t && NotUploadedSet(t1, l) == {} && OutdatedSet(t1, l) == {}
    ensures w' == w
  {
    var mbids, posts, chosen :| RoundBy(w, mbids, posts, chosen, w');
    assert mbids == map[] && chosen == {};
    EmptyOrInhabited(posts);
    assert OutdatedSet(w.t, InList(w.loved)) * w.t.starred == {};
  }

  /** A round started where every recording is settled changes nothing at all. */
  lemma SettledIsFixed(w: World, w': World)
    requires Clean(w) && AllSettled(w) && Round(w, w')
    ensures w' == w
  {
    SettledSelectsNothing(w);
    NothingSelectedIsFixed(w, w');
  }

  /** `n` rounds lead from `w` to `w'`. */
  ghost predicate Rounds(n: nat, w: World, w': World) {
    if n == 0 then w == w' else exists m :: Rounds(n - 1, w, m) && Round(m, w')
  }

  /** Every recording held locally is settled as its verdict on `w` says. */
  ghost predicate SettledAsJudged(w: World, w': World) {
    && Clean(w') && w'.t.songs == w.t.songs && AllSettled(w')
    && forall id :: id in w.t.songs && w.t.songs[id].mbid.Some? ==>
                      var m := w.t.songs[id].mbid.value; m in w'.loved <==> Verdict(w, m)
  }

  lemma ThreeRoundsSettle(w0: World, w1: World, w2: World, w3: World)
    requires Clean(w0) && Round(w0, w1) && Round(w1, w2) && Round(w2, w3)
    ensures SettledAsJudged(w0, w3)
  {
    RoundKeepsClean(w0, w1);
    RoundKeepsClean(w1, w2);
    RoundKeepsClean(w2, w3);
    forall i | i in w0.t.songs
      ensures var m := w0.t.songs[i].mbid.value; Settled(w3, m) && (m in w3.loved <==> Verdict(w0, m))
    {
      var m := w0.t.songs[i].mbid.value;
      assert IsCopy(w0.t, m, i) && IsCopy(w1.t, m, i) && IsCopy(w2.t, m, i);
      RoundOnRecording(w0, w1, m, i);
      RoundOnRecording(w1, w2, m, i);
      RoundOnRecording(w2, w3, m, i);
    }
  }

  lemma {:induction false} RoundsSettle(n: nat, w: World, w': World)
    requires n >= 3 && Clean(w) && Rounds(n, w, w')
    ensures SettledAsJudged(w, w')
  {
    var w2 :| Rounds(n - 1, w, w2) && Round(w2, w');
    if n == 3 {
      var w1 :| Rounds(1, w, w1) && Round(w1, w2);
      var w0 :| Rounds(0, w, w0) && Round(w0, w1);
      ThreeRoundsSettle(w, w1, w2, w');
    } else {
      RoundsSettle(n - 1, w, w2);
      SettledIsFixed(w2, w');
    }
  }

  /** Sync convergence with shared MBIDs. From any clean world three or more rounds reach a
      world where a recording held locally is starred exactly when it is loved remotely,
      which is the case exactly for the recordings with a positive verdict on the first
      world; and one more round changes no star, no status row and no remote love. */
  lemma Convergence(n: nat, w: World, w': World, id: SongId)
    requires n >= 3 && Clean(w) && Rounds(n, w, w') && id in w.t.songs
    ensures w.t.songs[id].mbid.Some?
    ensures var m := w.t.songs[id].mbid.value;
            (SomeStarred(w'.t, m) <==> m in w'.loved) && (m in w'.loved <==> Verdict(w, m))
    ensures forall w'' :: Round(w', w'') ==> w'' == w'
  {
    RoundsSettle(n, w, w');
    forall w'' | Round(w', w'')
      ensures w'' == w'
    {
      SettledIsFixed(w', w'');
    }
  }

  // ------------------------------------------------------------------ after trouble

  /** A run of the sync: it fails after its first statement, or goes through with some posts. */
  ghost predicate Ran(w: World, w': World) {
    w.t.Valid() && (w' == World(MarkMatching(w.t, w.loved), w.loved) || exists accepts :: Attempt(w, accepts, w'))
  }

  ghost predicate Runs(n: nat, w: World, w': World) {
    if n == 0 then w == w' else exists m :: Runs(n - 1, w, m) && Ran(m, w')
  }

  lemma {:induction false} RunsKeepClean(n: nat, w: World, w': World)
    requires Clean(w) && Runs(n, w, w')
    ensures Clean(w') && w'.t.songs == w.t.songs
  {
    if n > 0 {
      var m :| Runs(n - 1, w, m) && Ran(m, w');
      RunsKeepClean(n - 1, w, m);
      if accepts :| Attempt(m, accepts, w') {
        AttemptKeepsClean(m, accepts, w');
      } else {
      }
    }
  }

  /** Failing runs do no lasting harm: however many there were, three rounds that succeed
      settle every recording, as the verdict on the world before those rounds says. */
  lemma RecoveryAfterTrouble(k: nat, n: nat, w: World, u: World, w': World)
    requires Clean(w) && Runs(k, w, u) && Rounds(n, u, w') && n >= 3
    ensures SettledAsJudged(u, w')
  {
    RunsKeepClean(k, w, u);
    RoundsSettle(n, u, w');
  }
}
