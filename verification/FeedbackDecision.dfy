/**
  The documented decision table of the favourites sync (listenbrainz/listenbrainz.go), for
  libraries in which every song has a recording MBID of its own; when a second round has
  nothing left to do, and which worlds a round leaves alone.
 */
module FeedbackDecision {
  import opened Wrappers
  import opened FeedbackTables
  import opened FeedbackSync

  /** Every song has a recording MBID of its own. */
  ghost predicate DistinctMbids(t: Tables) {
    && (forall id :: id in t.songs ==> t.songs[id].mbid.Some? && t.songs[id].mbid.value != "\n")
    && (forall i, j :: i in t.songs && j in t.songs && t.songs[i].mbid == t.songs[j].mbid ==> i == j)
  }

  /** The documented table: unknown status takes either side, uploaded the remote side, not
      uploaded the local side. */
  ghost predicate Decision(w: World, id: SongId)
    requires id in w.t.songs
  {
    var remote := IsIn(w.t.songs[id].mbid, w.loved);
    if id !in w.t.status then id in w.t.starred || remote
    else if w.t.status[id].uploaded then remote
    else id in w.t.starred
  }

  /** The row recorded another MBID, which is in the list while the song's own is not, and
      the song is uploaded or starred. */
  ghost predicate Misled(w: World, id: SongId)
    requires id in w.t.songs
  {
    && id in w.t.status && IsIn(w.t.status[id].remote, InList(w.loved))
    && !IsIn(w.t.songs[id].mbid, w.loved)
    && (w.t.status[id].uploaded || id in w.t.starred)
  }

  predicate OwnLoved(w: World, id: SongId) {
    id in w.t.songs && IsIn(w.t.songs[id].mbid, w.loved)
  }

  /** The MBID that the song's status row recorded is in the list the queries are given. */
  predicate RemoteListed(w: World, id: SongId) {
    id in w.t.status && IsIn(w.t.status[id].remote, InList(w.loved))
  }

  predicate WillUpload(w: World, id: SongId) {
    if id in w.t.starred then !OwnLoved(w, id) && !RemoteListed(w, id) && !Uploaded(w.t, id)
    else Pending(w.t, id) && (OwnLoved(w, id) || RemoteListed(w, id))
  }

  predicate WillPull(w: World, id: SongId) {
    if id in w.t.starred then !OwnLoved(w, id) && !RemoteListed(w, id) && Uploaded(w.t, id)
    else !Pending(w.t, id) && (OwnLoved(w, id) || RemoteListed(w, id))
  }

  lemma DistinctSelected(w: World, id: SongId)
    requires w.t.Valid() && DistinctMbids(w.t) && id in w.t.songs
    ensures var t1, l := MarkMatching(w.t, w.loved), InList(w.loved);
            && (NotUploaded(t1, l, id) <==> WillUpload(w, id))
            && (LocalOutdated(t1, l, id) <==> WillPull(w, id))
  {
    var t1 := MarkMatching(w.t, w.loved);
    assert HasStarredCopy(t1, id) <==> id in w.t.starred;
  }

  lemma DistinctLovedAfter(w: World, mbids: map<SongId, string>, posts: seq<(string, Score)>, chosen: set<SongId>,
                           w': World, id: SongId)
    requires w.t.Valid() && RoundBy(w, mbids, posts, chosen, w') && DistinctMbids(w.t) && id in w.t.songs
    ensures w.t.songs[id].mbid.value in w'.loved <==>
            if NotUploaded(MarkMatching(w.t, w.loved), InList(w.loved), id) then id in w.t.starred
            else w.t.songs[id].mbid.value in w.loved
  {
    var t1, l := MarkMatching(w.t, w.loved), InList(w.loved);
    var m, score := w.t.songs[id].mbid.value, ScoreOf(w.t.starred, id);
    forall p | p in posts && p.0 == m
      ensures p == (m, score) && id in mbids
    {
      var j :| j in mbids && p == (mbids[j], ScoreOf(w.t.starred, j));
      assert w.t.songs[j].mbid == w.t.songs[id].mbid;
    }
    AgreeingPosts(w.loved, posts, m, score);
    assert (m, score) in posts <==> id in mbids;
  }

  lemma DistinctStarredAfter(w: World, mbids: map<SongId, string>, posts: seq<(string, Score)>, chosen: set<SongId>,
                             w': World, id: SongId)
    requires w.t.Valid() && RoundBy(w, mbids, posts, chosen, w') && DistinctMbids(w.t) && id in w.t.songs
    ensures id in w'.t.starred <==> ((id in w.t.starred) != (id in OutdatedSet(MarkMatching(w.t, w.loved),
                                                                               InList(w.loved))))
  {
    var t1 := MarkMatching(w.t, w.loved);
    ChosenWhenDistinct(w.t, OutdatedSet(t1, InList(w.loved)) - w.t.starred, chosen);
  }

  lemma ChosenWhenDistinct(t: Tables, candidates: set<SongId>, chosen: set<SongId>)
    requires DistinctMbids(t) && candidates <= t.songs.Keys && OnePerMbid(t.songs, candidates, chosen)
    ensures chosen == candidates
  {
    forall id | id in candidates
      ensures id in chosen
    {
      assert Represented(t.songs, chosen, id);
      var j :| j in chosen && t.songs[j].mbid == t.songs[id].mbid;
      assert j == id;
    }
  }

  /** The decision table holds for a song after one round exactly when its status row does not
      mislead the queries. */
  lemma DecisionTable(w: World, w': World, id: SongId)
    requires Round(w, w') && DistinctMbids(w.t) && id in w.t.songs
    ensures ((id in w'.t.starred <==> Decision(w, id)) && (w.t.songs[id].mbid.value in w'.loved <==> Decision(w, id)))
       <==> !Misled(w, id)
  {
    var mbids, posts, chosen :| RoundBy(w, mbids, posts, chosen, w');
    DistinctSelected(w, id);
    DistinctLovedAfter(w, mbids, posts, chosen, w', id);
    DistinctStarredAfter(w, mbids, posts, chosen, w', id);
  }

  // ------------------------------------------------------------------ songs without an MBID

  /** A song without an MBID of its own is uploaded or pulled exactly when its star differs
      from the love of the MBID that its row recorded, by whether it is marked as uploaded. */
  lemma NoMbidSelected(w: World, id: SongId)
    requires w.t.Valid() && id in w.t.songs && w.t.songs[id].mbid.None?
    ensures id in ToUpload(w) <==> !Uploaded(w.t, id) && ((id in w.t.starred) != RemoteListed(w, id))
    ensures id in OutdatedSet(MarkMatching(w.t, w.loved), InList(w.loved)) <==>
            Uploaded(w.t, id) && ((id in w.t.starred) != RemoteListed(w, id))
  {
  }

  /** After a run it is starred as the recorded MBID is loved if it was marked as uploaded,
      and as before otherwise. */
  lemma NoMbidAfter(w: World, accepts: Accepts, w': World, id: SongId)
    requires Attempt(w, accepts, w') && id in w.t.songs && w.t.songs[id].mbid.None?
    ensures id in w'.t.starred <==> if Uploaded(w.t, id) then RemoteListed(w, id) else id in w.t.starred
  {
    var mbids, posts, chosen :| AttemptBy(w, accepts, mbids, posts, chosen, w');
    NoMbidSelected(w, id);
  }

  // ------------------------------------------------------------------ worlds that a round leaves alone

  /** Nothing is selected for the song, and its row is marked if it has to be. */
  predicate AtRest(w: World, id: SongId) {
    && (id in w.t.starred <==> OwnLoved(w, id) || RemoteListed(w, id))
    && (id in w.t.starred && OwnLoved(w, id) ==> Uploaded(w.t, id))
  }

  ghost predicate AllAtRest(w: World) {
    forall id {:trigger AtRest(w, id)} :: id in w.t.songs ==> AtRest(w, id)
  }

  lemma RestSelectsNothing(w: World)
    requires w.t.Valid() && DistinctMbids(w.t) && AllAtRest(w)
    ensures var t1, l := MarkMatching(w.t, w.loved), InList(w.loved);
            t1 == w.t && NotUploadedSet(t1, l) == {} && OutdatedSet(t1, l) == {}
  {
    var t1, l := MarkMatching(w.t, w.loved), InList(w.loved);
    forall id | id in w.t.songs
      ensures !NotUploaded(t1, l, id) && !LocalOutdated(t1, l, id)
      ensures id in w.t.starred && IsIn(w.t.songs[id].mbid, w.loved) ==> Uploaded(w.t, id)
    {
      assert AtRest(w, id);
      DistinctSelected(w, id);
    }
    assert t1.status == w.t.status;
  }

  lemma RestIsFixed(w: World, w': World)
    requires DistinctMbids(w.t) && Round(w, w') && AllAtRest(w)
    ensures w' == w
  {
    RestSelectsNothing(w);
    NothingSelectedIsFixed(w, w');
  }

  /** What a round does to the status row of a song. */
  lemma StatusAfter(w: World, mbids: map<SongId, string>, posts: seq<(string, Score)>, chosen: set<SongId>, w': World,
                    id: SongId)
    requires w.t.Valid() && RoundBy(w, mbids, posts, chosen, w') && DistinctMbids(w.t) && id in w.t.songs
    ensures RowRound(w, w', id)
  {
    DistinctSelected(w, id);
    assert id in mbids <==> WillUpload(w, id);
  }

  lemma FixedIsRest(w: World, id: SongId)
    requires DistinctMbids(w.t) && Round(w, w) && id in w.t.songs
    ensures AtRest(w, id)
  {
    SongAfterRound(w, w, id);
  }

  /** With distinct MBIDs a round changes nothing exactly when every song is starred if and
      only if its own MBID or the one recorded for it is loved, and the songs starred and
      loved under their own MBID are marked as uploaded. */
  lemma RoundIsNoOpIff(w: World, w': World)
    requires DistinctMbids(w.t) && Round(w, w')
    ensures w' == w <==> forall id :: id in w.t.songs ==> AtRest(w, id)
  {
    if w' == w {
      forall id | id in w.t.songs
        ensures AtRest(w, id)
      {
        FixedIsRest(w, id);
      }
    }
    if forall id :: id in w.t.songs ==> AtRest(w, id) {
      RestIsFixed(w, w');
    }
  }

  /** In a world that a round leaves alone, star and remote love disagree on a song exactly
      when its own MBID is not loved and its row recorded one that is; then it is starred. */
  lemma FixedDisagreementIff(w: World, id: SongId)
    requires DistinctMbids(w.t) && Round(w, w) && id in w.t.songs
    ensures (id in w.t.starred) != OwnLoved(w, id) <==> !OwnLoved(w, id) && RemoteListed(w, id)
    ensures (id in w.t.starred) != OwnLoved(w, id) ==> id in w.t.starred
  {
    FixedIsRest(w, id);
  }

  // ------------------------------------------------------------------ the second round

  ghost predicate UploadsAs(w: World, j: SongId, m: string) {
    IsCopy(w.t, m, j) && WillUpload(w, j)
  }

  /** Whether an MBID is loved after the next round, and whether it will be in the list. */
  ghost predicate LovedNext(w: World, m: string) {
    if exists j :: UploadsAs(w, j, m) then exists j :: UploadsAs(w, j, m) && j in w.t.starred else m in w.loved
  }

  ghost predicate ListedNext(w: World, m: string) {
    LovedNext(w, m) || (m == "\n" && forall x :: !LovedNext(w, x))
  }

  lemma PostsAreUploads(w: World, mbids: map<SongId, string>, posts: seq<(string, Score)>, p: (string, Score))
    returns (id: SongId)
    requires w.t.Valid() && DistinctMbids(w.t) && Resolves(w.t.songs, ToUpload(w), mbids)
    requires PostsOf(w.t.starred, mbids, posts) && p in posts
    ensures UploadsAs(w, id, p.0)
  {
    id :| id in mbids && p == (mbids[id], ScoreOf(w.t.starred, id));
    DistinctSelected(w, id);
  }

  lemma LovedNextIs(w: World, mbids: map<SongId, string>, posts: seq<(string, Score)>, chosen: set<SongId>, w': World,
                    m: string)
    requires w.t.Valid() && RoundBy(w, mbids, posts, chosen, w') && DistinctMbids(w.t)
    ensures m in w'.loved <==> LovedNext(w, m)
  {
    if j :| UploadsAs(w, j, m) {
      DistinctSelected(w, j);
      DistinctLovedAfter(w, mbids, posts, chosen, w', j);
      OneUploadAs(w, j, m);
    } else {
      forall p | p in posts
        ensures p.0 != m
      {
        var id := PostsAreUploads(w, mbids, posts, p);
      }
      AgreeingPosts(w.loved, posts, m, NoScore);
    }
  }

  lemma OneUploadAs(w: World, j: SongId, m: string)
    requires DistinctMbids(w.t) && UploadsAs(w, j, m)
    ensures LovedNext(w, m) <==> j in w.t.starred
  {
    assert forall i :: UploadsAs(w, i, m) ==> w.t.songs[i].mbid == w.t.songs[j].mbid;
  }

  lemma ListedNextIs(w: World, w': World, m: string)
    requires Round(w, w') && DistinctMbids(w.t)
    ensures m in InList(w'.loved) <==> ListedNext(w, m)
  {
    var mbids, posts, chosen :| RoundBy(w, mbids, posts, chosen, w');
    forall x
      ensures x in w'.loved <==> LovedNext(w, x)
    {
      LovedNextIs(w, mbids, posts, chosen, w', x);
    }
  }

  /** The song is uploaded in the first round, or loved under its own MBID, or the round does
      not change whether the MBID recorded for it is in the list. */
  ghost predicate Undisturbed(w: World, id: SongId) {
    WillUpload(w, id) || OwnLoved(w, id) || id !in w.t.status || w.t.status[id].remote.None?
    || (RemoteListed(w, id) <==> ListedNext(w, w.t.status[id].remote.value))
  }

  /** What a round does to a song: its star, its love and its row. */
  ghost predicate SongRound(w: World, w': World, id: SongId) {
    && w'.t.songs == w.t.songs && id in w.t.songs
    && (id in w'.t.starred <==> ((id in w.t.starred) != WillPull(w, id)))
    && (OwnLoved(w', id) <==> if WillUpload(w, id) then id in w.t.starred else OwnLoved(w, id))
    && RowRound(w, w', id)
  }

  ghost predicate RowRound(w: World, w': World, id: SongId)
    requires id in w.t.songs
  {
    if WillUpload(w, id) then
      id in w'.t.status && w'.t.status[id] == Status(w.t.songs[id].mbid, true)
    else
      && (Uploaded(w'.t, id) <==> Uploaded(w.t, id) || WillPull(w, id) || (id in w.t.starred && OwnLoved(w, id)))
      && (id in w.t.status ==> id in w'.t.status && w'.t.status[id].remote == w.t.status[id].remote)
      && (id !in w.t.status && id in w.t.starred && OwnLoved(w, id) ==>
            id in w'.t.status && w'.t.status[id] == Status(w.t.songs[id].mbid, true))
      && (id in w'.t.status && id !in w.t.status && !(id in w.t.starred && OwnLoved(w, id)) ==>
            w'.t.status[id].remote.None?)
  }

  lemma SongAfterRound(w: World, w': World, id: SongId)
    requires Round(w, w') && DistinctMbids(w.t) && id in w.t.songs
    ensures SongRound(w, w', id)
  {
    var mbids, posts, chosen :| RoundBy(w, mbids, posts, chosen, w');
    DistinctSelected(w, id);
    DistinctStarredAfter(w, mbids, posts, chosen, w', id);
    DistinctLovedAfter(w, mbids, posts, chosen, w', id);
    StatusAfter(w, mbids, posts, chosen, w', id);
  }

  lemma RestAfterRound(w: World, w': World, id: SongId)
    requires Round(w, w') && DistinctMbids(w.t) && id in w.t.songs
    ensures AtRest(w', id) <==> Undisturbed(w, id)
  {
    SongAfterRound(w, w', id);
    if WillUpload(w, id) {
    } else {
      if id in w.t.status && w.t.status[id].remote.Some? {
        ListedNextIs(w, w', w.t.status[id].remote.value);
      }
    }
  }

  /** With distinct MBIDs a second round is a no-op exactly when the first state disturbs no
      song: one that is not uploaded and not loved under its own MBID must not have recorded
      a foreign one whose love the first round changes. */
  lemma SecondRoundIsNoOpIff(w0: World, w1: World, w2: World)
    requires DistinctMbids(w0.t) && Round(w0, w1) && Round(w1, w2)
    ensures w2 == w1 <==> forall id :: id in w0.t.songs ==> Undisturbed(w0, id)
  {
    RoundIsNoOpIff(w1, w2);
    forall id | id in w0.t.songs
      ensures AtRest(w1, id) <==> Undisturbed(w0, id)
    {
      RestAfterRound(w0, w1, id);
    }
  }

  /** In particular when no row recorded a foreign MBID. */
  lemma CleanSettlesInOneRound(w0: World, w1: World, w2: World)
    requires Clean(w0) && DistinctMbids(w0.t) && Round(w0, w1) && Round(w1, w2)
    ensures w2 == w1
  {
    SecondRoundIsNoOpIff(w0, w1, w2);
    assert forall id :: id in w0.t.songs ==> Undisturbed(w0, id);
  }
}
