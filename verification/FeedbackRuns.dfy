/**
  Runs of the favourites sync on small libraries that show what the theorems of
  `FeedbackSync` and `FeedbackDecision` cannot be improved to.
 */
module FeedbackRuns {
  import opened Wrappers
  import opened FeedbackTables
  import opened FeedbackSync
  import opened FeedbackDecision

  /** The first statement has nothing to do, and the queries select these songs. */
  ghost predicate Selects(w: World, up: set<SongId>, out: set<SongId>) {
    && w.t.Valid() && MarkMatching(w.t, w.loved) == w.t
    && NotUploadedSet(w.t, InList(w.loved)) == up && OutdatedSet(w.t, InList(w.loved)) == out
  }

  lemma OnePost(w: World, id: SongId, m: string)
    requires id in w.t.songs && w.t.songs[id].mbid == Some(m)
    ensures Resolves(w.t.songs, {id}, map[id := m])
    ensures PostsOf(w.t.starred, map[id := m], [(m, ScoreOf(w.t.starred, id))])
    ensures PostAll(w.loved, [(m, ScoreOf(w.t.starred, id))]) == PostOne(w.loved, m, ScoreOf(w.t.starred, id))
  {
    var posts := [(m, ScoreOf(w.t.starred, id))];
    assert posts[0] in posts;
    assert PostAll(w.loved, []) == w.loved && posts[..0] == [];
  }

  /** A round that uploads one song and pulls none. */
  lemma UploadRound(w: World, id: SongId, m: string)
    requires Selects(w, {id}, {}) && id in w.t.songs && w.t.songs[id].mbid == Some(m)
    ensures Round(w, World(w.t.(status := w.t.status[id := Status(Some(m), true)]),
                           PostOne(w.loved, m, ScoreOf(w.t.starred, id))))
  {
    var score := ScoreOf(w.t.starred, id);
    var status' := w.t.status[id := Status(Some(m), true)];
    var w' := World(w.t.(status := status'), PostOne(w.loved, m, score));
    OnePost(w, id, m);
    assert RecordUploads(w.t, map[id := m]).status == status';
    assert RecordPulled(RecordUploads(w.t, map[id := m]), {}).status == status';
    assert w.t.starred - {} * w.t.starred + {} == w.t.starred;
    assert RoundBy(w, map[id := m], [(m, score)], {}, w');
  }

  /** A round that pulls one song, which has a row, and uploads none. */
  lemma PullRound(w: World, id: SongId)
    requires Selects(w, {}, {id}) && id in w.t.status && w.t.status[id].uploaded
    ensures Round(w, w.(t := w.t.(starred := if id in w.t.starred then w.t.starred - {id} else w.t.starred + {id})))
  {
    var star := {id} - w.t.starred;
    var starred' := if id in w.t.starred then w.t.starred - {id} else w.t.starred + {id};
    assert RecordUploads(w.t, map[]).status == w.t.status;
    assert RecordPulled(w.t, {id}).status == w.t.status;
    assert w.t.starred - {id} * w.t.starred + star == starred';
    assert OnePerMbid(w.t.songs, star, star) by {
      assert forall j :: j in star ==> Represented(w.t.songs, star, j);
    }
    assert PostAll(w.loved, []) == w.loved;
    assert RoundBy(w, map[], [], star, w.(t := w.t.(starred := starred')));
  }

  lemma IdleRound(w: World)
    requires Selects(w, {}, {})
    ensures Round(w, w)
  {
    assert {} * w.t.starred == {};
    assert RoundBy(w, map[], [], {}, w);
  }

  // ------------------------------------------------------------------ three rounds

  /** Two copies of recording "m". */
  function TwoCopies(starred: set<SongId>, status: map<SongId, Status>, loved: set<string>): World {
    World(Tables(map[0 := Song(Some("m"), None), 1 := Song(Some("m"), None)], starred, status), loved)
  }

  const NOTHING_DONE: map<SongId, Status> := map[1 := Status(None, false)]
  const FIRST_DONE: map<SongId, Status> := NOTHING_DONE[0 := Status(Some("m"), true)]
  const BOTH_DONE: map<SongId, Status> := FIRST_DONE[1 := Status(Some("m"), true)]

  lemma Loved()
    ensures Round(TwoCopies({0}, NOTHING_DONE, {}), TwoCopies({0}, FIRST_DONE, {"m"}))
  {
    UploadRound(TwoCopies({0}, NOTHING_DONE, {}), 0, "m");
    assert {} + {"m"} == {"m"};
  }

  lemma Withdrawn()
    ensures Round(TwoCopies({0}, FIRST_DONE, {"m"}), TwoCopies({0}, BOTH_DONE, {}))
  {
    UploadRound(TwoCopies({0}, FIRST_DONE, {"m"}), 1, "m");
    assert {"m"} - {"m"} == {};
  }

  lemma Unstarred()
    ensures Round(TwoCopies({0}, BOTH_DONE, {}), TwoCopies({}, BOTH_DONE, {}))
  {
    PullRound(TwoCopies({0}, BOTH_DONE, {}), 0);
    assert {0} - {0} == {};
  }

  lemma TwoCopiesFacts()
    ensures Clean(TwoCopies({0}, NOTHING_DONE, {}))
    ensures SomeStarred(TwoCopies({0}, BOTH_DONE, {}).t, "m") && !SomeStarred(TwoCopies({}, BOTH_DONE, {}).t, "m")
  {
    assert IsCopy(TwoCopies({0}, BOTH_DONE, {}).t, "m", 0);
  }

  /** Three rounds can be needed. One copy has a star to upload, another a removed star: the
      first round adds the love, the second takes it back, the third removes the star. */
  lemma ThreeRoundsCanBeNeeded() returns (w0: World, w1: World, w2: World, w3: World)
    ensures Clean(w0) && Round(w0, w1) && Round(w1, w2) && Round(w2, w3)
    ensures "m" in w1.loved && "m" !in w2.loved
    ensures SomeStarred(w2.t, "m") && !SomeStarred(w3.t, "m")
  {
    w0, w1 := TwoCopies({0}, NOTHING_DONE, {}), TwoCopies({0}, FIRST_DONE, {"m"});
    w2, w3 := TwoCopies({0}, BOTH_DONE, {}), TwoCopies({}, BOTH_DONE, {});
    Loved();
    Withdrawn();
    Unstarred();
    TwoCopiesFacts();
  }

  // ------------------------------------------------------------------ foreign MBIDs

  /** A row that recorded another MBID than the song's own freezes a disagreement that no
      number of rounds resolves. */
  lemma StaleRemoteMbidFreezesDisagreement() returns (w: World)
    ensures w.t.Valid() && Round(w, w)
    ensures SomeStarred(w.t, "a") && "a" !in w.loved
  {
    var t := Tables(map[0 := Song(Some("a"), None)], {0}, map[0 := Status(Some("b"), true)]);
    w := World(t, {"b"});
    assert t.songs.Keys == {0};
    assert MarkMatching(t, {"b"}).status == t.status;
    assert Selects(w, {}, {});
    IdleRound(w);
    assert IsCopy(t, "a", 0);
  }

  /** Two songs; the row of the first recorded the MBID of the second. */
  function Crossed(starred: set<SongId>, status: map<SongId, Status>, loved: set<string>): World {
    World(Tables(map[0 := Song(Some("a"), None), 1 := Song(Some("b"), None)], starred, status), loved)
  }

  const CROSSED: map<SongId, Status> := map[0 := Status(Some("b"), true)]
  const BOTH_CROSSED: map<SongId, Status> := CROSSED[1 := Status(Some("b"), true)]

  lemma CrossedFirst()
    ensures Round(Crossed({1}, CROSSED, {}), Crossed({1}, BOTH_CROSSED, {"b"}))
  {
    var w := Crossed({1}, CROSSED, {});
    assert w.t.songs.Keys == {0, 1};
    assert Selects(w, {1}, {});
    UploadRound(w, 1, "b");
    assert {} + {"b"} == {"b"};
  }

  lemma CrossedSecond()
    ensures Round(Crossed({1}, BOTH_CROSSED, {"b"}), Crossed({0, 1}, BOTH_CROSSED, {"b"}))
  {
    PullRound(Crossed({1}, BOTH_CROSSED, {"b"}), 0);
    assert {1} + {0} == {0, 1};
  }

  lemma CrossedFacts()
    ensures DistinctMbids(Crossed({1}, CROSSED, {}).t)
    ensures forall id :: id in Crossed({1}, CROSSED, {}).t.songs ==> !Misled(Crossed({1}, CROSSED, {}), id)
  {
  }

  /** Even where no row misleads the first round, so that it follows the decision table, a
      second round can change a star: the first one makes a recorded MBID loved. */
  lemma SecondRoundCanChange() returns (w0: World, w1: World, w2: World)
    ensures DistinctMbids(w0.t) && Round(w0, w1) && Round(w1, w2)
    ensures forall id :: id in w0.t.songs ==> !Misled(w0, id)
    ensures 0 in w2.t.starred && 0 !in w1.t.starred
  {
    w0, w1, w2 := Crossed({1}, CROSSED, {}), Crossed({1}, BOTH_CROSSED, {"b"}), Crossed({0, 1}, BOTH_CROSSED, {"b"});
    CrossedFirst();
    CrossedSecond();
    CrossedFacts();
  }
}
