/**
  The pull half of the favourites sync (listenbrainz/listenbrainz.go): which songs are
  unstarred, and which one of several copies of a recording is starred.
 */
module FeedbackPull {
  import opened Wrappers
  import opened FeedbackTables

  /** A song of the outdated query; `release` is the release MBID of its album. */
  datatype Row = Row(id: SongId, starred: bool, mbid: Option<string>, release: Option<string>)

  predicate OnLovedRelease(r: Row, lovedReleases: set<string>) {
    IsIn(r.release, lovedReleases)
  }

  predicate Candidate(r: Row, m: string) {
    !r.starred && r.mbid == Some(m)
  }

  /** The copy to star for recording `m`: one on a loved release if there is one, and
      otherwise the copy with the smallest id. */
  ghost predicate Representative(rows: seq<Row>, lovedReleases: set<string>, m: string, r: Row) {
    && r in rows && Candidate(r, m)
    && ((exists s :: s in rows && Candidate(s, m) && OnLovedRelease(s, lovedReleases)) ==>
          OnLovedRelease(r, lovedReleases))
    && (!OnLovedRelease(r, lovedReleases) ==> forall s :: s in rows && Candidate(s, m) ==> r.id <= s.id)
  }

  /** The table of representatives after the rows seen so far. */
  ghost predicate Chosen(rows: seq<Row>, lovedReleases: set<string>, best: map<string, Row>) {
    && (forall m :: m in best ==> Representative(rows, lovedReleases, m, best[m]))
    && (forall r :: r in rows && !r.starred && r.mbid.Some? ==> r.mbid.value in best)
  }

  /** What one more row does to the table. */
  function Consider(best: map<string, Row>, lovedReleases: set<string>, s: Row): map<string, Row>
    requires s.mbid.Some?
  {
    var m := s.mbid.value;
    if OnLovedRelease(s, lovedReleases) then best[m := s]
    else if m in best && OnLovedRelease(best[m], lovedReleases) then best
    else if m !in best || s.id < best[m].id then best[m := s]
    else best
  }

  lemma ConsiderKeepsChosen(rows: seq<Row>, lovedReleases: set<string>, best: map<string, Row>, s: Row)
    requires Chosen(rows, lovedReleases, best) && !s.starred && s.mbid.Some?
    ensures Chosen(rows + [s], lovedReleases, Consider(best, lovedReleases, s))
  {
    var best' := Consider(best, lovedReleases, s);
    forall m | m in best'
      ensures Representative(rows + [s], lovedReleases, m, best'[m])
    {
      if m in best {
        assert Representative(rows, lovedReleases, m, best[m]);
      }
    }
  }

  /** The ids of the rows to unstar, in order. */
  function ToUnstar(rows: seq<Row>): seq<SongId> {
    if rows == [] then []
    else
      var n := |rows| - 1;
      ToUnstar(rows[..n]) + if rows[n].starred then [rows[n].id] else []
  }

  /** The ids of the rows that are starred without a choice, in order. */
  function WithoutMbid(rows: seq<Row>): seq<SongId> {
    if rows == [] then []
    else
      var n := |rows| - 1;
      WithoutMbid(rows[..n]) + if !rows[n].starred && rows[n].mbid.None? then [rows[n].id] else []
  }

  lemma {:induction false} UnstarIds(rows: seq<Row>, id: SongId)
    ensures id in ToUnstar(rows) <==> exists r :: r in rows && r.starred && r.id == id
  {
    if rows != [] {
      var n := |rows| - 1;
      assert rows == rows[..n] + [rows[n]];
      UnstarIds(rows[..n], id);
    }
  }

  lemma {:induction false} WithoutMbidIds(rows: seq<Row>, id: SongId)
    ensures id in WithoutMbid(rows) <==> exists r :: r in rows && !r.starred && r.mbid.None? && r.id == id
  {
    if rows != [] {
      var n := |rows| - 1;
      assert rows == rows[..n] + [rows[n]];
      WithoutMbidIds(rows[..n], id);
    }
  }

  method ChooseStars(rows: seq<Row>, lovedReleases: set<string>)
    returns (unstar: seq<SongId>, star: seq<SongId>, ghost best: map<string, Row>)
    ensures unstar == ToUnstar(rows)
    ensures Chosen(rows, lovedReleases, best)
    ensures WithoutMbid(rows) <= star
    ensures forall id :: id in star <==> id in WithoutMbid(rows) || exists m :: m in best && best[m].id == id
  {
    unstar, star := [], [];
    var starByMBID: map<string, Row> := map[];
    for i := 0 to |rows|
      invariant unstar == ToUnstar(rows[..i]) && star == WithoutMbid(rows[..i])
      invariant Chosen(rows[..i], lovedReleases, starByMBID)
    {
      var s := rows[i];
      assert rows[..i + 1] == rows[..i] + [s];
      if s.starred {
        unstar := unstar + [s.id];
      } else if s.mbid.None? {
        star := star + [s.id];
      } else {
        ConsiderKeepsChosen(rows[..i], lovedReleases, starByMBID, s);
        var m := s.mbid.value;
        if s.release.Some? && s.release.value in lovedReleases {
          starByMBID := starByMBID[m := s];
        } else if m in starByMBID && starByMBID[m].release.Some? && starByMBID[m].release.value in lovedReleases {
        } else if m !in starByMBID || s.id < starByMBID[m].id {
          starByMBID := starByMBID[m := s];
        }
      }
    }
    assert rows[..|rows|] == rows;
    best := starByMBID;
    star := AppendRepresentatives(star, starByMBID);
  }

  /** Appends the representatives in the arbitrary order of a map iteration. */
  method AppendRepresentatives(star: seq<SongId>, best: map<string, Row>) returns (r: seq<SongId>)
    ensures star <= r
    ensures forall id :: id in r <==> id in star || exists m :: m in best && best[m].id == id
  {
    r := star;
    var todo := best.Keys;
    while todo != {}
      invariant todo <= best.Keys && star <= r
      invariant forall id :: id in r <==> id in star || exists m :: m in best && m !in todo && best[m].id == id
      decreases todo
    {
      var m :| m in todo;
      todo := todo - {m};
      r := r + [best[m].id];
    }
  }

  /** Exactly one candidate of each recording is starred, its representative. */
  lemma OneStarPerRecording(rows: seq<Row>, lovedReleases: set<string>, best: map<string, Row>, r: Row)
    requires forall i, j :: 0 <= i < j < |rows| ==> rows[i].id != rows[j].id
    requires Chosen(rows, lovedReleases, best)
    requires r in rows && !r.starred && r.mbid.Some?
    ensures r.mbid.value in best && Representative(rows, lovedReleases, r.mbid.value, best[r.mbid.value])
    ensures (r.id in WithoutMbid(rows) || exists m :: m in best && best[m].id == r.id) <==> r == best[r.mbid.value]
  {
    WithoutMbidIds(rows, r.id);
    forall m | m in best && best[m].id == r.id
      ensures best[m] == r && m == r.mbid.value
    {
      assert Representative(rows, lovedReleases, m, best[m]);
    }
  }
}
