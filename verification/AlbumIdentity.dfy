/**
  Which album of the library a scanned song belongs to (scanner/album_map.go): the albums
  of one name form a list, `findOrCreate` returns the first one that matches or appends a
  new one, and an album takes over the song's tags once in a scan.
 */
module AlbumIdentity {
  import opened Wrappers

  datatype Tags = Tags(
    mbid: Option<string>,
    releaseMBID: Option<string>,
    originalDate: Option<string>,
    releaseDate: Option<string>,
    version: Option<string>,
    recordLabels: seq<string>,
    releaseTypes: seq<string>,
    isCompilation: Option<bool>,
    replayGain: Option<real>,
    replayGainPeak: Option<real>)

  datatype Artist = Artist(id: string, name: string)

  /** `artistIDs` maps the ids to their places. */
  datatype Record = Record(id: string, tags: Tags, artistIDs: map<string, int>, artistNames: seq<string>,
                           updated: bool, folder: int)

  datatype Params = Params(tags: Tags, artists: seq<Artist>, folder: int)

  function ArtistIndex(artists: seq<Artist>): map<string, int> {
    if artists == [] then map[]
    else
      var n := |artists| - 1;
      ArtistIndex(artists[..n])[artists[n].id := n]
  }

  function NamesOf(artists: seq<Artist>): seq<string> {
    if artists == [] then [] else NamesOf(artists[..|artists| - 1]) + [artists[|artists| - 1].name]
  }

  predicate AllListed(ids: map<string, int>, artists: seq<Artist>) {
    forall i :: 0 <= i < |artists| ==> artists[i].id in ids
  }

  predicate SamePlaces(ids: map<string, int>, artists: seq<Artist>) {
    |ids| == |artists| && forall i :: 0 <= i < |artists| ==> artists[i].id in ids && ids[artists[i].id] == i
  }

  /** The chain of comparisons: the first criterion known on both sides decides. */
  predicate SameAlbum(a: Record, p: Params) {
    if a.updated && a.folder != p.folder then false
    else if a.tags.releaseMBID.Some? && p.tags.releaseMBID.Some? then a.tags.releaseMBID == p.tags.releaseMBID
    else if a.tags.mbid.Some? && p.tags.mbid.Some? then a.tags.mbid == p.tags.mbid
    else if |a.artistIDs| > 0 && |p.artists| > 0 then ArtistsMatch(a.artistIDs, p.artists)
    else if a.tags.version.Some? && p.tags.version.Some? then a.tags.version == p.tags.version
    else if a.tags.releaseDate.Some? && p.tags.releaseDate.Some? then a.tags.releaseDate == p.tags.releaseDate
    else if a.tags.originalDate.Some? && p.tags.originalDate.Some? then a.tags.originalDate == p.tags.originalDate
    else true
  }

  /** The place of the first match; the length of the list if there is none. */
  function FirstMatch(list: seq<Record>, p: Params): (i: nat)
    ensures i <= |list|
    ensures forall j :: 0 <= j < i ==> !SameAlbum(list[j], p)
    ensures i < |list| ==> SameAlbum(list[i], p)
  {
    if list == [] then 0
    else if SameAlbum(list[0], p) then 0
    else 1 + FirstMatch(list[1..], p)
  }

  /** The album after its first match in this scan. Artists are replaced only when their ids
      or places differ. */
  function Refreshed(a: Record, p: Params): Record {
    if a.updated then a
    else if SamePlaces(a.artistIDs, p.artists) then a.(tags := p.tags, folder := p.folder, updated := true)
    else Record(a.id, p.tags, ArtistIndex(p.artists), NamesOf(p.artists), true, p.folder)
  }

  /** Whether taking over the tags counts as a change that has to be written. */
  predicate Differs(a: Record, p: Params) {
    a.folder != p.folder || a.tags != p.tags || !SamePlaces(a.artistIDs, p.artists)
  }

  function NewAlbum(id: string, p: Params): Record {
    Record(id, p.tags, ArtistIndex(p.artists), NamesOf(p.artists), true, p.folder)
  }

  /** The list after a successful call; the returned album is at FirstMatch(list, p). */
  function FindOrCreate(list: seq<Record>, p: Params, newId: string): seq<Record> {
    var i := FirstMatch(list, p);
    if i < |list| then list[i := Refreshed(list[i], p)] else list + [NewAlbum(newId, p)]
  }

  // ------------------------------------------------------------------ one call

  /** An updated album is not changed by a call. */
  lemma UpdatedIsFrozen(list: seq<Record>, p: Params, newId: string, j: nat)
    requires j < |list| && list[j].updated
    ensures j < |FindOrCreate(list, p, newId)| && FindOrCreate(list, p, newId)[j] == list[j]
  {
  }

  // ------------------------------------------------------------------ repeating a call

  ghost predicate DistinctArtists(artists: seq<Artist>) {
    forall i, j :: 0 <= i < j < |artists| ==> artists[i].id != artists[j].id
  }

  lemma {:induction false} IndexLists(artists: seq<Artist>)
    ensures AllListed(ArtistIndex(artists), artists)
    ensures forall id :: id in ArtistIndex(artists) ==> exists i :: 0 <= i < |artists| && artists[i].id == id
  {
    if artists != [] {
      var n := |artists| - 1;
      IndexLists(artists[..n]);
      assert forall i :: 0 <= i < n ==> artists[..n][i] == artists[i];
    }
  }

  /** `k` is the last place of an artist. */
  predicate IsLastPlace(artists: seq<Artist>, id: string, k: int) {
    && 0 <= k < |artists| && artists[k].id == id
    && forall j :: k < j < |artists| ==> artists[j].id != id
  }

  /** The index has every artist, under the last place it is named at. */
  lemma {:induction false} IndexIsLast(artists: seq<Artist>)
    ensures forall k :: 0 <= k < |artists| ==> artists[k].id in ArtistIndex(artists)
    ensures forall id :: id in ArtistIndex(artists) ==> IsLastPlace(artists, id, ArtistIndex(artists)[id])
  {
    if artists != [] {
      var n := |artists| - 1;
      IndexIsLast(artists[..n]);
      forall id | id in ArtistIndex(artists)
        ensures IsLastPlace(artists, id, ArtistIndex(artists)[id])
      {
        if id != artists[n].id {
          assert IsLastPlace(artists[..n], id, ArtistIndex(artists[..n])[id]);
        }
      }
    }
  }

  lemma SamePlacesAreLast(ids: map<string, int>, artists: seq<Artist>)
    requires SamePlaces(ids, artists)
    ensures forall id :: id in ids ==> IsLastPlace(artists, id, ids[id])
  {
    FewerIdsThanArtists(artists);
    assert |ids| == |ids.Keys|;
    SubsetOfSameSize(ArtistIds(artists), ids.Keys);
    forall id | id in ids
      ensures IsLastPlace(artists, id, ids[id])
    {
      assert id in ArtistIds(artists);
    }
  }

  lemma {:induction false} NamesAre(artists: seq<Artist>)
    ensures |NamesOf(artists)| == |artists| && forall k :: 0 <= k < |artists| ==> NamesOf(artists)[k] == artists[k].name
  {
    if artists != [] {
      NamesAre(artists[..|artists| - 1]);
    }
  }

  lemma OneMoreDistinct(artists: seq<Artist>, last: Artist)
    ensures DistinctArtists(artists + [last]) <==>
            DistinctArtists(artists) && forall i :: 0 <= i < |artists| ==> artists[i].id != last.id
  {
    var more := artists + [last];
    if DistinctArtists(more) {
      forall i, j | 0 <= i < j < |artists| ensures artists[i].id != artists[j].id {
        assert more[i].id != more[j].id;
      }
      forall i | 0 <= i < |artists| ensures artists[i].id != last.id {
        assert more[i].id != more[|artists|].id;
      }
    }
  }

  /** The index has as many entries as there are artists exactly when their ids are distinct. */
  lemma {:induction false} IndexSize(artists: seq<Artist>)
    ensures |ArtistIndex(artists)| <= |artists|
    ensures |ArtistIndex(artists)| == |artists| <==> DistinctArtists(artists)
  {
    if artists != [] {
      var n := |artists| - 1;
      var init, last := artists[..n], artists[n];
      IndexSize(init);
      IndexLists(init);
      OneMoreDistinct(init, last);
      assert artists == init + [last];
    }
  }

  function ArtistIds(artists: seq<Artist>): set<string> {
    set i | 0 <= i < |artists| :: artists[i].id
  }

  lemma SubsetOfSameSize(a: set<string>, b: set<string>)
    requires a <= b && |a| == |b|
    ensures a == b
  {
    assert |b - a| == 0;
  }

  /** The comparison of the source: the counts are equal and every artist is listed. */
  predicate ArtistsMatch(ids: map<string, int>, artists: seq<Artist>) {
    |ids| == |artists| && AllListed(ids, artists)
  }

  lemma {:induction false} FewerIdsThanArtists(artists: seq<Artist>)
    ensures |ArtistIds(artists)| <= |artists|
    ensures |ArtistIds(artists)| == |artists| <==> DistinctArtists(artists)
  {
    if artists != [] {
      var init, last := artists[..|artists| - 1], artists[|artists| - 1];
      FewerIdsThanArtists(init);
      OneMoreDistinct(init, last);
      assert artists == init + [last];
      OneMoreId(init, last);
    }
  }

  lemma OneMoreId(artists: seq<Artist>, last: Artist)
    ensures ArtistIds(artists + [last]) == ArtistIds(artists) + {last.id}
    ensures last.id in ArtistIds(artists) <==> exists i :: 0 <= i < |artists| && artists[i].id == last.id
  {
    var more := artists + [last];
    forall i | 0 <= i < |artists|
      ensures artists[i].id in ArtistIds(more)
    {
      assert more[i] == artists[i];
    }
    assert more[|artists|] == last;
  }

  /** The comparison is one of the sets of ids exactly when the song names no artist twice,
      or names one that the album does not have, or the album has neither as many artists as
      the song names nor as many as it names different ones. */
  lemma ArtistsCompareAsSetsIff(ids: map<string, int>, artists: seq<Artist>)
    ensures (ArtistsMatch(ids, artists) <==> ids.Keys == ArtistIds(artists)) <==>
            DistinctArtists(artists) || !AllListed(ids, artists)
            || (|ids| != |artists| && |ids| != |ArtistIds(artists)|)
  {
    FewerIdsThanArtists(artists);
    assert |ids| == |ids.Keys|;
    if AllListed(ids, artists) && |ids| == |ArtistIds(artists)| {
      SubsetOfSameSize(ArtistIds(artists), ids.Keys);
    }
  }

  /** A song that names artist x twice matches an album by x and y. */
  lemma RepeatedArtistMatchesOther() returns (ids: map<string, int>, artists: seq<Artist>)
    ensures ids.Keys == {"x", "y"} && ArtistIds(artists) == {"x"} && ArtistsMatch(ids, artists)
  {
    ids, artists := map["x" := 0, "y" := 1], [Artist("x", "X"), Artist("x", "X")];
    assert artists[0].id == "x";
    assert ids.Keys == {"x", "y"};
    assert |ids| == |ids.Keys|;
  }

  /** What one criterion says about an album and a song. */
  datatype Comparison = Unknown | Same | Different

  function Compare<T(==)>(a: Option<T>, b: Option<T>): Comparison {
    if a.None? || b.None? then Unknown else if a == b then Same else Different
  }

  function CompareArtists(ids: map<string, int>, artists: seq<Artist>): Comparison {
    if ids == map[] || artists == [] then Unknown else if ids.Keys == ArtistIds(artists) then Same else Different
  }

  /** In the order of their weight. */
  function Criteria(a: Record, p: Params): seq<Comparison> {
    [Compare(a.tags.releaseMBID, p.tags.releaseMBID), Compare(a.tags.mbid, p.tags.mbid),
     CompareArtists(a.artistIDs, p.artists),
     Compare(a.tags.version, p.tags.version), Compare(a.tags.releaseDate, p.tags.releaseDate),
     Compare(a.tags.originalDate, p.tags.originalDate)]
  }

  /** No criterion says that they differ before one says that they are the same. */
  predicate NotRuledOut(c: seq<Comparison>) {
    forall k :: 0 <= k < |c| && (forall j :: 0 <= j < k ==> c[j].Unknown?) ==> !c[k].Different?
  }

  /** Whether the artists are what the comparison comes to. */
  predicate ComesToArtists(a: Record, p: Params) {
    && (a.updated ==> a.folder == p.folder)
    && Compare(a.tags.releaseMBID, p.tags.releaseMBID).Unknown? && Compare(a.tags.mbid, p.tags.mbid).Unknown?
    && a.artistIDs != map[] && p.artists != []
  }

  /** The first criterion that is known decides; an album about which nothing is known is
      the same. An album updated in this scan is never taken from another music folder. This
      is so exactly unless the comparison comes to the artists and is not one of sets. */
  lemma FirstKnownCriterionDecides(a: Record, p: Params)
    ensures (SameAlbum(a, p) <==> (a.updated ==> a.folder == p.folder) && NotRuledOut(Criteria(a, p))) <==>
            !ComesToArtists(a, p)
            || DistinctArtists(p.artists) || !AllListed(a.artistIDs, p.artists)
            || (|a.artistIDs| != |p.artists| && |a.artistIDs| != |ArtistIds(p.artists)|)
  {
    ArtistsCompareAsSetsIff(a.artistIDs, p.artists);
    if ComesToArtists(a, p) {
      ArtistsDecide(a, p);
    } else {
      OthersDecide(a, p);
    }
  }

  lemma CriteriaAre(a: Record, p: Params)
    ensures var c := Criteria(a, p);
            && c[0] == Compare(a.tags.releaseMBID, p.tags.releaseMBID) && c[1] == Compare(a.tags.mbid, p.tags.mbid)
            && c[2] == CompareArtists(a.artistIDs, p.artists) && c[3] == Compare(a.tags.version, p.tags.version)
            && c[4] == Compare(a.tags.releaseDate, p.tags.releaseDate)
            && c[5] == Compare(a.tags.originalDate, p.tags.originalDate)
  {
  }

  lemma ArtistsDecide(a: Record, p: Params)
    requires ComesToArtists(a, p)
    ensures SameAlbum(a, p) <==> ArtistsMatch(a.artistIDs, p.artists)
    ensures NotRuledOut(Criteria(a, p)) <==> a.artistIDs.Keys == ArtistIds(p.artists)
  {
    CriteriaAre(a, p);
  }

  lemma OthersDecide(a: Record, p: Params)
    requires !ComesToArtists(a, p)
    ensures SameAlbum(a, p) <==> (a.updated ==> a.folder == p.folder) && NotRuledOut(Criteria(a, p))
  {
    CriteriaAre(a, p);
  }

  /** Whether an album that has just taken over the tags is recognised by them. */
  lemma RecognisedAgain(a: Record, p: Params)
    requires a.updated && a.folder == p.folder && a.tags == p.tags
    requires a.artistIDs == ArtistIndex(p.artists) || SamePlaces(a.artistIDs, p.artists)
    ensures SameAlbum(a, p) <==> p.tags.releaseMBID.Some? || p.tags.mbid.Some? || DistinctArtists(p.artists)
  {
    IndexSize(p.artists);
    IndexLists(p.artists);
  }

  /** Immediately repeating a call returns the same album and changes nothing, exactly when
      the album had been updated before, the tags carry an MBID, or the artist ids are
      distinct. In the remaining case the call returns another album. */
  lemma RepeatingACall(list: seq<Record>, p: Params, newId: string, newId': string)
    ensures var i, list' := FirstMatch(list, p), FindOrCreate(list, p, newId);
            var known := (i < |list| && list[i].updated) || p.tags.releaseMBID.Some? || p.tags.mbid.Some?
                         || DistinctArtists(p.artists);
            && (FirstMatch(list', p) == i <==> known)
            && (known ==> FindOrCreate(list', p, newId') == list')
  {
    var i, list' := FirstMatch(list, p), FindOrCreate(list, p, newId);
    assert forall j :: 0 <= j < i ==> list'[j] == list[j];
    if i < |list| && list[i].updated {
      assert list' == list;
    } else {
      RecognisedAgain(list'[i], p);
    }
  }
}
