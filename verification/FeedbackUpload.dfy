/**
  The upload half of the favourites sync, UpdateSongFeedback of
  listenbrainz/listenbrainz.go: recording MBIDs are looked up for the songs that lack one,
  each (MBID, score) is posted once, and the songs whose post succeeded are recorded.

  The requests are parameters: the reply to a lookup (None when the request fails), and
  which posts ListenBrainz accepts.
 */
module FeedbackUpload {
  import opened Wrappers
  import opened FeedbackTables
  import opened FeedbackSync
  import opened Batches

  const MAX_LOOKUPS_PER_POST := 50

  datatype Feedback = Feedback(id: SongId, mbid: Option<string>, hasArtist: bool, score: Score)

  /** `index` counts within the request. */
  datatype Reply = Reply(index: nat, mbid: Option<string>)

  type Lookup = seq<SongId> -> Option<seq<Reply>>

  // ------------------------------------------------------------------ lookups

  predicate Asked(f: Feedback) {
    f.mbid.None? && f.hasArtist
  }

  /** The indices of the entries a lookup is needed and possible for. */
  function Missing(fs: seq<Feedback>): (r: seq<nat>)
    ensures AskedIndices(fs, r)
  {
    if fs == [] then []
    else
      var n := |fs| - 1;
      Missing(fs[..n]) + if Asked(fs[n]) then [n] else []
  }

  ghost predicate AskedIndices(fs: seq<Feedback>, missing: seq<nat>) {
    && (forall j :: 0 <= j < |missing| ==> missing[j] < |fs| && Asked(fs[missing[j]]))
    && (forall i, j :: 0 <= i < j < |missing| ==> missing[i] < missing[j])
    && (forall i :: 0 <= i < |fs| && Asked(fs[i]) ==> i in missing)
  }

  /** The last MBID among the replies for index `k`. */
  function Answer(replies: seq<Reply>, k: nat): Option<string> {
    if replies == [] then None
    else
      var r := replies[|replies| - 1];
      if r.index == k && r.mbid.Some? then r.mbid else Answer(replies[..|replies| - 1], k)
  }

  /** The answer is the last MBID that the reply gives for the index. */
  lemma {:induction false} AnswerIsLast(replies: seq<Reply>, k: nat)
    ensures Answer(replies, k).None? <==>
            forall i :: 0 <= i < |replies| && replies[i].index == k ==> replies[i].mbid.None?
    ensures Answer(replies, k).Some? ==>
              exists i :: 0 <= i < |replies| && replies[i] == Reply(k, Answer(replies, k))
                          && forall j :: i < j < |replies| && replies[j].index == k ==> replies[j].mbid.None?
  {
    if replies != [] {
      var n := |replies| - 1;
      AnswerIsLast(replies[..n], k);
      var r := replies[n];
      if r.index == k && r.mbid.Some? {
        assert replies[n] == Reply(k, Answer(replies, k));
      } else if Answer(replies, k).Some? {
        var i :| 0 <= i < n && replies[..n][i] == Reply(k, Answer(replies, k))
                 && forall j :: i < j < n && replies[..n][j].index == k ==> replies[..n][j].mbid.None?;
        assert replies[i] == Reply(k, Answer(replies, k));
      }
    }
  }

  /** The songs a lookup is needed and possible for: they have no MBID of their own but an
      artist. */
  function Unknown(songs: map<SongId, Song>, artists: set<SongId>, ids: seq<SongId>): seq<SongId>
    requires forall id :: id in ids ==> id in songs
  {
    if ids == [] then []
    else
      var n := |ids| - 1;
      Unknown(songs, artists, ids[..n]) + if songs[ids[n]].mbid.None? && ids[n] in artists then [ids[n]] else []
  }

  lemma {:induction false} UnknownIs(songs: map<SongId, Song>, artists: set<SongId>, ids: seq<SongId>, id: SongId)
    requires forall id :: id in ids ==> id in songs
    ensures id in Unknown(songs, artists, ids) <==> id in ids && songs[id].mbid.None? && id in artists
  {
    if ids != [] {
      var n := |ids| - 1;
      assert ids == ids[..n] + [ids[n]];
      UnknownIs(songs, artists, ids[..n], id);
    }
  }

  /** The request that song number `j` is part of fails. */
  ghost predicate FailsFor(unknown: seq<SongId>, lookup: Lookup, j: nat) {
    j < |unknown| &&
    var b := j / 50 * 50;
    b <= j && lookup(unknown[b..if |unknown| < b + 50 then |unknown| else b + 50]).None?
  }

  /** The request that song number `j` is part of holds up to fifty songs; its reply gives the
      song this MBID, or none. */
  ghost predicate FoundBy(unknown: seq<SongId>, lookup: Lookup, j: nat, mbid: Option<string>) {
    j < |unknown| &&
    var b := j / 50 * 50;
    b <= j &&
    var reply := lookup(unknown[b..if |unknown| < b + 50 then |unknown| else b + 50]);
    reply.Some? && mbid == Answer(reply.value, j - b)
  }

  /** ListenBrainz answers only about recordings of the request. */
  ghost predicate RepliesInBatch(lookup: Lookup) {
    forall ids: seq<SongId> :: lookup(ids).Some? ==> forall r :: r in lookup(ids).value ==> r.index < |ids|
  }

  function BatchStart(j: nat): nat {
    j / MAX_LOOKUPS_PER_POST * MAX_LOOKUPS_PER_POST
  }

  /** The songs of the request that starts with the missing entry number `b`. */
  function Request(fs: seq<Feedback>, missing: seq<nat>, b: nat): (r: seq<SongId>)
    requires b <= |missing|
    requires forall j :: 0 <= j < |missing| ==> missing[j] < |fs|
    ensures |r| == Min(MAX_LOOKUPS_PER_POST, |missing| - b)
  {
    seq<SongId>(Min(MAX_LOOKUPS_PER_POST, |missing| - b),
    k requires 0 <= k < Min(MAX_LOOKUPS_PER_POST, |missing| - b) => fs[missing[b + k]].id)
  }

  lemma BatchStartOf(b: nat, j: nat)
    requires b % MAX_LOOKUPS_PER_POST == 0 && b <= j < b + MAX_LOOKUPS_PER_POST
    ensures BatchStart(j) == b
  {
  }

  /** The missing entry number `j` has got the answer of the request it was part of. */
  ghost predicate Answered(fs: seq<Feedback>, missing: seq<nat>, after: seq<Feedback>, lookup: Lookup, j: nat)
    requires AskedIndices(fs, missing) && |after| == |fs| && j < |missing|
  {
    var b := BatchStart(j);
    b <= j &&
    var reply := lookup(Request(fs, missing, b));
    reply.Some? && after[missing[j]] == fs[missing[j]].(mbid := Answer(reply.value, j - b))
  }

  /** The first `n` missing entries have their answer, nothing else is touched. */
  ghost predicate LookedUpTo(fs: seq<Feedback>, missing: seq<nat>, after: seq<Feedback>, lookup: Lookup, n: nat)
    requires n <= |missing| && AskedIndices(fs, missing)
  {
    && |after| == |fs|
    && (forall i :: 0 <= i < |fs| && !Asked(fs[i]) ==> after[i] == fs[i])
    && (forall j :: n <= j < |missing| ==> after[missing[j]] == fs[missing[j]])
    && (forall j :: 0 <= j < n ==> Answered(fs, missing, after, lookup, j))
  }

  ghost predicate LookedUp(fs: seq<Feedback>, after: seq<Feedback>, lookup: Lookup) {
    LookedUpTo(fs, Missing(fs), after, lookup, |Missing(fs)|)
  }

  /** A lookup never touches an entry that had an MBID or lacks an artist, and changes only
      the MBID of the others. */
  lemma LookupsWriteOnlyAskedEntries(fs: seq<Feedback>, after: seq<Feedback>, lookup: Lookup, n: nat, i: nat)
    requires n <= |Missing(fs)| && LookedUpTo(fs, Missing(fs), after, lookup, n) && i < |fs|
    ensures fs[i].mbid.Some? || !fs[i].hasArtist ==> after[i] == fs[i]
    ensures after[i] == fs[i].(mbid := after[i].mbid)
  {
    if Asked(fs[i]) {
      var j :| 0 <= j < |Missing(fs)| && Missing(fs)[j] == i;
      if j < n {
        assert Answered(fs, Missing(fs), after, lookup, j);
      }
    }
  }

  /** Writes the answers for one request. */
  method WriteAnswers(feedback: array<Feedback>, missing: seq<nat>, b: nat, n: nat, replies: seq<Reply>)
    requires b + n <= |missing|
    requires forall j :: 0 <= j < |missing| ==> missing[j] < feedback.Length
    requires forall i, j :: 0 <= i < j < |missing| ==> missing[i] < missing[j]
    requires forall r :: r in replies ==> r.index < n
    requires forall j :: b <= j < b + n ==> feedback[missing[j]].mbid.None?
    modifies feedback
    ensures forall j :: b <= j < b + n ==>
                          feedback[missing[j]] == old(feedback[missing[j]]).(mbid := Answer(replies, j - b))
    ensures forall i :: 0 <= i < feedback.Length && i !in missing[b..b + n] ==> feedback[i] == old(feedback[i])
  {
    for x := 0 to |replies|
      invariant forall j :: b <= j < b + n ==>
                              feedback[missing[j]] == old(feedback[missing[j]]).(mbid := Answer(replies[..x], j - b))
      invariant forall i :: 0 <= i < feedback.Length && i !in missing[b..b + n] ==> feedback[i] == old(feedback[i])
    {
      var r := replies[x];
      assert replies[..x + 1][..x] == replies[..x];
      if r.mbid.Some? {
        assert missing[b..b + n][r.index] == missing[b + r.index];
        feedback[missing[b + r.index]] := feedback[missing[b + r.index]].(mbid := r.mbid);
      }
    }
    assert replies[..|replies|] == replies;
  }

  method CollectMissing(feedback: array<Feedback>) returns (missing: seq<nat>)
    ensures missing == Missing(feedback[..])
  {
    missing := [];
    for i := 0 to feedback.Length
      invariant missing == Missing(feedback[..i])
    {
      assert feedback[..i + 1][..i] == feedback[..i];
      if feedback[i].mbid.None? && feedback[i].hasArtist {
        missing := missing + [i];
      }
    }
    assert feedback[..feedback.Length] == feedback[..];
  }

  method BuildRequest(feedback: array<Feedback>, missing: seq<nat>, b: nat) returns (request: seq<SongId>)
    requires b <= |missing|
    requires forall j :: 0 <= j < |missing| ==> missing[j] < feedback.Length
    ensures request == Request(feedback[..], missing, b)
  {
    request := [];
    for k := 0 to Min(MAX_LOOKUPS_PER_POST, |missing| - b)
      invariant request == Request(feedback[..], missing, b)[..k]
    {
      request := request + [feedback[missing[b + k]].id];
    }
  }

  lemma BatchDone(fs: seq<Feedback>, missing: seq<nat>, mid: seq<Feedback>, after: seq<Feedback>, lookup: Lookup,
                  b: nat, n: nat)
    requires AskedIndices(fs, missing)
    requires b + n <= |missing| && b % MAX_LOOKUPS_PER_POST == 0 && n <= MAX_LOOKUPS_PER_POST
    requires LookedUpTo(fs, missing, mid, lookup, b) && lookup(Request(fs, missing, b)).Some? && |after| == |mid|
    requires forall j :: b <= j < b + n ==>
                           after[missing[j]] == mid[missing[j]].(mbid :=
                           Answer(lookup(Request(fs, missing, b)).value, j - b))
    requires forall i :: 0 <= i < |mid| && i !in missing[b..b + n] ==> after[i] == mid[i]
    ensures LookedUpTo(fs, missing, after, lookup, b + n)
  {
    var batch := missing[b..b + n];
    forall j | 0 <= j < |missing| && !(b <= j < b + n)
      ensures after[missing[j]] == mid[missing[j]]
    {
      assert missing[j] !in batch;
    }
    forall j | 0 <= j < b + n
      ensures Answered(fs, missing, after, lookup, j)
    {
      if j < b {
        assert Answered(fs, missing, mid, lookup, j);
      } else {
        BatchStartOf(b, j);
      }
    }
  }

  lemma NothingLookedUp(fs: seq<Feedback>, lookup: Lookup)
    ensures LookedUpTo(fs, Missing(fs), fs, lookup, 0)
  {
  }

  /** The requests up to missing entry number `b` have been made. */
  ghost predicate LookedUpBefore(fs: seq<Feedback>, after: seq<Feedback>, lookup: Lookup, b: nat) {
    && b <= |Missing(fs)| && (b < |Missing(fs)| ==> b % MAX_LOOKUPS_PER_POST == 0)
    && LookedUpTo(fs, Missing(fs), after, lookup, b)
  }

  lemma NextStart(b: nat, count: nat, n: nat)
    requires b % MAX_LOOKUPS_PER_POST == 0 && b < n && count == Min(MAX_LOOKUPS_PER_POST, n - b)
    ensures b < b + count <= n && (b + count < n ==> (b + count) % MAX_LOOKUPS_PER_POST == 0)
  {
  }

  /** One request of the lookup loop. */
  method LookupBatch(feedback: array<Feedback>, missing: seq<nat>, b: nat, lookup: Lookup, ghost fs: seq<Feedback>)
    returns (ok: bool, next: nat)
    requires RepliesInBatch(lookup) && missing == Missing(fs) && b < |missing|
    requires LookedUpBefore(fs, feedback[..], lookup, b)
    modifies feedback
    ensures b < next <= |missing|
    ensures ok ==> LookedUpBefore(fs, feedback[..], lookup, next)
    ensures !ok ==> LookedUpBefore(fs, feedback[..], lookup, b) && lookup(Request(fs, Missing(fs), b)).None?
  {
    var count := Min(MAX_LOOKUPS_PER_POST, |missing| - b);
    NextStart(b, count, |missing|);
    next := b + count;
    var request := BuildRequest(feedback, missing, b);
    assert request == Request(fs, missing, b);
    var reply := lookup(request);
    if reply.None? {
      return false, next;
    }
    ghost var mid := feedback[..];
    WriteAnswers(feedback, missing, b, count, reply.value);
    BatchDone(fs, missing, mid, feedback[..], lookup, b, count);
    ok := true;
  }

  /** Fails with the first request that fails, leaving the answers written before it. */
  method LookupMissing(feedback: array<Feedback>, lookup: Lookup) returns (ok: bool, ghost n: nat)
    requires RepliesInBatch(lookup)
    modifies feedback
    ensures var fs := old(feedback[..]);
            && n <= |Missing(fs)| && LookedUpTo(fs, Missing(fs), feedback[..], lookup, n)
            && (ok ==> n == |Missing(fs)|)
            && (!ok ==> n < |Missing(fs)| && n % MAX_LOOKUPS_PER_POST == 0 && lookup(Request(fs, Missing(fs), n)).None?)
  {
    ghost var fs := feedback[..];
    var missing := CollectMissing(feedback);
    NothingLookedUp(fs, lookup);
    var b := 0;
    while b < |missing|
      invariant LookedUpBefore(fs, feedback[..], lookup, b)
    {
      var next;
      ok, next := LookupBatch(feedback, missing, b, lookup, fs);
      if !ok {
        return false, b;
      }
      b := next;
    }
    return true, b;
  }

  // ------------------------------------------------------------------ posts

  /** The key under which the result of a post is shared. */
  function KeyOf(f: Feedback): (string, Score)
    requires f.mbid.Some?
  {
    (f.mbid.value, f.score)
  }

  /** The distinct keys of the entries, in order of first occurrence. */
  function Keys(fs: seq<Feedback>): seq<(string, Score)> {
    if fs == [] then []
    else
      var n := |fs| - 1;
      var f, rest := fs[n], Keys(fs[..n]);
      if f.mbid.Some? && KeyOf(f) !in rest then rest + [KeyOf(f)] else rest
  }

  /** No key is posted twice, and the keys are those of the entries with a known MBID. */
  lemma {:induction false} KeysAreDistinct(fs: seq<Feedback>)
    ensures forall i, j :: 0 <= i < j < |Keys(fs)| ==> Keys(fs)[i] != Keys(fs)[j]
    ensures forall k :: k in Keys(fs) <==> exists i :: 0 <= i < |fs| && fs[i].mbid.Some? && KeyOf(fs[i]) == k
  {
    if fs != [] {
      var n := |fs| - 1;
      KeysAreDistinct(fs[..n]);
      assert forall k :: k in Keys(fs[..n]) <==> exists i :: 0 <= i < n && fs[i].mbid.Some? && KeyOf(fs[i]) == k;
    }
  }

  /** The posts that ListenBrainz accepts. */
  function Accepted(posts: seq<(string, Score)>, accepts: Accepts): (r: seq<(string, Score)>)
    ensures (forall p :: p in posts ==> accepts(p.0, p.1)) ==> r == posts
  {
    if posts == [] then []
    else
      var n := |posts| - 1;
      assert posts == posts[..n] + [posts[n]];
      if accepts(posts[n].0, posts[n].1) then Accepted(posts[..n], accepts) + [posts[n]]
      else Accepted(posts[..n], accepts)
  }

  /** The songs to record as uploaded, with their recording MBIDs. */
  function Successes(fs: seq<Feedback>, accepts: Accepts): seq<(SongId, string)> {
    if fs == [] then []
    else
      var n := |fs| - 1;
      var f, rest := fs[n], Successes(fs[..n], accepts);
      if f.mbid.Some? && accepts(f.mbid.value, f.score) then rest + [(f.id, f.mbid.value)] else rest
  }

  /** Parameters of an upsert as a map; a later entry wins. */
  function AsMap(params: seq<(SongId, string)>): map<SongId, string> {
    if params == [] then map[]
    else
      var n := |params| - 1;
      AsMap(params[..n])[params[n].0 := params[n].1]
  }

  lemma {:induction false} AsMapKeys(params: seq<(SongId, string)>, id: SongId)
    ensures id in AsMap(params) <==> exists p :: p in params && p.0 == id
  {
    if params != [] {
      var n := |params| - 1;
      assert params == params[..n] + [params[n]];
      AsMapKeys(params[..n], id);
    }
  }

  /** What one more entry adds to the keys and to the songs to record. */
  lemma OneMoreEntry(fs: seq<Feedback>, f: Feedback, accepts: Accepts)
    ensures Keys(fs + [f]) == if f.mbid.Some? && KeyOf(f) !in Keys(fs) then Keys(fs) + [KeyOf(f)] else Keys(fs)
    ensures Successes(fs + [f], accepts) ==
            if f.mbid.Some? && accepts(f.mbid.value, f.score) then Successes(fs, accepts) + [(f.id, f.mbid.value)]
            else Successes(fs, accepts)
  {
    assert (fs + [f])[..|fs|] == fs;
  }

  lemma OneMorePost(posts: seq<(string, Score)>, p: (string, Score), accepts: Accepts)
    ensures Accepted(posts + [p], accepts) == if accepts(p.0, p.1) then Accepted(posts, accepts) + [p]
                                              else Accepted(posts, accepts)
  {
    assert (posts + [p])[..|posts|] == posts;
  }

  ghost predicate DistinctIds(fs: seq<Feedback>) {
    forall i, j :: 0 <= i < j < |fs| ==> fs[i].id != fs[j].id
  }

  lemma OneMoreParam(params: seq<(SongId, string)>, p: (SongId, string))
    ensures AsMap(params + [p]) == AsMap(params)[p.0 := p.1]
  {
    assert (params + [p])[..|params|] == params;
  }

  lemma FreshId(fs: seq<Feedback>, id: SongId, accepts: Accepts)
    requires forall f :: f in fs ==> f.id != id
    ensures id !in AsMap(Successes(fs, accepts))
  {
    SuccessIds(fs, accepts);
    AsMapKeys(Successes(fs, accepts), id);
  }

  lemma {:induction false} RecordedIffAccepted(fs: seq<Feedback>, accepts: Accepts, i: nat)
    requires DistinctIds(fs) && i < |fs|
    ensures var done := AsMap(Successes(fs, accepts));
            && (fs[i].id in done <==> fs[i].mbid.Some? && accepts(fs[i].mbid.value, fs[i].score))
            && (fs[i].id in done ==> done[fs[i].id] == fs[i].mbid.value)
    decreases |fs|
  {
    var init, f := fs[..|fs| - 1], fs[|fs| - 1];
    assert fs == init + [f];
    OneMoreEntry(init, f, accepts);
    FreshId(init, f.id, accepts);
    if f.mbid.Some? {
      OneMoreParam(Successes(init, accepts), (f.id, f.mbid.value));
    }
    if i < |init| {
      RecordedIffAccepted(init, accepts, i);
    }
  }

  /** A song is recorded as uploaded exactly when its MBID is known and the one post for its
      key was accepted, and then with that MBID. */
  lemma RecordedIffPosted(fs: seq<Feedback>, accepts: Accepts, i: nat)
    requires DistinctIds(fs) && i < |fs|
    ensures var done := AsMap(Successes(fs, accepts));
            && (fs[i].id in done <==> fs[i].mbid.Some? && KeyOf(fs[i]) in Accepted(Keys(fs), accepts))
            && (fs[i].id in done ==> done[fs[i].id] == fs[i].mbid.value)
  {
    RecordedIffAccepted(fs, accepts, i);
    KeysAreDistinct(fs);
    if fs[i].mbid.Some? {
      AcceptedKeys(Keys(fs), accepts, KeyOf(fs[i]));
    }
  }

  lemma {:induction false} AcceptedKeys(posts: seq<(string, Score)>, accepts: Accepts, p: (string, Score))
    ensures p in Accepted(posts, accepts) <==> p in posts && accepts(p.0, p.1)
  {
    if posts != [] {
      var n := |posts| - 1;
      assert posts == posts[..n] + [posts[n]];
      AcceptedKeys(posts[..n], accepts, p);
    }
  }

  lemma {:induction false} AcceptedAreDistinct(posts: seq<(string, Score)>, accepts: Accepts)
    requires forall i, j :: 0 <= i < j < |posts| ==> posts[i] != posts[j]
    ensures var r := Accepted(posts, accepts); forall i, j :: 0 <= i < j < |r| ==> r[i] != r[j]
  {
    if posts != [] {
      var n := |posts| - 1;
      assert posts == posts[..n] + [posts[n]];
      AcceptedAreDistinct(posts[..n], accepts);
      AcceptedKeys(posts[..n], accepts, posts[n]);
      assert posts[n] !in posts[..n];
    }
  }

  lemma {:induction false} SuccessIds(fs: seq<Feedback>, accepts: Accepts)
    ensures forall p :: p in Successes(fs, accepts) ==> exists f :: f in fs && f.id == p.0
  {
    if fs != [] {
      var n := |fs| - 1;
      SuccessIds(fs[..n], accepts);
      assert fs == fs[..n] + [fs[n]];
    }
  }
}
