/**
  SyncSongFeedback for one user (listenbrainz/listenbrainz.go) in imperative form: the
  database tables and the remote loves are updated statement by statement. A successful
  run is proved to be a round of `FeedbackSync`.
 */
module FeedbackAccount {
  import opened Wrappers
  import opened FeedbackTables
  import opened FeedbackSync
  import opened FeedbackUpload
  import opened FeedbackPull
  import opened Batches

  lemma RecordTwice(t: Tables, a: map<SongId, string>, b: map<SongId, string>)
    requires t.Valid() && a.Keys <= t.songs.Keys && b.Keys <= t.songs.Keys
    ensures RecordUploads(RecordUploads(t, a), b) == RecordUploads(t, a + b)
  {
    assert RecordUploads(RecordUploads(t, a), b).status == RecordUploads(t, a + b).status;
  }

  lemma {:induction false} AsMapConcat(a: seq<(SongId, string)>, b: seq<(SongId, string)>)
    ensures AsMap(a + b) == AsMap(a) + AsMap(b)
  {
    if b == [] {
      assert a + b == a;
    } else {
      var n := |b| - 1;
      AsMapConcat(a, b[..n]);
      assert (a + b)[..|a + b| - 1] == a + b[..n];
    }
  }

  /** The remote loves after the accepted posts of the entries. */
  function LovedAfterPosts(loved: set<string>, fs: seq<Feedback>, accepts: Accepts): set<string> {
    PostAll(loved, Accepted(Keys(fs), accepts))
  }

  /** The keys that have been posted, with what came of it. */
  ghost predicate ResultsOf(fs: seq<Feedback>, results: map<(string, Score), bool>, accepts: Accepts) {
    && (forall k :: k in results <==> k in Keys(fs))
    && (forall k :: k in results ==> results[k] == accepts(k.0, k.1))
  }

  lemma OneMoreResult(fs: seq<Feedback>, f: Feedback, results: map<(string, Score), bool>, accepts: Accepts)
    requires ResultsOf(fs, results, accepts)
    ensures f.mbid.None? ==> ResultsOf(fs + [f], results, accepts)
    ensures f.mbid.Some? ==>
              && (KeyOf(f) in results <==> KeyOf(f) in Keys(fs))
              && ResultsOf(fs + [f], if KeyOf(f) in results then results
                           else results[KeyOf(f) := accepts(f.mbid.value, f.score)], accepts)
  {
    OneMoreEntry(fs, f, accepts);
  }

  /** The keys of a batch are keys of the whole. */
  lemma BatchKeys(params: seq<(SongId, string)>, i: nat, j: nat)
    requires i <= j <= |params|
    ensures AsMap(params[i..j]).Keys <= AsMap(params).Keys
  {
    forall id | id in AsMap(params[i..j])
      ensures id in AsMap(params)
    {
      AsMapKeys(params[i..j], id);
      AsMapKeys(params, id);
    }
  }

  class Account {
    var t: Tables
    var loved: set<string>

    constructor (t: Tables, loved: set<string>)
      ensures this.t == t && this.loved == loved
    {
      this.t, this.loved := t, loved;
    }

    /** One request of recording feedback. */
    method Post(p: (string, Score), accepts: Accepts) returns (ok: bool)
      modifies `loved
      ensures ok == accepts(p.0, p.1)
      ensures loved == if ok then PostOne(old(loved), p.0, p.1) else old(loved)
    {
      ok := accepts(p.0, p.1);
      if ok {
        loved := PostOne(loved, p.0, p.1);
      }
    }

    /** Upserts in batches; within one statement no row may be affected twice. */
    method SetLBFeedbackUploaded(params: seq<(SongId, string)>)
      requires t.Valid() && AsMap(params).Keys <= t.songs.Keys
      requires forall i, j :: 0 <= i < j < |params| ==> params[i].0 != params[j].0
      modifies `t
      ensures t == RecordUploads(old(t), AsMap(params)) && t.Valid()
    {
      var i := 0;
      assert RecordUploads(t, map[]).status == t.status;
      while i < |params|
        invariant 0 <= i <= |params|
        invariant AsMap(params[..i]).Keys <= old(t).songs.Keys
        invariant t == RecordUploads(old(t), AsMap(params[..i]))
        decreases |params| - i
      {
        var end := Min(i + EXEC_BATCH_SIZE, |params|);
        BatchKeys(params, i, end);
        BatchKeys(params, 0, end);
        assert params[..i] + params[i..end] == params[..end];
        AsMapConcat(params[..i], params[i..end]);
        RecordTwice(old(t), AsMap(params[..i]), AsMap(params[i..end]));
        t := RecordUploads(t, AsMap(params[i..end]));
        i := end;
      }
      assert params[..|params|] == params;
    }

    /** Posts a key that has no result yet. */
    method PostOnce(key: (string, Score), results: map<(string, Score), bool>, accepts: Accepts)
      returns (r: map<(string, Score), bool>)
      modifies `loved
      ensures r == if key in results then results else results[key := accepts(key.0, key.1)]
      ensures loved == if key !in results && accepts(key.0, key.1) then PostOne(old(loved), key.0, key.1)
                       else old(loved)
    {
      r := results;
      if key !in results {
        var ok := Post(key, accepts);
        r := r[key := ok];
      }
    }

    /** Handles one entry after the entries `fs`; `ok` says that it is to be recorded. */
    method PostEntry(f: Feedback, results: map<(string, Score), bool>, accepts: Accepts, ghost fs: seq<Feedback>,
                     ghost loved0: set<string>)
      returns (r: map<(string, Score), bool>, ok: bool)
      requires ResultsOf(fs, results, accepts) && loved == LovedAfterPosts(loved0, fs, accepts)
      modifies `loved
      ensures ResultsOf(fs + [f], r, accepts) && loved == LovedAfterPosts(loved0, fs + [f], accepts)
      ensures ok <==> f.mbid.Some? && accepts(f.mbid.value, f.score)
    {
      OneMoreResult(fs, f, results, accepts);
      if f.mbid.None? {
        return results, false;
      }
      r := PostOnce((f.mbid.value, f.score), results, accepts);
      ok := r[(f.mbid.value, f.score)];
    }

    /** Posts each key once and collects the songs whose post was accepted. */
    method PostFeedback(fs: seq<Feedback>, accepts: Accepts) returns (done: seq<(SongId, string)>)
      modifies `loved
      ensures done == Successes(fs, accepts)
      ensures loved == LovedAfterPosts(old(loved), fs, accepts)
    {
      done := [];
      var results: map<(string, Score), bool> := map[];
      for i := 0 to |fs|
        invariant done == Successes(fs[..i], accepts)
        invariant ResultsOf(fs[..i], results, accepts)
        invariant loved == LovedAfterPosts(old(loved), fs[..i], accepts)
      {
        var f := fs[i];
        assert fs[..i + 1] == fs[..i] + [f];
        OneMoreEntry(fs[..i], f, accepts);
        var ok;
        results, ok := PostEntry(f, results, accepts, fs[..i], old(loved));
        if ok {
          done := done + [(f.id, f.mbid.value)];
        }
      }
      assert fs[..|fs|] == fs;
    }

    /** None when a lookup fails, and then nothing is posted or recorded. */
    method UpdateSongFeedback(feedback: array<Feedback>, lookup: Lookup, accepts: Accepts) returns (count: Option<nat>)
      requires t.Valid() && RepliesInBatch(lookup) && DistinctIds(feedback[..])
      requires forall f :: f in feedback[..] ==> f.id in t.songs
      modifies this, feedback
      ensures t.Valid()
      ensures count.None? ==> t == old(t) && loved == old(loved) && SomeRequestFails(old(feedback[..]), lookup)
      ensures count.Some? ==>
                && LookedUp(old(feedback[..]), feedback[..], lookup)
                && loved == LovedAfterPosts(old(loved), feedback[..], accepts)
                && old(t).Valid() && AsMap(Successes(feedback[..], accepts)).Keys <= old(t).songs.Keys
                && t == RecordUploads(old(t), AsMap(Successes(feedback[..], accepts)))
                && count.value == |Successes(feedback[..], accepts)|
    {
      ghost var fs := feedback[..];
      var ok, n := LookupMissing(feedback, lookup);
      if !ok {
        assert RequestFails(fs, lookup, n);
        return None;
      }
      SameIds(fs, feedback[..], lookup);
      var done := PostFeedback(feedback[..], accepts);
      SuccessKeys(feedback[..], accepts, t.songs.Keys);
      DistinctSuccesses(feedback[..], accepts);
      SetLBFeedbackUploaded(done);
      count := Some(|done|);
    }

    method UnStarMultiple(ids: seq<SongId>)
      modifies `t
      ensures t == old(t).(starred := old(t).starred - IdSet(ids))
    {
      var i := 0;
      while i < |ids|
        invariant 0 <= i <= |ids| && t == old(t).(starred := old(t).starred - IdSet(ids[..i]))
      {
        var end := Min(i + EXEC_BATCH_SIZE, |ids|);
        assert IdSet(ids[..end]) == IdSet(ids[..i]) + IdSet(ids[i..end]);
        t := t.(starred := t.starred - IdSet(ids[i..end]));
        i := end;
      }
      assert ids[..|ids|] == ids;
    }

    method StarMultiple(ids: seq<SongId>)
      modifies `t
      ensures t == old(t).(starred := old(t).starred + IdSet(ids))
    {
      var i := 0;
      while i < |ids|
        invariant 0 <= i <= |ids| && t == old(t).(starred := old(t).starred + IdSet(ids[..i]))
      {
        var end := Min(i + EXEC_BATCH_SIZE, |ids|);
        assert IdSet(ids[..end]) == IdSet(ids[..i]) + IdSet(ids[i..end]);
        t := t.(starred := t.starred + IdSet(ids[i..end]));
        i := end;
      }
      assert ids[..|ids|] == ids;
    }

    method SetLBFeedbackPulled(ids: seq<SongId>)
      requires t.Valid() && IdSet(ids) <= t.songs.Keys
      modifies `t
      ensures t == RecordPulled(old(t), IdSet(ids)) && t.Valid()
    {
      var i := 0;
      assert RecordPulled(t, {}).status == t.status;
      while i < |ids|
        invariant 0 <= i <= |ids| && IdSet(ids[..i]) <= old(t).songs.Keys
        invariant t == RecordPulled(old(t), IdSet(ids[..i]))
      {
        var end := Min(i + EXEC_BATCH_SIZE, |ids|);
        assert IdSet(ids[i..end]) <= IdSet(ids);
        assert IdSet(ids[..end]) == IdSet(ids[..i]) + IdSet(ids[i..end]);
        PullTwice(old(t), IdSet(ids[..i]), IdSet(ids[i..end]));
        t := RecordPulled(t, IdSet(ids[i..end]));
        i := end;
      }
      assert ids[..|ids|] == ids;
    }

    /** The transaction at the end of a run. */
    method ApplyPull(unstar: seq<SongId>, star: seq<SongId>, pulled: seq<SongId>)
      requires t.Valid() && IdSet(star) <= t.songs.Keys && IdSet(pulled) <= t.songs.Keys
      modifies `t
      ensures t == RecordPulled(UpdateStars(old(t), IdSet(unstar), IdSet(star)), IdSet(pulled)) && t.Valid()
    {
      UnStarMultiple(unstar);
      StarMultiple(star);
      SetLBFeedbackPulled(pulled);
    }

    /** A run for this user. `artists` are the songs with a known artist, `lovedReleases`
        the release MBIDs that came with the remote loves. A run goes through whichever posts
        are accepted, and is a round when all of them are; when a lookup fails it stops after
        its first statement. `order` are the songs to upload in the order of the query. */
    method SyncSongFeedback(artists: set<SongId>, lovedReleases: set<string>, lookup: Lookup, accepts: Accepts)
      returns (ok: bool, ghost order: seq<SongId>)
      requires t.Valid() && RepliesInBatch(lookup)
      modifies this
      ensures t.Valid() && t.songs == old(t).songs
      ensures ok ==> Attempt(World(old(t), old(loved)), accepts, World(t, loved))
      ensures ok && AlwaysAccepts(accepts) ==> Round(World(old(t), old(loved)), World(t, loved))
      ensures ok ==> RecordedAsFound(World(old(t), old(loved)), order, artists, lookup, accepts, t)
      ensures ok ==> StarredAsPreferred(World(old(t), old(loved)), lovedReleases, t)
      ensures !ok ==> t == MarkMatching(old(t), old(loved)) && loved == old(loved)
      ensures !ok ==> SomeLookupFails(World(old(t), old(loved)), order, artists, lookup)
    {
      ghost var w := World(t, loved);
      ok, order := Attempted(artists, lovedReleases, lookup, accepts);
      if ok && AlwaysAccepts(accepts) {
        AcceptedAttemptIsRound(w, accepts, World(t, loved));
      }
    }

    method Attempted(artists: set<SongId>, lovedReleases: set<string>, lookup: Lookup, accepts: Accepts)
      returns (ok: bool, ghost order: seq<SongId>)
      requires t.Valid() && RepliesInBatch(lookup)
      modifies this
      ensures t.Valid() && t.songs == old(t).songs
      ensures ok ==> Attempt(World(old(t), old(loved)), accepts, World(t, loved))
      ensures ok ==> RecordedAsFound(World(old(t), old(loved)), order, artists, lookup, accepts, t)
      ensures ok ==> StarredAsPreferred(World(old(t), old(loved)), lovedReleases, t)
      ensures !ok ==> t == MarkMatching(old(t), old(loved)) && loved == old(loved)
      ensures !ok ==> SomeLookupFails(World(old(t), old(loved)), order, artists, lookup)
    {
      ghost var w := World(t, loved);
      t := MarkMatching(t, loved);
      var upIds := Rows(NotUploadedSet(t, InList(loved)));
      var outIds := Rows(OutdatedSet(t, InList(loved)));
      InIdSet(upIds);
      InIdSet(outIds);
      order := upIds;
      var unstar, star := PlanPull(outIds, lovedReleases);
      ghost var done, posts;
      ok, done, posts := Upload(w, upIds, artists, lookup, accepts);
      if !ok {
        return;
      }
      ApplyPull(unstar, star, outIds);
      ghost var w' := World(t, loved);
      RunIsAttempt(w, w', accepts, done, posts, IdSet(star), IdSet(unstar));
      AllUploadedIffRecorded(w, upIds, artists, lookup, accepts, done, posts, IdSet(star), w');
      NewStarsPreferred(w, lovedReleases, done, posts, IdSet(star), w');
    }

    /** The upload half: `done` are the recorded songs, `posts` the accepted posts. */
    method Upload(ghost w: World, upIds: seq<SongId>, artists: set<SongId>, lookup: Lookup, accepts: Accepts)
      returns (ok: bool, ghost done: map<SongId, string>, ghost posts: seq<(string, Score)>)
      requires w.t.Valid() && t == MarkMatching(w.t, w.loved) && loved == w.loved && t.Valid() && RepliesInBatch(lookup)
      requires IdSet(upIds) == ToUpload(w) && forall i, j :: 0 <= i < j < |upIds| ==> upIds[i] != upIds[j]
      requires forall id :: id in upIds ==> id in t.songs
      modifies this
      ensures !ok ==> t == old(t) && loved == old(loved) && SomeLookupFails(w, upIds, artists, lookup)
      ensures ok ==>
                && done.Keys <= ToUpload(w) && t == RecordUploads(old(t), done) && t.Valid()
                && loved == PostAll(w.loved, posts)
                && Recorded(w.t, ToUpload(w), accepts, done) && PostsOf(w.t.starred, done, posts)
                && FoundAs(w.t, upIds, artists, lookup, accepts, done)
    {
      var feedback := BuildFeedback(upIds, artists);
      ghost var before := feedback[..];
      var count := UpdateSongFeedback(feedback, lookup, accepts);
      done, posts := map[], [];
      if count.None? {
        FailureIsLookups(w, upIds, artists, before, lookup);
        return false, done, posts;
      }
      done, posts := AsMap(Successes(feedback[..], accepts)), Accepted(Keys(feedback[..]), accepts);
      UploadedIds(w, upIds, artists, feedback[..], lookup, accepts);
      ok := true;
    }

    /** The songs to unstar and to star. */
    method PlanPull(ids: seq<SongId>, lovedReleases: set<string>) returns (unstar: seq<SongId>, star: seq<SongId>)
      requires forall id :: id in ids ==> id in t.songs
      requires forall i, j :: 0 <= i < j < |ids| ==> ids[i] != ids[j]
      ensures IdSet(unstar) == IdSet(ids) * t.starred
      ensures IdSet(ids) - t.starred <= t.songs.Keys && OnePerMbid(t.songs, IdSet(ids) - t.starred, IdSet(star))
      ensures Preferred(t.songs, IdSet(ids) - t.starred, lovedReleases, IdSet(star))
    {
      var rows := RowsFor(t.songs, t.starred, ids);
      ghost var best;
      unstar, star, best := ChooseStars(rows, lovedReleases);
      PulledIds(t, ids, rows, lovedReleases, unstar, star, best);
      PulledPreferred(t, ids, rows, lovedReleases, star, best);
    }

    /** The periodic sync, once round its loop for each of `requests`; `ws` are the worlds
        between the runs. Each run goes through or fails, and is a round when its requests
        succeed. `ThreeRunsSettle` says what that means. */
    method PeriodicSync(requests: seq<Requests>) returns (oks: seq<bool>, ghost ws: seq<World>)
      requires t.Valid() && forall r :: r in requests ==> RepliesInBatch(r.lookup)
      modifies this
      ensures t.Valid() && SyncTrace(requests, oks, ws, |requests|)
      ensures ws[0] == World(old(t), old(loved)) && ws[|requests|] == World(t, loved)
    {
      oks, ws := [], [World(t, loved)];
      for i := 0 to |requests|
        invariant t.Valid() && SyncTrace(requests, oks, ws, i)
        invariant ws[0] == World(old(t), old(loved)) && ws[i] == World(t, loved)
      {
        var ok;
        ghost var w;
        ok, w := SyncOnce(requests[i]);
        TraceOneMore(requests, oks, ws, i, ok, w);
        oks, ws := oks + [ok], ws + [w];
      }
    }

    method SyncOnce(r: Requests) returns (ok: bool, ghost w: World)
      requires t.Valid() && RepliesInBatch(r.lookup)
      modifies this
      ensures t.Valid() && w == World(t, loved) && SyncStep(World(old(t), old(loved)), r, ok, w)
    {
      ghost var order;
      ok, order := SyncSongFeedback(r.artists, r.lovedReleases, r.lookup, r.accepts);
      w := World(t, loved);
    }

    method BuildFeedback(ids: seq<SongId>, artists: set<SongId>) returns (feedback: array<Feedback>)
      requires forall id :: id in ids ==> id in t.songs
      ensures fresh(feedback) && feedback[..] == EntriesFor(t.songs, t.starred, artists, ids)
    {
      feedback := new Feedback[|ids|](_ => Feedback(0, None, false, NoScore));
      ghost var entries := EntriesFor(t.songs, t.starred, artists, ids);
      for i := 0 to |ids|
        invariant forall j :: 0 <= j < i ==> feedback[j] == entries[j]
      {
        var id := ids[i];
        feedback[i] := Feedback(id, t.songs[id].mbid, id in artists, ScoreOf(t.starred, id));
      }
    }
  }

  ghost predicate RequestFails(fs: seq<Feedback>, lookup: Lookup, b: nat) {
    b < |Missing(fs)| && b % MAX_LOOKUPS_PER_POST == 0 && lookup(Request(fs, Missing(fs), b)).None?
  }

  ghost predicate SomeRequestFails(fs: seq<Feedback>, lookup: Lookup) {
    exists b: nat :: RequestFails(fs, lookup, b)
  }

  lemma SameIds(fs: seq<Feedback>, after: seq<Feedback>, lookup: Lookup)
    requires LookedUp(fs, after, lookup)
    ensures forall i :: 0 <= i < |fs| ==> after[i].id == fs[i].id
  {
    forall i | 0 <= i < |fs|
      ensures after[i].id == fs[i].id
    {
      LookupsWriteOnlyAskedEntries(fs, after, lookup, |Missing(fs)|, i);
    }
  }

  lemma SuccessKeys(fs: seq<Feedback>, accepts: Accepts, ids: set<SongId>)
    requires forall f :: f in fs ==> f.id in ids
    ensures AsMap(Successes(fs, accepts)).Keys <= ids
  {
    SuccessIds(fs, accepts);
    forall id | id in AsMap(Successes(fs, accepts))
      ensures id in ids
    {
      AsMapKeys(Successes(fs, accepts), id);
    }
  }

  lemma {:induction false} DistinctSuccesses(fs: seq<Feedback>, accepts: Accepts)
    requires DistinctIds(fs)
    ensures forall i, j :: 0 <= i < j < |Successes(fs, accepts)| ==>
                             Successes(fs, accepts)[i].0 != Successes(fs, accepts)[j].0
  {
    if fs != [] {
      var n := |fs| - 1;
      DistinctSuccesses(fs[..n], accepts);
      SuccessIds(fs[..n], accepts);
    }
  }

  function IdSet(ids: seq<SongId>): set<SongId> {
    set id | id in ids
  }

  lemma PullTwice(t: Tables, a: set<SongId>, b: set<SongId>)
    requires t.Valid() && a <= t.songs.Keys && b <= t.songs.Keys
    ensures RecordPulled(RecordPulled(t, a), b) == RecordPulled(t, a + b)
  {
    assert RecordPulled(RecordPulled(t, a), b).status == RecordPulled(t, a + b).status;
  }

  lemma InIdSet(ids: seq<SongId>)
    ensures forall id :: id in ids <==> id in IdSet(ids)
  {
  }

  lemma RunIsAttempt(w: World, w': World, accepts: Accepts, mbids: map<SongId, string>, posts: seq<(string, Score)>,
                     star: set<SongId>, unstar: set<SongId>)
    requires w.t.Valid()
    requires var t1, l := MarkMatching(w.t, w.loved), InList(w.loved);
             && mbids.Keys <= NotUploadedSet(t1, l)
             && Recorded(w.t, NotUploadedSet(t1, l), accepts, mbids)
             && PostsOf(w.t.starred, mbids, posts)
             && OutdatedSet(t1, l) - w.t.starred <= w.t.songs.Keys
             && OnePerMbid(w.t.songs, OutdatedSet(t1, l) - w.t.starred, star)
             && unstar == OutdatedSet(t1, l) * w.t.starred
             && w' == World(RecordPulled(UpdateStars(RecordUploads(t1, mbids), unstar, star), OutdatedSet(t1, l)),
                            PostAll(w.loved, posts))
    ensures Attempt(w, accepts, w')
  {
    assert AttemptBy(w, accepts, mbids, posts, star, w');
  }

  /** What the outside world answers to one run. */
  datatype Requests = Requests(artists: set<SongId>, lovedReleases: set<string>, lookup: Lookup, accepts: Accepts)

  ghost predicate Succeeded(r: Requests, ok: bool) {
    ok && AlwaysAccepts(r.accepts)
  }

  /** One run: a round if its requests succeed. */
  ghost predicate SyncStep(w: World, r: Requests, ok: bool, w': World) {
    Ran(w, w') && (Succeeded(r, ok) ==> Round(w, w'))
  }

  ghost predicate StepAt(requests: seq<Requests>, oks: seq<bool>, ws: seq<World>, k: nat) {
    && k < |requests| && k < |oks| && k + 1 < |ws|
    && SyncStep(ws[k], requests[k], oks[k], ws[k + 1])
  }

  /** `ws` are the worlds before, between and after the first `n` runs. */
  ghost predicate SyncTrace(requests: seq<Requests>, oks: seq<bool>, ws: seq<World>, n: nat) {
    && n <= |requests| && |oks| == n && |ws| == n + 1
    && forall k {:trigger StepAt(requests, oks, ws, k)} :: 0 <= k < n ==> StepAt(requests, oks, ws, k)
  }

  lemma TraceOneMore(requests: seq<Requests>, oks: seq<bool>, ws: seq<World>, n: nat, ok: bool, w: World)
    requires SyncTrace(requests, oks, ws, n) && n < |requests| && SyncStep(ws[n], requests[n], ok, w)
    ensures SyncTrace(requests, oks + [ok], ws + [w], n + 1)
  {
    forall k | 0 <= k < n + 1
      ensures StepAt(requests, oks + [ok], ws + [w], k)
    {
      assert k < n ==> StepAt(requests, oks, ws, k);
    }
  }

  lemma {:induction false} TraceRuns(requests: seq<Requests>, oks: seq<bool>, ws: seq<World>, k: nat)
    requires SyncTrace(requests, oks, ws, |requests|) && k <= |requests|
    ensures Runs(k, ws[0], ws[k])
  {
    if k > 0 {
      TraceRuns(requests, oks, ws, k - 1);
      assert StepAt(requests, oks, ws, k - 1);
    }
  }

  lemma {:induction false} TraceRounds(requests: seq<Requests>, oks: seq<bool>, ws: seq<World>, i: nat, n: nat)
    requires SyncTrace(requests, oks, ws, |requests|) && i + n <= |requests|
    requires forall k :: i <= k < i + n ==> Succeeded(requests[k], oks[k])
    ensures Rounds(n, ws[i], ws[i + n])
  {
    if n > 0 {
      TraceRounds(requests, oks, ws, i, n - 1);
      assert StepAt(requests, oks, ws, i + n - 1);
    }
  }

  /** Whatever has happened before, once three runs in a row or more have gone through with
      every post accepted, stars and remote loves agree as the verdict on the world before
      them says. */
  lemma ThreeRunsSettle(requests: seq<Requests>, oks: seq<bool>, ws: seq<World>, i: nat, n: nat)
    requires SyncTrace(requests, oks, ws, |requests|) && n >= 3 && i + n <= |requests|
    requires forall k :: i <= k < i + n ==> Succeeded(requests[k], oks[k])
    requires Clean(ws[0])
    ensures SettledAsJudged(ws[i], ws[i + n])
  {
    TraceRuns(requests, oks, ws, i);
    TraceRounds(requests, oks, ws, i, n);
    RecoveryAfterTrouble(i, n, ws[0], ws[i], ws[i + n]);
  }

  function EntriesFor(songs: map<SongId, Song>, starred: set<SongId>, artists: set<SongId>,
                      ids: seq<SongId>): (r: seq<Feedback>)
    requires forall id :: id in ids ==> id in songs
    ensures |r| == |ids|
    ensures forall i :: 0 <= i < |ids| ==>
                          r[i] == Feedback(ids[i], songs[ids[i]].mbid, ids[i] in artists, ScoreOf(starred, ids[i]))
  {
    if ids == [] then []
    else [Feedback(ids[0], songs[ids[0]].mbid, ids[0] in artists, ScoreOf(starred, ids[0]))]
         + EntriesFor(songs, starred, artists, ids[1..])
  }

  function RowsFor(songs: map<SongId, Song>, starred: set<SongId>, ids: seq<SongId>): (r: seq<Row>)
    requires forall id :: id in ids ==> id in songs
    ensures |r| == |ids|
    ensures forall i :: 0 <= i < |ids| ==>
                          r[i] == Row(ids[i], ids[i] in starred, songs[ids[i]].mbid, songs[ids[i]].release)
  {
    if ids == [] then []
    else [Row(ids[0], ids[0] in starred, songs[ids[0]].mbid, songs[ids[0]].release)] + RowsFor(songs, starred, ids[1..])
  }

  /** An entry is recorded exactly when its MBID is known and its post was accepted. */
  lemma EntriesRecorded(t: Tables, ids: seq<SongId>, artists: set<SongId>, fs: seq<Feedback>, lookup: Lookup,
                        accepts: Accepts)
    requires forall id :: id in ids ==> id in t.songs
    requires forall i, j :: 0 <= i < j < |ids| ==> ids[i] != ids[j]
    requires LookedUp(EntriesFor(t.songs, t.starred, artists, ids), fs, lookup)
    ensures |fs| == |ids|
    ensures var mbids := AsMap(Successes(fs, accepts));
            forall i :: 0 <= i < |ids| ==>
                          && fs[i].id == ids[i] && fs[i].score == ScoreOf(t.starred, ids[i])
                          && (t.songs[ids[i]].mbid.Some? ==> fs[i].mbid == t.songs[ids[i]].mbid)
                          && (ids[i] in mbids <==> fs[i].mbid.Some? && accepts(fs[i].mbid.value, fs[i].score))
                          && (ids[i] in mbids ==> mbids[ids[i]] == fs[i].mbid.value)
  {
    var before := EntriesFor(t.songs, t.starred, artists, ids);
    forall i | 0 <= i < |ids|
      ensures fs[i].id == ids[i] && fs[i].score == ScoreOf(t.starred, ids[i])
      ensures t.songs[ids[i]].mbid.Some? ==> fs[i].mbid == t.songs[ids[i]].mbid
    {
      LookupsWriteOnlyAskedEntries(before, fs, lookup, |Missing(before)|, i);
    }
    forall i | 0 <= i < |ids|
      ensures var mbids := AsMap(Successes(fs, accepts));
              && (ids[i] in mbids <==> fs[i].mbid.Some? && accepts(fs[i].mbid.value, fs[i].score))
              && (ids[i] in mbids ==> mbids[ids[i]] == fs[i].mbid.value)
    {
      RecordedIffAccepted(fs, accepts, i);
    }
  }

  /** The recorded songs and the accepted posts are those of an attempt. */
  lemma UploadedIds(w: World, ids: seq<SongId>, artists: set<SongId>, fs: seq<Feedback>, lookup: Lookup,
                    accepts: Accepts)
    requires w.t.Valid() && IdSet(ids) <= w.t.songs.Keys && forall id :: id in ids ==> id in w.t.songs
    requires forall i, j :: 0 <= i < j < |ids| ==> ids[i] != ids[j]
    requires LookedUp(EntriesFor(w.t.songs, w.t.starred, artists, ids), fs, lookup)
    ensures AsMap(Successes(fs, accepts)).Keys <= IdSet(ids)
    ensures Recorded(w.t, IdSet(ids), accepts, AsMap(Successes(fs, accepts)))
    ensures PostsOf(w.t.starred, AsMap(Successes(fs, accepts)), Accepted(Keys(fs), accepts))
    ensures FoundAs(w.t, ids, artists, lookup, accepts, AsMap(Successes(fs, accepts)))
  {
    AllFound(w.t, ids, artists, fs, lookup, accepts);
    var mbids := AsMap(Successes(fs, accepts));
    EntriesRecorded(w.t, ids, artists, fs, lookup, accepts);
    assert forall f :: f in fs ==> f.id in IdSet(ids);
    SuccessKeys(fs, accepts, IdSet(ids));
    forall id | id in mbids
      ensures accepts(mbids[id], ScoreOf(w.t.starred, id))
    {
      var i :| 0 <= i < |ids| && ids[i] == id;
    }
    AcceptedPosts(w.t.starred, ids, fs, mbids, accepts);
  }

  lemma AcceptedPosts(starred: set<SongId>, ids: seq<SongId>, fs: seq<Feedback>, mbids: map<SongId, string>,
                      accepts: Accepts)
    requires |fs| == |ids| && mbids.Keys <= IdSet(ids)
    requires forall i :: 0 <= i < |ids| ==>
                           && fs[i].score == ScoreOf(starred, ids[i])
                           && (ids[i] in mbids <==> fs[i].mbid.Some? && accepts(fs[i].mbid.value, fs[i].score))
                           && (ids[i] in mbids ==> mbids[ids[i]] == fs[i].mbid.value)
    ensures PostsOf(starred, mbids, Accepted(Keys(fs), accepts))
  {
    KeysAreDistinct(fs);
    AcceptedAreDistinct(Keys(fs), accepts);
    forall id | id in mbids
      ensures (mbids[id], ScoreOf(starred, id)) in Accepted(Keys(fs), accepts)
    {
      var i :| 0 <= i < |ids| && ids[i] == id;
      assert KeyOf(fs[i]) == (mbids[id], ScoreOf(starred, id));
      AcceptedKeys(Keys(fs), accepts, KeyOf(fs[i]));
    }
    forall p | p in Accepted(Keys(fs), accepts)
      ensures exists id :: id in mbids && p == (mbids[id], ScoreOf(starred, id))
    {
      AcceptedKeys(Keys(fs), accepts, p);
      var i :| 0 <= i < |fs| && fs[i].mbid.Some? && KeyOf(fs[i]) == p;
      assert ids[i] in mbids;
    }
  }

  // ------------------------------------------------------------------ looked-up songs

  /** The entries are those of the songs, and asked about where a lookup is possible. */
  ghost predicate EntriesOf(songs: map<SongId, Song>, artists: set<SongId>, ids: seq<SongId>, fs: seq<Feedback>) {
    |fs| == |ids| && forall i :: 0 <= i < |ids| ==>
                                   ids[i] in songs && fs[i].id == ids[i]
                                   && (Asked(fs[i]) <==> songs[ids[i]].mbid.None? && ids[i] in artists)
  }

  /** The songs looked up are the missing entries, in the same order. */
  ghost predicate SameOrder(ids: seq<SongId>, missing: seq<nat>, unknown: seq<SongId>) {
    |unknown| == |missing| && forall j :: 0 <= j < |missing| ==> missing[j] < |ids| && unknown[j] == ids[missing[j]]
  }

  lemma {:induction false} UnknownAreMissing(songs: map<SongId, Song>, artists: set<SongId>, ids: seq<SongId>,
                                             fs: seq<Feedback>)
    requires (forall id :: id in ids ==> id in songs) && EntriesOf(songs, artists, ids, fs)
    ensures SameOrder(ids, Missing(fs), Unknown(songs, artists, ids))
  {
    if ids != [] {
      var n := |ids| - 1;
      var ids', id, fs', f := ids[..n], ids[n], fs[..n], fs[n];
      assert ids == ids' + [id] && fs == fs' + [f];
      UnknownAreMissing(songs, artists, ids', fs');
    }
  }

  lemma RequestIsSlice(ids: seq<SongId>, fs: seq<Feedback>, missing: seq<nat>, unknown: seq<SongId>, b: nat)
    requires SameOrder(ids, missing, unknown) && |fs| == |ids| && b <= |missing|
    requires forall i :: 0 <= i < |ids| ==> fs[i].id == ids[i]
    ensures Request(fs, missing, b) == unknown[b..if |unknown| < b + 50 then |unknown| else b + 50]
  {
    var request, end := Request(fs, missing, b), if |unknown| < b + 50 then |unknown| else b + 50;
    forall k | 0 <= k < end - b
      ensures request[k] == unknown[b..end][k]
    {
      assert request[k] == fs[missing[b + k]].id;
    }
  }

  lemma AnswerIsFound(ids: seq<SongId>, fs: seq<Feedback>, unknown: seq<SongId>, after: seq<Feedback>, lookup: Lookup,
                      j: nat)
    requires SameOrder(ids, Missing(fs), unknown) && |fs| == |ids| == |after| && j < |unknown|
    requires forall i :: 0 <= i < |ids| ==> fs[i].id == ids[i]
    requires Answered(fs, Missing(fs), after, lookup, j)
    ensures Missing(fs)[j] < |after| && FoundBy(unknown, lookup, j, after[Missing(fs)[j]].mbid)
  {
    var b := BatchStart(j);
    assert b == j / 50 * 50;
    RequestIsSlice(ids, fs, Missing(fs), unknown, b);
  }

  lemma AskedIsMissing(fs: seq<Feedback>, after: seq<Feedback>, lookup: Lookup, i: nat) returns (j: nat)
    requires LookedUp(fs, after, lookup) && i < |fs| && Asked(fs[i])
    ensures |after| == |fs| && j < |Missing(fs)| && Missing(fs)[j] == i && Answered(fs, Missing(fs), after, lookup, j)
  {
    assert i in Missing(fs);
    j :| 0 <= j < |Missing(fs)| && Missing(fs)[j] == i;
  }

  /** An entry without an MBID of its own has what the reply to its request gave, or none. */
  lemma FoundIs(t: Tables, ids: seq<SongId>, artists: set<SongId>, fs: seq<Feedback>, lookup: Lookup, i: nat)
    returns (j: nat)
    requires forall id :: id in ids ==> id in t.songs
    requires LookedUp(EntriesFor(t.songs, t.starred, artists, ids), fs, lookup)
    requires i < |ids| && t.songs[ids[i]].mbid.None?
    ensures i < |fs|
    ensures ids[i] !in artists ==> fs[i].mbid.None?
    ensures ids[i] in artists ==>
              var unknown := Unknown(t.songs, artists, ids);
              j < |unknown| && unknown[j] == ids[i] && FoundBy(unknown, lookup, j, fs[i].mbid)
  {
    j := 0;
    var before := EntriesFor(t.songs, t.starred, artists, ids);
    if ids[i] in artists {
      j := AskedIsMissing(before, fs, lookup, i);
      UnknownAreMissing(t.songs, artists, ids, before);
      AnswerIsFound(ids, before, Unknown(t.songs, artists, ids), fs, lookup, j);
    }
  }

  lemma {:induction false} UnknownDistinct(songs: map<SongId, Song>, artists: set<SongId>, ids: seq<SongId>)
    requires forall id :: id in ids ==> id in songs
    requires forall i, j :: 0 <= i < j < |ids| ==> ids[i] != ids[j]
    ensures var u := Unknown(songs, artists, ids); forall i, j :: 0 <= i < j < |u| ==> u[i] != u[j]
  {
    if ids != [] {
      var n := |ids| - 1;
      UnknownDistinct(songs, artists, ids[..n]);
      UnknownIs(songs, artists, ids[..n], ids[n]);
      assert ids[n] !in ids[..n];
    }
  }

  /** Of the songs to upload without an MBID of their own, those are recorded that have an
      artist, whose request found an MBID, and whose post was accepted; with that MBID. */
  ghost predicate FoundAs(t: Tables, ids: seq<SongId>, artists: set<SongId>, lookup: Lookup, accepts: Accepts,
                          done: map<SongId, string>)
    requires forall id :: id in ids ==> id in t.songs
  {
    var unknown := Unknown(t.songs, artists, ids);
    && (forall id :: id in ids && t.songs[id].mbid.None? && id !in artists ==> id !in done)
    && (forall j :: 0 <= j < |unknown| ==> !FailsFor(unknown, lookup, j))
    && forall j, m :: 0 <= j < |unknown| && FoundBy(unknown, lookup, j, m) ==>
                        && (unknown[j] in done <==> m.Some? && accepts(m.value, ScoreOf(t.starred, unknown[j])))
                        && (unknown[j] in done ==> done[unknown[j]] == m.value)
  }

  lemma AllFound(t: Tables, ids: seq<SongId>, artists: set<SongId>, fs: seq<Feedback>, lookup: Lookup, accepts: Accepts)
    requires forall id :: id in ids ==> id in t.songs
    requires forall i, j :: 0 <= i < j < |ids| ==> ids[i] != ids[j]
    requires LookedUp(EntriesFor(t.songs, t.starred, artists, ids), fs, lookup)
    ensures FoundAs(t, ids, artists, lookup, accepts, AsMap(Successes(fs, accepts)))
  {
    var unknown, done := Unknown(t.songs, artists, ids), AsMap(Successes(fs, accepts));
    forall id | id in ids && t.songs[id].mbid.None? && id !in artists
      ensures id !in done
    {
      var i :| 0 <= i < |ids| && ids[i] == id;
      EntryRecorded(t, ids, artists, fs, lookup, accepts, i);
      var j := FoundIs(t, ids, artists, fs, lookup, i);
    }
    forall j | 0 <= j < |unknown|
      ensures !FailsFor(unknown, lookup, j)
    {
      var m := SomeFound(t, ids, artists, fs, lookup, j);
    }
    forall j, m | 0 <= j < |unknown| && FoundBy(unknown, lookup, j, m)
      ensures unknown[j] in done <==> m.Some? && accepts(m.value, ScoreOf(t.starred, unknown[j]))
      ensures unknown[j] in done ==> done[unknown[j]] == m.value
    {
      OneFound(t, ids, artists, fs, lookup, accepts, j, m);
    }
  }

  lemma EntryRecorded(t: Tables, ids: seq<SongId>, artists: set<SongId>, fs: seq<Feedback>, lookup: Lookup,
                      accepts: Accepts, i: nat)
    requires forall id :: id in ids ==> id in t.songs
    requires forall i, j :: 0 <= i < j < |ids| ==> ids[i] != ids[j]
    requires LookedUp(EntriesFor(t.songs, t.starred, artists, ids), fs, lookup) && i < |ids|
    ensures |fs| == |ids|
    ensures var mbids := AsMap(Successes(fs, accepts));
            && (ids[i] in mbids <==> fs[i].mbid.Some? && accepts(fs[i].mbid.value, ScoreOf(t.starred, ids[i])))
            && (ids[i] in mbids ==> mbids[ids[i]] == fs[i].mbid.value)
  {
    EntriesRecorded(t, ids, artists, fs, lookup, accepts);
  }

  lemma SomeFound(t: Tables, ids: seq<SongId>, artists: set<SongId>, fs: seq<Feedback>, lookup: Lookup, j: nat)
    returns (m: Option<string>)
    requires forall id :: id in ids ==> id in t.songs
    requires forall i, j :: 0 <= i < j < |ids| ==> ids[i] != ids[j]
    requires LookedUp(EntriesFor(t.songs, t.starred, artists, ids), fs, lookup)
    requires j < |Unknown(t.songs, artists, ids)|
    ensures FoundBy(Unknown(t.songs, artists, ids), lookup, j, m)
  {
    var unknown := Unknown(t.songs, artists, ids);
    UnknownDistinct(t.songs, artists, ids);
    UnknownIs(t.songs, artists, ids, unknown[j]);
    var i :| 0 <= i < |ids| && ids[i] == unknown[j];
    var k := FoundIs(t, ids, artists, fs, lookup, i);
    m := fs[i].mbid;
  }

  lemma OneFound(t: Tables, ids: seq<SongId>, artists: set<SongId>, fs: seq<Feedback>, lookup: Lookup,
                 accepts: Accepts, j: nat, m: Option<string>)
    requires forall id :: id in ids ==> id in t.songs
    requires forall i, j :: 0 <= i < j < |ids| ==> ids[i] != ids[j]
    requires LookedUp(EntriesFor(t.songs, t.starred, artists, ids), fs, lookup)
    requires j < |Unknown(t.songs, artists, ids)| && FoundBy(Unknown(t.songs, artists, ids), lookup, j, m)
    ensures var id, done := Unknown(t.songs, artists, ids)[j], AsMap(Successes(fs, accepts));
            && (id in done <==> m.Some? && accepts(m.value, ScoreOf(t.starred, id)))
            && (id in done ==> done[id] == m.value)
  {
    var unknown := Unknown(t.songs, artists, ids);
    UnknownDistinct(t.songs, artists, ids);
    UnknownIs(t.songs, artists, ids, unknown[j]);
    var i :| 0 <= i < |ids| && ids[i] == unknown[j];
    var k := FoundIs(t, ids, artists, fs, lookup, i);
    assert k == j;
    EntryRecorded(t, ids, artists, fs, lookup, accepts, i);
  }

  /** A lookup of the run fails. */
  ghost predicate SomeLookupFails(w: World, order: seq<SongId>, artists: set<SongId>, lookup: Lookup)
    requires w.t.Valid()
  {
    && IdSet(order) == ToUpload(w) && (forall id :: id in order ==> id in w.t.songs)
    && exists j: nat :: FailsFor(Unknown(w.t.songs, artists, order), lookup, j)
  }

  lemma FailureIsLookups(w: World, order: seq<SongId>, artists: set<SongId>, fs: seq<Feedback>, lookup: Lookup)
    requires w.t.Valid() && IdSet(order) == ToUpload(w) && forall id :: id in order ==> id in w.t.songs
    requires fs == EntriesFor(w.t.songs, w.t.starred, artists, order) && SomeRequestFails(fs, lookup)
    ensures SomeLookupFails(w, order, artists, lookup)
  {
    var b: nat :| RequestFails(fs, lookup, b);
    UnknownAreMissing(w.t.songs, artists, order, fs);
    var unknown := Unknown(w.t.songs, artists, order);
    RequestIsSlice(order, fs, Missing(fs), unknown, b);
    assert FailsFor(unknown, lookup, b);
  }

  /** The same of the tables after the run: `order` are the songs to upload in some order. */
  ghost predicate RecordedAsFound(w: World, order: seq<SongId>, artists: set<SongId>, lookup: Lookup, accepts: Accepts,
                                  t': Tables)
    requires w.t.Valid()
  {
    && IdSet(order) == ToUpload(w) && (forall i, j :: 0 <= i < j < |order| ==> order[i] != order[j])
    && (forall id :: id in order ==> id in w.t.songs)
    && var unknown := Unknown(w.t.songs, artists, order);
    && (forall id :: id in order && w.t.songs[id].mbid.None? && id !in artists ==> !Uploaded(t', id))
    && (forall j :: 0 <= j < |unknown| ==> !FailsFor(unknown, lookup, j))
    && forall j, m :: 0 <= j < |unknown| && FoundBy(unknown, lookup, j, m) ==>
                        && (Uploaded(t', unknown[j]) <==> m.Some? && accepts(m.value, ScoreOf(w.t.starred, unknown[j])))
                        && (Uploaded(t', unknown[j]) ==> t'.status[unknown[j]].remote == m)
  }

  /** A song to upload is marked as uploaded afterwards exactly when it was recorded. */
  lemma UploadedIffRecorded(w: World, mbids: map<SongId, string>, posts: seq<(string, Score)>, chosen: set<SongId>,
                            w': World, id: SongId)
    requires w.t.Valid() && Effect(w, mbids, posts, chosen, w') && id in ToUpload(w)
    ensures Uploaded(w'.t, id) <==> id in mbids
    ensures id in mbids ==> w'.t.status[id].remote == Some(mbids[id])
  {
    UploadAndPullAreDisjoint(MarkMatching(w.t, w.loved), InList(w.loved));
  }

  lemma AllUploadedIffRecorded(w: World, order: seq<SongId>, artists: set<SongId>, lookup: Lookup, accepts: Accepts,
                               done: map<SongId, string>, posts: seq<(string, Score)>, chosen: set<SongId>, w': World)
    requires w.t.Valid() && Effect(w, done, posts, chosen, w')
    requires IdSet(order) == ToUpload(w) && forall i, j :: 0 <= i < j < |order| ==> order[i] != order[j]
    requires (forall id :: id in order ==> id in w.t.songs) && FoundAs(w.t, order, artists, lookup, accepts, done)
    ensures RecordedAsFound(w, order, artists, lookup, accepts, w'.t)
  {
    forall id | id in order
      ensures Uploaded(w'.t, id) <==> id in done
      ensures id in done ==> w'.t.status[id].remote == Some(done[id])
    {
      assert id in IdSet(order);
      UploadedIffRecorded(w, done, posts, chosen, w', id);
    }
    forall id | id in Unknown(w.t.songs, artists, order)
      ensures id in order
    {
      UnknownIs(w.t.songs, artists, order, id);
    }
  }

  // ------------------------------------------------------------------ newly starred songs

  /** The newly starred songs are preferred among the unstarred ones of the outdated query. */
  ghost predicate StarredAsPreferred(w: World, lovedReleases: set<string>, t': Tables)
    requires w.t.Valid()
  {
    var candidates := OutdatedSet(MarkMatching(w.t, w.loved), InList(w.loved)) - w.t.starred;
    && t'.starred - w.t.starred <= candidates <= w.t.songs.Keys
    && OnePerMbid(w.t.songs, candidates, t'.starred - w.t.starred)
    && Preferred(w.t.songs, candidates, lovedReleases, t'.starred - w.t.starred)
  }

  lemma NewStarsPreferred(w: World, lovedReleases: set<string>, mbids: map<SongId, string>, posts: seq<(string, Score)>,
                          chosen: set<SongId>, w': World)
    requires w.t.Valid() && Effect(w, mbids, posts, chosen, w') && chosen <= w.t.songs.Keys
    requires Preferred(w.t.songs, OutdatedSet(MarkMatching(w.t, w.loved), InList(w.loved)) - w.t.starred, lovedReleases,
                       chosen)
    ensures StarredAsPreferred(w, lovedReleases, w'.t)
  {
    assert w'.t.starred - w.t.starred == chosen;
  }

  lemma PulledPreferred(t: Tables, ids: seq<SongId>, rows: seq<Row>, lovedReleases: set<string>, star: seq<SongId>,
                        best: map<string, Row>)
    requires forall id :: id in ids ==> id in t.songs
    requires rows == RowsFor(t.songs, t.starred, ids) && Chosen(rows, lovedReleases, best)
    requires forall id :: id in star <==> id in WithoutMbid(rows) || exists m :: m in best && best[m].id == id
    requires IdSet(star) <= IdSet(ids) - t.starred <= t.songs.Keys
    ensures Preferred(t.songs, IdSet(ids) - t.starred, lovedReleases, IdSet(star))
  {
    UnmatchedPulled(t.songs, t.starred, ids);
    RepresentativesPulled(t.songs, t.starred, ids, lovedReleases, best);
    forall id, j | id in IdSet(star) && j in IdSet(ids) - t.starred
                   && t.songs[j].mbid.Some? && t.songs[j].mbid == t.songs[id].mbid
      ensures IsIn(t.songs[j].release, lovedReleases) ==> IsIn(t.songs[id].release, lovedReleases)
      ensures !IsIn(t.songs[id].release, lovedReleases) ==> id <= j
    {
      BestIsPreferred(t, ids, rows, lovedReleases, best, id, j);
    }
  }

  lemma BestIsPreferred(t: Tables, ids: seq<SongId>, rows: seq<Row>, lovedReleases: set<string>, best: map<string, Row>,
                        id: SongId, j: SongId)
    requires forall id :: id in ids ==> id in t.songs
    requires rows == RowsFor(t.songs, t.starred, ids) && Chosen(rows, lovedReleases, best)
    requires id in t.songs && exists m :: m in best && best[m].id == id
    requires j in ids && j !in t.starred && t.songs[j].mbid.Some? && t.songs[j].mbid == t.songs[id].mbid
    ensures IsIn(t.songs[j].release, lovedReleases) ==> IsIn(t.songs[id].release, lovedReleases)
    ensures !IsIn(t.songs[id].release, lovedReleases) ==> id <= j
  {
    var m :| m in best && best[m].id == id;
    assert Representative(rows, lovedReleases, m, best[m]);
    var k :| 0 <= k < |rows| && rows[k] == best[m];
    var i :| 0 <= i < |ids| && ids[i] == j;
    assert rows[i] in rows && Candidate(rows[i], m);
  }

  /** The songs unstarred and starred by the pull are those of a round. */
  lemma PulledIds(t: Tables, ids: seq<SongId>, rows: seq<Row>, lovedReleases: set<string>, unstar: seq<SongId>,
                  star: seq<SongId>, best: map<string, Row>)
    requires forall id :: id in ids ==> id in t.songs
    requires forall i, j :: 0 <= i < j < |ids| ==> ids[i] != ids[j]
    requires rows == RowsFor(t.songs, t.starred, ids) && Chosen(rows, lovedReleases, best) && unstar == ToUnstar(rows)
    requires forall id :: id in star <==> id in WithoutMbid(rows) || exists m :: m in best && best[m].id == id
    ensures IdSet(unstar) == IdSet(ids) * t.starred
    ensures IdSet(ids) - t.starred <= t.songs.Keys && OnePerMbid(t.songs, IdSet(ids) - t.starred, IdSet(star))
  {
    UnstarsStarred(t, ids, rows, unstar);
    PulledStars(t, ids, rows, lovedReleases, star, best);
  }

  lemma UnstarsStarred(t: Tables, ids: seq<SongId>, rows: seq<Row>, unstar: seq<SongId>)
    requires forall id :: id in ids ==> id in t.songs
    requires rows == RowsFor(t.songs, t.starred, ids) && unstar == ToUnstar(rows)
    ensures IdSet(unstar) == IdSet(ids) * t.starred
  {
    forall id
      ensures id in IdSet(unstar) <==> id in IdSet(ids) * t.starred
    {
      UnstarIds(rows, id);
      if id in ids {
        var i :| 0 <= i < |ids| && ids[i] == id;
        assert rows[i] in rows;
      }
    }
  }

  lemma RepresentativesPulled(songs: map<SongId, Song>, starred: set<SongId>, ids: seq<SongId>,
                              lovedReleases: set<string>, best: map<string, Row>)
    requires forall id :: id in ids ==> id in songs
    requires Chosen(RowsFor(songs, starred, ids), lovedReleases, best)
    ensures forall m :: m in best ==> best[m].id in ids && best[m].id !in starred && songs[best[m].id].mbid == Some(m)
    ensures forall id :: id in ids && id !in starred && songs[id].mbid.Some? ==> songs[id].mbid.value in best
  {
    var rows := RowsFor(songs, starred, ids);
    forall m | m in best
      ensures best[m].id in ids && best[m].id !in starred && songs[best[m].id].mbid == Some(m)
    {
      assert Representative(rows, lovedReleases, m, best[m]);
    }
    forall id | id in ids && id !in starred && songs[id].mbid.Some?
      ensures songs[id].mbid.value in best
    {
      var i :| 0 <= i < |ids| && ids[i] == id;
      assert rows[i] in rows;
    }
  }

  lemma UnmatchedPulled(songs: map<SongId, Song>, starred: set<SongId>, ids: seq<SongId>)
    requires forall id :: id in ids ==> id in songs
    ensures forall id :: id in WithoutMbid(RowsFor(songs, starred, ids)) <==>
                         id in ids && id !in starred && songs[id].mbid.None?
  {
    var rows := RowsFor(songs, starred, ids);
    forall id
      ensures id in WithoutMbid(rows) <==> id in ids && id !in starred && songs[id].mbid.None?
    {
      WithoutMbidIds(rows, id);
      if id in ids {
        var i :| 0 <= i < |ids| && ids[i] == id;
        assert rows[i] in rows;
      }
    }
  }

  lemma PulledStars(t: Tables, ids: seq<SongId>, rows: seq<Row>, lovedReleases: set<string>, star: seq<SongId>,
                    best: map<string, Row>)
    requires forall id :: id in ids ==> id in t.songs
    requires rows == RowsFor(t.songs, t.starred, ids) && Chosen(rows, lovedReleases, best)
    requires forall id :: id in star <==> id in WithoutMbid(rows) || exists m :: m in best && best[m].id == id
    ensures IdSet(ids) - t.starred <= t.songs.Keys && OnePerMbid(t.songs, IdSet(ids) - t.starred, IdSet(star))
  {
    RepresentativesPulled(t.songs, t.starred, ids, lovedReleases, best);
    UnmatchedPulled(t.songs, t.starred, ids);
    var candidates, chosen := IdSet(ids) - t.starred, IdSet(star);
    forall id | id in candidates
      ensures Represented(t.songs, chosen, id)
    {
      if t.songs[id].mbid.Some? {
        assert best[t.songs[id].mbid.value].id in chosen;
      } else {
        assert id in chosen;
      }
    }
  }

  /** The rows of a query, in no particular order. */
  method Rows(ids: set<SongId>) returns (r: seq<SongId>)
    ensures IdSet(r) == ids
    ensures forall i, j :: 0 <= i < j < |r| ==> r[i] != r[j]
  {
    r := [];
    var todo := ids;
    while todo != {}
      invariant todo <= ids && IdSet(r) == ids - todo
      invariant forall i, j :: 0 <= i < j < |r| ==> r[i] != r[j]
      decreases todo
    {
      var id :| id in todo;
      assert id !in IdSet(r);
      assert IdSet(r + [id]) == IdSet(r) + {id};
      todo := todo - {id};
      r := r + [id];
    }
  }
}
