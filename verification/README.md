# Verification of the crossonic server

A Dafny model of the parts of the crossonic server in which correctness depends on more than
one function: the streaming cache, the ListenBrainz favourites sync, the numbering of
playlist tracks, and some batch algorithms of the scanner and the search. What the source
does step by step on fields, tables and buffers is modelled by classes and methods; each
method is proved against a function or relation on plain values, and the theorems are about
those. `dafny verify dfyconfig.toml` checks everything. `Wrappers.dfy` has the option type and
`Batches.dfy` the batch sizes; `Selections.dfy` says what it means to select from a sequence in order.

## The streaming cache

| file | content |
|---|---|
| `ObjectState.dfy` | the state of one object and what each lock-protected region does to it; a waiting reader among other goroutines |
| `CacheObject.dfy` | the classes `Object` and `Reader`, with the blocking loop of `waitForData` |
| `CacheProtocol.dfy` | writer, readers and removal as one step system, with theorems over all runs |
| `CacheEviction.dfy` | what a run of the cleaner decides: budget, order, minimality |
| `CacheStore.dfy` | the map and the directory under all operations, and what a restart restores |
| `Cache.dfy` | the class `Cache` with `clean`, `loadObjects` and the other operations |

A channel is a number; `closed` is the set of closed channels, and signalling closes the
current channel and takes a new number. In `WaitForData` a list of events says what the
other goroutines do while the lock is given up, and the result is proved for every such
list. In `CacheProtocol` every interleaving of regions is a run, of an object that was
created or of one that was restored at startup.

Results that a reader of the code may not expect:

- The comment at `cache/object.go:175-178` says that an object can never be evicted while a
  reader is about to use it. `evict` closes the file under the object's lock but unlinks and
  unmaps afterwards, and `UseFile` needs only the object's lock.
  `CacheProtocol.EvictionTakesReadersExactlyInTheGap` says exactly when an evicted object
  has an open reader, and `EvictionGapIsReachable` gives a run. Such a reader still sees the
  right bytes.
- A reader opened on an object that was deleted can see the file of whoever reused the key
  (`RemovedObjectMayReadForeignBytes`); while the object is in the map it never does.
- `SetComplete` on an object that has left the map creates a marker file for its key, and
  after a restart an unfinished object under that key counts as complete. The same happens
  when `SetComplete` comes after the cache has been closed. Over any number of restarts,
  agreement holds if and only if no unfinished object of the map has been marked in this way
  (`CacheStore.RestartAgreement`, `StaleCompletionResurrects`, `LateCompletionResurrects`).
  The suffix `-complete` is reserved (`SuffixIsReserved`).

## The favourites sync

| file | content |
|---|---|
| `FeedbackTables.dfy` | songs, stars and status rows; the five statements by their set-level meaning, with NULL |
| `FeedbackSync.dfy` | a round as a relation, runs with rejected posts, convergence |
| `FeedbackDecision.dfy` | the decision table, worlds that a round leaves alone, the second round |
| `FeedbackRuns.dfy` | small runs that show what the theorems cannot be improved to |
| `FeedbackUpload.dfy` | lookups in batches of 50, posts shared by (MBID, score), what is recorded |
| `FeedbackPull.dfy` | the representative among several copies of a recording |
| `FeedbackAccount.dfy` | the class `Account`: a run of `SyncSongFeedback` is an attempt, a successful one a round |

The remote side is a set of MBIDs. Requests are parameters: the reply to a lookup and which
posts are accepted.

- From any state in which every song has an MBID and no status row recorded another one,
  three rounds settle every recording, and which way is a function of the first state: loved
  unless some copy has a removed star that was not uploaded, and otherwise if it is loved
  remotely or some copy has a star to upload (`Convergence`). Three rounds can be needed
  (`ThreeRoundsCanBeNeeded`).
- The table in the comment at `listenbrainz/listenbrainz.go:503-506` holds for a song after
  a round if and only if its status row is not misleading: it must not have recorded a
  foreign MBID that is loved while the song's own is not and the song is uploaded or starred
  (`DecisionTable`).
- With distinct MBIDs a second round is not always a no-op, even where no row is misleading:
  the first round can make an MBID loved that another song's row recorded
  (`SecondRoundCanChange`). It is one if and only if no song that is not uploaded and not
  loved under its own MBID has recorded a foreign one whose love the first round changes
  (`SecondRoundIsNoOpIff`). Where rounds change nothing, star and love disagree on a song if
  and only if its recorded MBID is loved and its own is not (`FixedDisagreementIff`), which
  no number of rounds resolves (`StaleRemoteMbidFreezesDisagreement`).
- Failing runs do no lasting harm: after any number of runs with failing lookups and rejected
  posts, three successful ones settle everything (`RecoveryAfterTrouble`, `ThreeRunsSettle`).

## Playlists

`PlaylistTable.dfy` has the rows `(playlist, track) -> song` and the statements on them;
`Playlist.dfy` has the repository and the update handler as a class over the rows, the
sorting of the track numbers in place included. Every sequence of operations does to the
rows what it does to a plain sequence of songs, and failing operations change nothing.

`FixTrackNumbers` joins on the song, which does not identify a row when a song is repeated,
so a statement has several possible outcomes. Every outcome that respects the primary key is
a correct repair, repeated songs or not (`FixRestoresNumbering`), and all outcomes respect it
if and only if every repeated song occurs twice and both rows are numbered right already
(`FixSucceedsIffHarmless`).

## Scanner, scrobbles and search

| file | content |
|---|---|
| `OrphanPool.dfy` | the worker pool over two buffered channels: right result, no deadlock, termination |
| `OrphanSweep.dfy` | paging over a table that shrinks |
| `ScrobbleDedup.dfy` | the conflict filter and the query in chunks that it relies on |
| `AlbumIdentity.dfy` | which album a scanned song belongs to |
| `AlbumMap.dfy` | the shared album objects, updated in place, and what failing statements leave behind |
| `Normalize.dfy` | text normalisation and the words of a text |
| `Search.dfy` | the stored search texts and the generated condition |

- A repeated call of `findOrCreate` returns the same album if and only if the album had been
  updated before, the tags have an MBID, or the artist ids are distinct (`RepeatingACall`).
- A song that names artist x twice matches an album by x and y: only counts are compared and
  each name looked up. `ArtistsCompareAsSetsIff` says exactly when that compares sets.
- An album whose row has vanished is created again, but the call still fails, because
  `updateAlbum` (`scanner/album_map.go:349-357`) goes on to its error return after the row was
  created (`RecreationIsReportedAsFailure`). After a failed update the album in memory counts
  as updated, so a repeated call succeeds without making the update good
  (`RepeatWritesNothing`).
- The text of an artist is padded after normalising (`repos/postgres/artist.go:23`) and may
  have two spaces side by side; the search property holds for it all the same.

## Model

| member | source | states |
|---|---|---|
| ObjectState.RegionsOnlyAppend | cache/object.go:62-191 | every locked region keeps size equal to the file's length and the current channel newer than all closed ones, only appends, and never changes a complete object's content |
| ObjectState.ChangesAreSignalled | cache/object.go:38-43 | a region that changes the conclusion of a waiting reader at any offset closes the channel that reader captured, `ReleaseFile` included |
| ObjectState.ParkedReaderIsNotForgotten | cache/reader.go:80-91 | after anything the others do, a parked reader's channel is closed or the reader is still right to wait |
| ObjectState.OnePassAnswers | cache/reader.go:28-97 | in terms of the fields, when one pass of a read returns data and which, the end, an error, or waits |
| CacheObject.Object.constructor | cache/object.go:45-60 | a new object is empty, incomplete and open |
| CacheObject.Object.Loaded | cache/cache.go:250-258 | a restored object is complete, closed and has the length of its file |
| CacheObject.Object.Write | cache/object.go:62-75 | appends what the file accepts and signals if that is anything; a complete object is left alone |
| CacheObject.Object.SetComplete | cache/object.go:77-88 | completes the object and signals |
| CacheObject.Object.Close | cache/object.go:117-129 | closes an open file and signals; otherwise nothing |
| CacheObject.Object.UseFile | cache/object.go:131-144 | counts the reader, notes the access and has an open file, reopened by name if it was closed, or fails and changes nothing |
| CacheObject.Object.ReleaseFile | cache/object.go:146-164 | uncounts a reader; the last one closes the file of a complete object, without a signal; fails when nobody reads |
| CacheObject.Object.CloseForEviction | cache/object.go:175-191 | closes and signals exactly when there is no reader |
| CacheObject.Object.Stats | cache/object.go:166-173 | the bookkeeping of one moment |
| CacheObject.Reader.WaitForData | cache/reader.go:59-97 | returns only when the object at that moment has data at the offset, is consumed or is closed, or on cancellation; while parked it is woken or right to wait, and once woken it does not stay parked |
| CacheObject.Reader.Park | cache/reader.go:80-91 | the select on the captured channel: goes on only when that channel is closed |
| CacheObject.Reader.ReadAt | cache/reader.go:44-57 | returns exactly the bytes of the content from the offset on, as many as wanted or all there are; the end if and only if the object is complete and passed; an error where the file is gone |
| CacheObject.Reader.Read | cache/reader.go:28-42 | the same at the reader's offset, which advances by the bytes returned |
| CacheObject.Reader.Seek | cache/reader.go:99-120 | from the start, from the offset or from the size; only over a complete object and to a target that is not negative |
| CacheObject.Reader.Close | cache/reader.go:122-128 | releases the file once |
| CacheProtocol.StepKeepsInv | cache/reader.go:71-97 | every step of writer, readers and removal keeps the invariant that carries the theorems below |
| CacheProtocol.NoLostWakeup | cache/reader.go:71-97 | in every run of a created or restored object a parked reader is wakeable, or parked on the current channel of an open incomplete object with no data for it; when that ends it is wakeable and the wake-up returns |
| CacheProtocol.StreamingRefinement | cache/reader.go:28-42 | in every run of a created or restored object the bytes a reader got are the written bytes up to its offset, and EOF means complete and consumed |
| CacheProtocol.ReadsDeliver | cache/reader.go:28-42 | a read in order, at once or when woken, appends the bytes there are, as many as wanted, and reports the end of a complete object |
| CacheProtocol.ReadersGetTheWholeContent | cache/reader.go:28-42 | in every run without an explicit close, a reader of a complete object that reads once more than bytes are left to it has the whole content and the end |
| CacheProtocol.ContentIsFrozen | cache/object.go:62-88 | over every run content only grows and is frozen after completion |
| CacheProtocol.ReferenceCounting | cache/object.go:131-164 | in every run of a created or restored object the count is the number of open readers, and their file is open unless it was closed explicitly |
| CacheProtocol.OnlyExplicitStepsCloseUnderReader | cache/object.go:117-191 | only an explicit close closes the file under a reader that stays open |
| CacheProtocol.EvictionTakesReadersExactlyInTheGap | cache/cache.go:137-157 | an eviction unmaps an object with an open reader if and only if a reader that arrived after the file was closed is still open; its bytes are right |
| CacheProtocol.EvictionGapIsReachable | cache/object.go:175-178 | a run in which that happens |
| CacheProtocol.RemovedObjectMayReadForeignBytes | cache/object.go:134-140 | a run in which the reader of a deleted object reads another file |
| CacheEviction.RunningSize | cache/cache.go:197-216 | before each eviction the running size is the total size of what is still cached |
| CacheEviction.EvictionBudget | cache/cache.go:193-216 | the final size is the survivors' total and within the budget, or every survivor is read or is the one largest candidate of at least ten thirds of the budget |
| CacheEviction.CleanedPlainly | cache/cache.go:178-216 | in sizes, reader counts and times: what goes as unused, that all else stays within the budget, what the largest candidate is, and that over the budget it goes if and only if 10 * maxSize > 3 * its size |
| CacheEviction.EvictionOrder | cache/cache.go:178-216 | nothing expired survives, nothing read goes; every other victim is idle, no younger than any idle survivor but the largest candidate, and went while the total was over the budget (`EvictedAt`) |
| CacheEviction.PhaseIsMinimal | cache/cache.go:206-216 | just before each eviction of the size phase the total was above the budget |
| CacheEviction.PhaseMeetsBudget | cache/cache.go:206-216 | the phase ends within the budget or has evicted every idle entry it may |
| CacheEviction.PhaseGoesByAge | cache/cache.go:203-216 | an idle entry that survives was accessed no earlier than any victim |
| CacheStore.RestartAgreement | cache/cache.go:220-262 | after any run, earlier restarts included, a restart restores exactly the completed, not removed keys with their sizes if and only if no unfinished object was marked by a stale SetComplete, before closing or after; unfinished files are gone then |
| CacheStore.FirstLoadMirrors | cache/cache.go:45-49 | loading an arbitrary directory at startup gives a state from which the runs may start |
| CacheStore.RestartRestores | cache/cache.go:229-258 | key by key, what a restart restores and which files and markers remain |
| CacheStore.RunKeepsMirror | cache/cache.go:74-157 | over every run, restarts included, the directory mirrors the map: a file of the right length per object and markers for the complete and the stale keys only |
| CacheStore.NoStaleNoTaint | cache/object.go:77-88 | completing only objects of the map never leaves a stale marker |
| CacheStore.LoadIsIdempotent | cache/cache.go:220-288 | a second restart restores the same |
| CacheStore.StaleCompletionResurrects | cache/object.go:77-88 | a run after which a restart restores a key that was never completed |
| CacheStore.LateCompletionResurrects | cache/object.go:77-88 | a run in which a completion after closing brings an unfinished object back as complete |
| CacheStore.SuffixIsReserved | cache/cache.go:229-232 | a key that ends in the suffix is lost over a restart and completes another |
| Cache.Cache.CreateObject | cache/cache.go:74-86 | refuses an existing key; otherwise a fresh object, an empty file and no marker |
| Cache.Cache.WriteObject | cache/object.go:62-75 | a write reaches the object's file, which holds its content, and the directory only if the object is in the map |
| Cache.Cache.CompleteObject | cache/object.go:77-88 | completes the object and creates the marker, even when the object has left the map |
| Cache.Cache.DeleteObject | cache/cache.go:88-111 | closes the object, takes it from the map, removes its file and the marker of a complete one |
| Cache.Cache.Clear | cache/cache.go:113-135 | closes every object and empties map and directory |
| Cache.Cache.Close | cache/cache.go:276-288 | closes every object and empties the map, not the directory |
| Cache.Cache.Evict | cache/cache.go:137-157 | closes and removes object, file and marker exactly when nobody reads, and touches nothing else |
| Cache.Cache.FirstPass | cache/cache.go:174-192 | evicts the expired objects, sums up and lists the others, finds a largest long-idle one |
| Cache.Cache.SizePass | cache/cache.go:206-216 | evicts exactly the victims of the size phase |
| Cache.Cache.Clean | cache/cache.go:159-218 | a run of the cleaner is related to its start as `CacheEviction.Cleaned` says; objects that stay are untouched with their files, those that go are closed and their files removed |
| Cache.Cache.LoadObjects | cache/cache.go:220-262 | restores the objects with markers as complete and closed, with the content of their files and accessed now, and removes files without one |
| FeedbackSync.UploadAndPullAreDisjoint | repos/postgres/song.go:413-475 | no song is selected for upload and for pull |
| FeedbackSync.Selected | repos/postgres/song.go:413-504 | what the two queries select after the first statement, in terms of stars, pending rows and remote loves |
| FeedbackSync.LovedAfter | listenbrainz/listenbrainz.go:469-494 | for every MBID, whether it is loved after the posts of a round, in whatever order they are sent |
| FeedbackSync.RoundOnRecording | listenbrainz/listenbrainz.go:544-665 | what a round does to a recording with any number of copies |
| FeedbackSync.RoundKeepsClean | listenbrainz/listenbrainz.go:544-665 | a round records no foreign MBID |
| FeedbackSync.SettledIsFixed | listenbrainz/listenbrainz.go:544-665 | a round from a settled state changes no star, no row and no love |
| FeedbackSync.ThreeRoundsSettle | listenbrainz/listenbrainz.go:544-665 | three rounds settle every recording as the verdict on the first state says |
| FeedbackSync.Convergence | listenbrainz/listenbrainz.go:503-674 | after three or more rounds some copy is starred if and only if the MBID is loved, if and only if the verdict on the first state was positive, and a further round changes nothing |
| FeedbackSync.AcceptedAttemptIsRound | listenbrainz/listenbrainz.go:468-494 | a run whose posts are all accepted is a round |
| FeedbackSync.RejectedStays | listenbrainz/listenbrainz.go:482-488 | a song whose post is rejected keeps its star and its row, not uploaded |
| FeedbackSync.AttemptKeepsClean | listenbrainz/listenbrainz.go:544-665 | a run records no foreign MBID, whichever posts are rejected |
| FeedbackSync.RecoveryAfterTrouble | listenbrainz/listenbrainz.go:630-639 | after any number of failing runs three rounds settle every recording |
| FeedbackDecision.DecisionTable | listenbrainz/listenbrainz.go:503-506 | with distinct MBIDs a round sets star and love as the documented table says if and only if the status row is not misleading |
| FeedbackDecision.DistinctSelected | repos/postgres/song.go:413-504 | with distinct MBIDs, what the two queries select in terms of the first state |
| FeedbackDecision.NoMbidSelected | repos/postgres/song.go:419-472 | a song without an MBID is uploaded or pulled if and only if its star differs from the love of its recorded MBID, by its uploaded flag |
| FeedbackDecision.NoMbidAfter | listenbrainz/listenbrainz.go:603-608 | after a run such a song is starred as the recorded MBID is loved if it was uploaded, and as before otherwise |
| FeedbackDecision.SongAfterRound | repos/postgres/song.go:477-504 | with distinct MBIDs, star, love and status row of a song after a round, with the MBID the row records |
| FeedbackDecision.RoundIsNoOpIff | listenbrainz/listenbrainz.go:544-665 | with distinct MBIDs a round changes nothing if and only if each song is starred exactly when its own or its recorded MBID is loved, and is marked if starred and loved |
| FeedbackDecision.FixedDisagreementIff | repos/postgres/song.go:456-471 | where a round changes nothing, star and love disagree on a song if and only if only its recorded MBID is loved |
| FeedbackDecision.LovedNextIs | listenbrainz/listenbrainz.go:469-494 | which MBIDs are loved after a round, in terms of the first state |
| FeedbackDecision.SecondRoundIsNoOpIff | listenbrainz/listenbrainz.go:503-506 | with distinct MBIDs a second round is a no-op if and only if no song left alone and unloved in the first has recorded a foreign MBID whose love the first round changes |
| FeedbackDecision.CleanSettlesInOneRound | listenbrainz/listenbrainz.go:503-506 | with distinct MBIDs and no foreign MBID recorded a second round is a no-op |
| FeedbackRuns.ThreeRoundsCanBeNeeded | listenbrainz/listenbrainz.go:503-674 | a state from which two rounds do not settle |
| FeedbackRuns.SecondRoundCanChange | listenbrainz/listenbrainz.go:503-506 | a state with distinct MBIDs and no misleading row from which a second round stars a song |
| FeedbackRuns.StaleRemoteMbidFreezesDisagreement | repos/postgres/song.go:467-471 | a state with a starred, unloved recording that rounds do not change |
| FeedbackUpload.LookupMissing | listenbrainz/listenbrainz.go:401-454 | each missing entry has the answer of the request it was part of, at its own index within the batch; on a failing request the later entries are untouched |
| FeedbackUpload.WriteAnswers | listenbrainz/listenbrainz.go:446-452 | replies of a batch are written to the entries of that batch and to no other |
| FeedbackUpload.AnswerIsLast | listenbrainz/listenbrainz.go:446-452 | an entry gets the last MBID that the reply gives for its index |
| FeedbackUpload.LookupsWriteOnlyAskedEntries | listenbrainz/listenbrainz.go:401-454 | an entry with an MBID or without an artist is not written, and nothing but the MBID of others is |
| FeedbackUpload.KeysAreDistinct | listenbrainz/listenbrainz.go:461-485 | the posted keys are those of the entries with a known MBID, each once |
| FeedbackUpload.RecordedIffPosted | listenbrainz/listenbrainz.go:469-494 | a song is recorded as uploaded if and only if its MBID is known and the one post for its key was accepted, and then with that MBID |
| FeedbackPull.ChooseStars | listenbrainz/listenbrainz.go:591-628 | starred candidates are unstarred, those without an MBID starred, and of the others the representatives, in any iteration order |
| FeedbackPull.OneStarPerRecording | listenbrainz/listenbrainz.go:592-628 | of the candidates with one MBID exactly the representative is starred: on a loved release if any is, else the smallest id |
| FeedbackAccount.Account.PostFeedback | listenbrainz/listenbrainz.go:468-494 | the remote loves after posting each key once, and the songs to record |
| FeedbackAccount.Account.SetLBFeedbackUploaded | repos/postgres/song.go:477-491 | the upsert in batches is one upsert |
| FeedbackAccount.Account.SetLBFeedbackPulled | repos/postgres/song.go:477-491 | the same without the remote MBIDs: existing rows keep theirs |
| FeedbackAccount.Account.StarMultiple | repos/postgres/song.go:368-383 | stars exactly the given songs, in batches |
| FeedbackAccount.Account.UnStarMultiple | repos/postgres/song.go:390-401 | unstars exactly the given songs, in batches |
| FeedbackAccount.Account.UpdateSongFeedback | listenbrainz/listenbrainz.go:400-501 | lookups, posts and records together; nothing is posted or recorded when a lookup fails |
| FeedbackAccount.Account.SyncSongFeedback | listenbrainz/listenbrainz.go:507-674 | a run that goes through records exactly what was accepted, as `Attempt` says, and is a round when all posts are; a song without an MBID is recorded if and only if it has an artist, the reply to its request of up to fifty found an MBID and that post was accepted; the newly starred copy of a recording is on a loved release if any candidate is, and else has the smallest id; a run fails only if a lookup fails, and then stops after its first statement |
| FeedbackAccount.Account.PlanPull | listenbrainz/listenbrainz.go:591-628 | the songs to unstar, and one preferred copy per recording to star, in terms of the loved releases |
| FeedbackAccount.Account.PeriodicSync | listenbrainz/listenbrainz.go:366-395 | every turn of the loop is a run, and a round when its requests succeed |
| FeedbackAccount.ThreeRunsSettle | listenbrainz/listenbrainz.go:366-395 | at any time three successful turns in a row settle every recording as the verdict before them says, whatever failed earlier |
| PlaylistTable.NewTrackCounts | repos/postgres/playlist.go:102-121 | the generated expression maps a surviving track to itself minus the number of removed tracks below it |
| PlaylistTable.RenumberingKeepsOrder | repos/postgres/playlist.go:102-121 | it is strictly increasing on surviving tracks |
| PlaylistTable.RenumberingNeverClashes | repos/postgres/playlist.go:116-125 | the deferred primary key holds at the end |
| PlaylistTable.RemovalIsDeletion | repos/postgres/playlist.go:86-128 | on a playlist numbered 0..n-1, removal leaves exactly the other songs in order, numbered 0..n-m-1, and other playlists alone |
| PlaylistTable.WithoutAre | repos/postgres/playlist.go:86-128 | the sequence after a removal has the songs at the indices not removed, in order |
| PlaylistTable.InsertionIsAppend | repos/postgres/playlist.go:64-83 | appending rows appends to the sequence |
| PlaylistTable.InsertionInBatches | repos/postgres/helpers.go:18-29 | splitting an insertion into batches makes no difference |
| PlaylistTable.HeldSequenceIsUnique | repos/postgres/playlist.go:54-57 | the rows determine the sequence |
| PlaylistTable.FixRestoresNumbering | repos/postgres/playlist.go:154-160 | after any deletions, a repair that succeeds leaves the same songs in the same order, numbered 0..n-1 |
| PlaylistTable.FixSucceedsIffHarmless | repos/postgres/playlist.go:154-160 | every outcome of the join respects the primary key if and only if each repeated song occurs twice with both rows right |
| PlaylistTable.NoRepeatsNoClash | repos/postgres/playlist.go:154-160 | without repeated songs the repair succeeds |
| PlaylistTable.RepeatsMayClash | repos/postgres/playlist.go:155-158 | a correctly numbered playlist on which the repair may fail |
| Playlist.DeletedAllRequested | repos/postgres/playlist.go:91-98 | the row count equals the number of requested tracks if and only if those are distinct and present |
| Playlist.SortInts | repos/postgres/playlist.go:100 | the caller's track numbers become an ascending permutation of themselves |
| Playlist.Playlists.GetMaxTrackNr | repos/postgres/playlist.go:170-173 | the maximum, -1 for an empty playlist |
| Playlist.Playlists.AddTracks | repos/postgres/playlist.go:60-84 | inserts after the maximum whatever the batches, or changes nothing if a song is unknown |
| Playlist.Playlists.RemoveTracks | repos/postgres/playlist.go:86-128 | goes through if and only if the tracks are distinct and present, and then deletes and renumbers; otherwise nothing changes |
| Playlist.Playlists.ClearTracks | repos/postgres/playlist.go:130-133 | the playlist is empty and every other row is left |
| Playlist.Playlists.SetTracks | repos/postgres/playlist.go:135-147 | the playlist holds the new songs and every other row is left, or nothing changes |
| Playlist.Playlists.RemoveSongs | repos/postgres/playlist.go:86-128 | refines removal from the sequence |
| Playlist.Playlists.AddSongs | repos/postgres/playlist.go:60-84 | refines appending to the sequence |
| Playlist.Playlists.UpdatePlaylist | handlers/subsonic_playlists.go:148-183 | goes through if and only if the indices are distinct and in range and the songs exist; then the sequence without the indices, with the songs appended |
| Playlist.Playlists.DoAll | repos/postgres/playlist.go:60-147 | any sequence of operations keeps tracks numbered 0..n-1 and does what it does to a plain sequence |
| OrphanPool.FinishedPoolIsRight | scanner/clean.go:126-154 | in every run a finished pool has reported each missing path as often as it was sent and no existing one, and counted the others |
| OrphanPool.PoolNeverBlocks | scanner/clean.go:126-154 | with room for the missing paths every unfinished state has a step |
| OrphanPool.FinishingNeedsRoom | scanner/clean.go:126-154 | a pool can finish only with room for every missing path |
| OrphanPool.StepsRunOut | scanner/clean.go:126-150 | every step decreases a measure, so every run ends |
| OrphanSweep.PagePoolNeverBlocks | scanner/clean.go:126-127 | with channels of the page size no page deadlocks |
| OrphanSweep.PageStep | scanner/clean.go:113-162 | one turn keeps what the sweep is to keep, skips no row, and shrinks rows minus found by the page |
| OrphanSweep.SongTable.FindPaths | repos/postgres/song.go:208-212 | the paths of at most 300 old rows in id order from the offset on, fewer only at the end |
| OrphanSweep.SongTable.DeleteByPaths | repos/postgres/song.go:214-221 | deletes in batches exactly the rows with these paths |
| OrphanSweep.SongTable.SweepPage | scanner/clean.go:126-161 | a page's missing rows are deleted, its others counted, whatever order the workers report in |
| OrphanSweep.SongTable.DeleteOrphanedSongsByPath | scanner/clean.go:108-165 | ends with exactly the rows updated after the start of the scan or whose file exists |
| OrphanSweep.KeepSelects | repos/postgres/song.go:208-221 | what a filter leaves of the table, row by row and in order |
| ScrobbleDedup.FindPossibleConflicts | repos/postgres/scrobble.go:31-51 | exactly the user's stored rows that match the two lists in one chunk; refuses lists of different lengths |
| ScrobbleDedup.EntryIsInItsChunk | repos/postgres/helpers.go:50-76 | song and time of one entry are in the same chunk |
| ScrobbleDedup.ConflictIffStored | handlers/subsonic_mediaannotation.go:85-92 | an entry has a conflict among the rows found if and only if it is stored |
| ScrobbleDedup.ChunkingLosesPairs | repos/postgres/helpers.go:50-76 | a row that matches the whole lists and no chunk |
| ScrobbleDedup.DropStored | handlers/subsonic_mediaannotation.go:76-103 | of the entries exactly those are left for which the user has no row of the song at the time that is not now-playing, aligned in the three lists |
| Selections.KeptAre | handlers/subsonic_mediaannotation.go:84-102 | what is left of a list are the elements at the places to keep, in order |
| ScrobbleDedup.ListsStayAligned | handlers/subsonic_mediaannotation.go:81-102 | dropping from three lists alike drops from the list of entries |
| AlbumIdentity.FirstKnownCriterionDecides | scanner/album_map.go:125-195 | of release MBID, MBID, set of artists, version, release date and original date the first one known on both sides decides, nothing known means the same album, and an updated album of another folder never matches; if and only if the comparison does not come to artists that are not compared as sets |
| AlbumIdentity.ArtistsCompareAsSetsIff | scanner/album_map.go:148-163 | count and lookup compare the sets of ids if and only if the song names no artist twice, or one that is not listed, or the album has neither number of artists |
| AlbumIdentity.RepeatedArtistMatchesOther | scanner/album_map.go:148-163 | a song and an album with different sets of artists that match |
| AlbumIdentity.UpdatedIsFrozen | scanner/album_map.go:198-289 | an updated album is not changed by a call |
| AlbumIdentity.IndexSize | scanner/album_map.go:291-296 | the index of artists has as many entries as artists if and only if their ids are distinct |
| AlbumIdentity.RecognisedAgain | scanner/album_map.go:124-196 | when an album with the song's own tags matches the song |
| AlbumIdentity.RepeatingACall | scanner/album_map.go:122-331 | a repeated call returns the same album, changing nothing, if and only if it was updated before, has an MBID in its tags or distinct artists |
| AlbumMap.SuccessIsFindOrCreate | scanner/album_map.go:122-331 | a successful call is a call of the plain search; any call keeps the other albums |
| AlbumMap.FrozenForTheScan | scanner/album_map.go:198-289 | once updated, an album never changes in the scan, whichever calls fail |
| AlbumMap.ReturnedAlbumStays | scanner/album_map.go:122-331 | a returned album is updated, has the caller's music folder and keeps its data to the end |
| AlbumMap.RepeatWritesNothing | scanner/album_map.go:122-331 | with distinct artist ids a repeated call returns the same album and makes no statement, even after a failed update |
| AlbumMap.CallSucceedsIff | scanner/album_map.go:198-331 | for every answer of the database and in both scan modes, a call succeeds if and only if it has nothing to write or stores the album without having to create its row again; the album in memory has the tags either way |
| AlbumMap.RecreationIsReportedAsFailure | scanner/album_map.go:333-359 | a call fails although it stored the album if and only if a vanished row was created again |
| AlbumMap.NoStatementIff | scanner/album_map.go:199-278 | field by field, the first call of a normal scan for a known album makes no statement if and only if folder, tags and artists with their places are already those of the call; a full scan always makes one |
| AlbumMap.RowStaysCurrent | scanner/album_map.go:273-320 | after a successful call the album's row has name, tags, folder and artist names of the album in memory, if it had before or the album is new, and no other row has changed |
| AlbumMap.TakenOver | scanner/album_map.go:198-313 | what the returned album has taken over: folder, tags, the artists under their places, and the names |
| AlbumMap.Album.Matches | scanner/album_map.go:125-195 | compares as `AlbumIdentity.SameAlbum` says, which `FirstKnownCriterionDecides` characterises |
| AlbumMap.Album.TakeTags | scanner/album_map.go:205-244 | takes over the tags field by field and tells whether any differed |
| AlbumMap.Album.Refresh | scanner/album_map.go:199-271 | the album after its first match, and whether that is a change (`NoStatementIff`) |
| AlbumMap.AlbumMap.Find | scanner/album_map.go:123-196 | the first album of the list that matches |
| AlbumMap.AlbumMap.FindOrCreate | scanner/album_map.go:122-331 | the list, the returned object, the statements made, the rows and the failure as `Answered` and `RowsAfter` say; the other lists are untouched |
| AlbumMap.AlbumMap.UpdateAlbum | scanner/album_map.go:333-359 | stores the row; succeeds only if it was there; otherwise it may store it under a new id and fails |
| AlbumMap.AlbumMap.UpdateArtists | scanner/album_map.go:411-436 | at the end of a scan the artists of all albums are stored, each with its place on an album of that id, and nothing else |
| Normalize.NormalizeText | util/normalize.go:13-31 | a normal text with the words of the input |
| Normalize.NormalizedIsNormal | util/normalize.go:13-31 | only lower-case letters, digits and single spaces; a leading space stays |
| Normalize.LowerCase | util/normalize.go:27 | lower case letter by letter |
| Normalize.KeptCharacters | util/normalize.go:24-26 | the characters kept are the letters and digits of ASCII |
| Normalize.SpaceCharacters | util/normalize.go:17-22 | the characters that become a space |
| Normalize.CharacterByCharacter | util/normalize.go:14 | transliteration leaves ASCII and looks up the rest |
| Normalize.NormalizingIsIdempotent | util/normalize.go:13-31 | normalising twice is normalising once, and exactly the normal texts are fixed |
| Normalize.WordsAreRuns | util/normalize.go:9-12 | the words of a text are its pieces between white space, cleaned, where anything is left |
| Normalize.WordsAreKept | util/normalize.go:13-31 | normalising keeps the words and their order |
| Search.GenSearch | repos/postgres/helpers.go:166-184 | one pattern per word of the query, the first three for the order |
| Search.Patterns | repos/postgres/helpers.go:169-181 | the loop over the tokens skips the empty ones and keeps the first three for the order |
| Search.SearchTextIsSearchable | repos/postgres/song.go:240-245 | the search text starts and ends with a space and has no two spaces side by side |
| Search.SearchTextWords | repos/postgres/song.go:240-245 | the words of the search text are those of the title, of the album's name if there is one, and of every artist |
| Search.PatternIsPrefix | repos/postgres/helpers.go:175-176 | a pattern occurs in a text if and only if its word is a prefix of a word of the text |
| Search.SearchIsWordPrefixSearch | repos/postgres/helpers.go:166-184 | a song is found if and only if every word of the query is a prefix of a word of its title, its album or an artist |
| Search.ArtistSearchIsWordPrefixSearch | repos/postgres/artist.go:22-23 | the same for an artist by name |

## Left out

- HTTP handling, routing, configuration, migrations, encoding of responses, last.fm, ffmpeg, tag reading and encryption.
- SQL text and the database itself: each statement is its meaning on sets of rows, a transaction is atomic, and rows of other users and other tables do not appear.
- I/O errors, crashes in the middle of an operation and clock changes in the cache: file operations succeed and the cleaner has one fixed time. The 0.3 ratio is compared exactly, without rounding.
- Path escaping of cache keys: a key stands for its escaped name.
- `SubmitImport` and the other ListenBrainz submissions: its chunk bounds are not a partition for every length.
- Song and artist matching (`scanner/song_queue.go`, `scanner/artist_map.go`): two files can resolve to one row, so there is no comparable property.
- Disc titles, the cover channel and the loading of the album map from the database: the map of albums is arbitrary.
- AlbumMap.RowStaysCurrent: the artists' ids and places are in a table of their own, which `AlbumMap.AlbumMap.UpdateArtists` writes at the end of a scan.
- The access check of the playlist handler and the name and comment of a playlist.
- The ordering of search results beyond the choice of its patterns.
- The transliteration tables of the unidecode library, which is not part of this model: a table is any map from characters to ASCII strings.
- Cache.Cache.Clean: no reader comes or goes during a run; what happens in the gap is in `CacheProtocol`.
- CacheObject.Object.SetComplete: the marker file is in `Cache.Cache.CompleteObject`.
- CacheEviction.SortByAccess: the library sort gives some permutation by age; which one among ties is not fixed.
- CacheStore.RestartAgreement: of the operations on a closed cache only late completions are modelled.
- FeedbackAccount.Account.SyncSongFeedback: song ids are numbers because they are only compared and ordered; a statement of the database that fails is not modelled.
- FeedbackSync.Convergence: songs without an MBID take part in rounds, but the theorem assumes that every song has one.
- PlaylistTable.FixRestoresNumbering: the statement is a relation with every possible outcome, not a method.
- OrphanSweep.SongTable.CheckPaths: the workers' interleaving is in `OrphanPool`; here its result counts as any order of the missing paths.
- AlbumIdentity.RepeatingACall: artist names, which are not compared, are refreshed only together with ids or places, as in the source.
