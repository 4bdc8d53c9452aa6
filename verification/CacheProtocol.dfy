/**
  The cache object, its writer, any number of readers and the removal paths of
  cache/cache.go as one step system. A step is one lock-protected region (or, for the two
  halves of a removal, one operation under `objectsLock`); steps of different goroutines
  interleave freely.
 */
module CacheProtocol {
  import opened ObjectState

  /** A reader parks on the channel it captured under the lock. */
  datatype Phase = Idle | Parked(channel: nat, off: int, want: nat, sequential: bool) | Closed

  /** `got` holds the bytes returned by `Read` since the reader was opened or last moved to
      `base`; `eof` records that such a `Read` returned EOF. */
  datatype Reader = Reader(phase: Phase, base: nat, offset: nat, got: seq<Byte>, eof: bool)

  /** The first half of a removal closes the file, the second unlinks and unmaps. */
  datatype Removal = NoRemoval | Deleting | Evicting

  /** `strayed`, `forced` and `arrivals` are history: a handle on a foreign file has been
      opened; an explicit close (DeleteObject, Clear, cache Close) has happened; the readers
      opened since the current eviction closed the file. */
  datatype System = System(
    o: State,
    readers: map<nat, Reader>,
    mapped: bool,
    unlinked: bool,
    removal: Removal,
    strayed: bool,
    forced: bool,
    arrivals: set<nat>)

  datatype Step =
    | WriteBytes(p: seq<Byte>, n: nat)
    | Complete
    | OpenReader(r: nat, l: Lookup)
    | CloseReader(r: nat)
    | Read(r: nat, want: nat, other: seq<Byte>)
    | ReadAt(r: nat, want: nat, off: int, other: seq<Byte>)
    | Wake(r: nat, other: seq<Byte>)
    | Cancel(r: nat)
    | Seek(r: nat, offset: int, whence: Whence)
    | BeginDelete
    | BeginEvict
    | FinishRemoval
    | Shutdown

  /** An object gets into the map by CreateObject, or by loadObjects at startup. */
  datatype Origin = New(now: int) | Restored(content: seq<Byte>, now: int)

  function ObjectOf(origin: Origin): State {
    match origin
    case New(now) => FreshObject(now)
    case Restored(content, now) => RestoredObject(content, now)
  }

  function Initial(origin: Origin): System {
    System(ObjectOf(origin), map[], true, false, NoRemoval, false, false, {})
  }

  function OpenReaders(readers: map<nat, Reader>): set<nat> {
    set r | r in readers && !readers[r].phase.Closed?
  }

  predicate IdleReader(s: System, r: nat) {
    r in s.readers && s.readers[r].phase.Idle?
  }

  predicate ParkedReader(s: System, r: nat) {
    r in s.readers && s.readers[r].phase.Parked?
  }

  /** A path resolves to the object's own file until it is unlinked, and never after; any
      open may fail. Eviction goes ahead only for an object without readers. */
  ghost predicate Enabled(s: System, t: Step) {
    match t
    case WriteBytes(p, n) => n <= |p|
    case Complete => true
    case OpenReader(r, l) => r !in s.readers && (l.OwnFile? ==> !s.unlinked) && (l.OtherFile? ==> s.unlinked)
    case CloseReader(r) => IdleReader(s, r)
    case Read(r, _, _) => IdleReader(s, r)
    case ReadAt(r, _, _, _) => IdleReader(s, r)
    case Wake(r, _) => ParkedReader(s, r) && s.readers[r].phase.channel in s.o.closed
    case Cancel(r) => ParkedReader(s, r)
    case Seek(r, _, _) => IdleReader(s, r)
    case BeginDelete => s.mapped && s.removal.NoRemoval?
    case BeginEvict => s.mapped && s.removal.NoRemoval? && s.o.readerCount <= 0
    case FinishRemoval => !s.removal.NoRemoval?
    case Shutdown => s.mapped && s.removal.NoRemoval?
  }

  /** What reader `d` becomes when its read passes through the lock-protected region. */
  function Deliver(d: Reader, o: State, off: int, want: nat, sequential: bool, other: seq<Byte>): Reader
    requires o.Valid()
  {
    match o.ReadOnce(off, want, other)
    case Blocked(c) => d.(phase := Parked(c, off, want, sequential))
    case Data(b) =>
      if sequential then d.(phase := Idle, offset := d.offset + |b|, got := d.got + b) else d.(phase := Idle)
    case EOF => d.(phase := Idle, eof := d.eof || sequential)
    case _ => d.(phase := Idle)
  }

  function After(s: System, t: Step, now: int): System
    requires s.o.Valid() && Enabled(s, t)
  {
    match t
    case WriteBytes(p, n) => s.(o := s.o.Write(p, n, now))
    case Complete => s.(o := s.o.SetComplete())
    case OpenReader(r, l) =>
      if s.o.FileToUse(l).NoFile? then s
      else s.(o := s.o.UseFile(l, now),
           readers := s.readers[r := Reader(Idle, 0, 0, [], false)],
           strayed := s.strayed || s.o.FileToUse(l).Stray?,
                      arrivals := s.arrivals + {r})
    case CloseReader(r) =>
      s.(o := s.o.ReleaseFile(), readers := s.readers[r := s.readers[r].(phase := Closed)])
    case Read(r, want, other) =>
      s.(readers := s.readers[r := Deliver(s.readers[r], s.o, s.readers[r].offset, want, true, other)])
    case ReadAt(r, want, off, other) =>
      s.(readers := s.readers[r := Deliver(s.readers[r], s.o, off, want, false, other)])
    case Wake(r, other) =>
      var ph := s.readers[r].phase;
      s.(readers := s.readers[r := Deliver(s.readers[r], s.o, ph.off, ph.want, ph.sequential, other)])
    case Cancel(r) => s.(readers := s.readers[r := s.readers[r].(phase := Idle)])
    case Seek(r, offset, whence) =>
      var res := s.o.SeekTo(s.readers[r].offset, offset, whence);
      if res.At? then s.(readers := s.readers[r := Reader(Idle, res.offset, res.offset, [], false)]) else s
    case BeginDelete => s.(o := s.o.Close(), removal := Deleting, forced := true)
    case BeginEvict => s.(o := s.o.CloseForEviction(), removal := Evicting, arrivals := {})
    case FinishRemoval => s.(mapped := false, unlinked := true, removal := NoRemoval)
    case Shutdown => s.(o := s.o.Close(), mapped := false, forced := true)
  }

  /** `t` is reached from `s` by the steps in order, each taken when enabled. */
  ghost predicate Run(s: System, steps: seq<(Step, int)>, t: System)
    decreases |steps|
  {
    if steps == [] then s == t
    else s.o.Valid() && Enabled(s, steps[0].0) && Run(After(s, steps[0].0, steps[0].1), steps[1..], t)
  }

  // ------------------------------------------------------------------ the invariant

  /** A parked reader either has been woken already or has every reason to wait. */
  ghost predicate ParkedRightly(o: State, d: Reader) {
    d.phase.Parked? ==>
      && (d.phase.channel in o.closed || o.CheckData(d.phase.off) == MustWait(d.phase.channel))
      && (d.phase.sequential ==> d.phase.off == d.offset)
  }

  /** The bytes a reader has been given are the written bytes at its place. */
  ghost predicate Faithful(o: State, d: Reader) {
    d.got == [] || (d.base <= d.offset <= |o.content| && d.got == o.content[d.base..d.offset])
  }

  ghost predicate ReaderInv(s: System, d: Reader) {
    && ParkedRightly(s.o, d)
    && d.offset == d.base + |d.got|
    && (!s.strayed ==> Faithful(s.o, d))
    && (d.eof ==> s.o.complete && d.offset >= |s.o.content|)
  }

  ghost predicate Inv(s: System) {
    && s.o.Valid()
    && s.o.readerCount == |OpenReaders(s.readers)|
    && (forall r :: r in s.readers ==> ReaderInv(s, s.readers[r]))
    && (s.o.file.Stray? ==> s.strayed)
    && (s.strayed ==> s.unlinked)
    && (s.unlinked ==> !s.mapped)
    && (!s.removal.NoRemoval? ==> s.mapped)
    && (OpenReaders(s.readers) != {} && s.o.file.NoFile? ==> s.forced)
    && (s.removal.Evicting? ==> OpenReaders(s.readers) <= s.arrivals)
  }

  /** All readers keep their part of the invariant under a region of the object. */
  lemma RegionKeepsReaders(s: System, t: System, g: Region, now: int)
    requires Inv(s) && (g.DoWrite? ==> g.n <= |g.p|)
    requires t.o == Apply(s.o, g, now) && (s.strayed ==> t.strayed)
    ensures t.o.Valid()
    ensures forall r :: r in s.readers ==> ReaderInv(t, s.readers[r])
  {
    RegionsOnlyAppend(s.o, g, now);
    forall r | r in s.readers
      ensures ReaderInv(t, s.readers[r])
    {
      var d := s.readers[r];
      if d.phase.Parked? && d.phase.channel !in t.o.closed {
        ChangesAreSignalled(s.o, g, now, d.phase.off);
      }
    }
  }

  /** Passing through the read region keeps a reader's part of the invariant. */
  lemma DeliverKeepsReader(s: System, d: Reader, off: int, want: nat, sequential: bool, other: seq<Byte>)
    requires Inv(s) && ReaderInv(s, d) && !d.phase.Closed?
    requires sequential ==> off == d.offset
    ensures ReaderInv(s, Deliver(d, s.o, off, want, sequential, other))
    ensures !Deliver(d, s.o, off, want, sequential, other).phase.Closed?
  {
    var e := Deliver(d, s.o, off, want, sequential, other);
    var res := s.o.ReadOnce(off, want, other);
    if res.Data? && sequential && !s.strayed && e.got != [] {
      assert s.o.content[d.base..d.offset] + s.o.content[off..e.offset] == s.o.content[d.base..e.offset];
    }
  }

  /** Replacing one open reader by another state of it keeps the invariant. */
  lemma UpdateReader(s: System, r: nat, d: Reader)
    requires Inv(s) && r in s.readers && !s.readers[r].phase.Closed?
    requires ReaderInv(s, d) && !d.phase.Closed?
    ensures Inv(s.(readers := s.readers[r := d]))
  {
    assert OpenReaders(s.readers[r := d]) == OpenReaders(s.readers);
  }

  lemma OneMoreOpen(readers: map<nat, Reader>, r: nat, d: Reader)
    requires r !in readers && !d.phase.Closed?
    ensures OpenReaders(readers[r := d]) == OpenReaders(readers) + {r}
    ensures |OpenReaders(readers[r := d])| == |OpenReaders(readers)| + 1
  {
    assert OpenReaders(readers[r := d]) == OpenReaders(readers) + {r};
  }

  lemma OneFewerOpen(readers: map<nat, Reader>, r: nat, d: Reader)
    requires r in OpenReaders(readers) && d.phase.Closed?
    ensures OpenReaders(readers[r := d]) == OpenReaders(readers) - {r}
    ensures |OpenReaders(readers[r := d])| == |OpenReaders(readers)| - 1
  {
    assert OpenReaders(readers[r := d]) == OpenReaders(readers) - {r};
  }

  lemma OpenReaderKeepsInv(s: System, r: nat, l: Lookup, now: int)
    requires Inv(s) && Enabled(s, OpenReader(r, l))
    ensures Inv(After(s, OpenReader(r, l), now))
  {
    if !s.o.FileToUse(l).NoFile? {
      var t := After(s, OpenReader(r, l), now);
      OneMoreOpen(s.readers, r, Reader(Idle, 0, 0, [], false));
      RegionKeepsReaders(s, t, DoUseFile(l), now);
    }
  }

  lemma CloseReaderKeepsInv(s: System, r: nat, now: int)
    requires Inv(s) && Enabled(s, CloseReader(r))
    ensures Inv(After(s, CloseReader(r), now))
  {
    var t := After(s, CloseReader(r), now);
    assert r in OpenReaders(s.readers);
    OneFewerOpen(s.readers, r, s.readers[r].(phase := Closed));
    RegionKeepsReaders(s, t, DoReleaseFile, now);
  }

  lemma ReadKeepsInv(s: System, r: nat, off: int, want: nat, sequential: bool, other: seq<Byte>)
    requires Inv(s) && r in s.readers && !s.readers[r].phase.Closed? && (sequential ==> off == s.readers[r].offset)
    ensures Inv(s.(readers := s.readers[r := Deliver(s.readers[r], s.o, off, want, sequential, other)]))
  {
    var d := s.readers[r];
    DeliverKeepsReader(s, d, off, want, sequential, other);
    UpdateReader(s, r, Deliver(d, s.o, off, want, sequential, other));
  }

  lemma IdlingKeepsInv(s: System, t: Step, now: int)
    requires Inv(s) && Enabled(s, t) && (t.Cancel? || t.Seek?)
    ensures Inv(After(s, t, now))
  {
    if t.Cancel? {
      UpdateReader(s, t.r, s.readers[t.r].(phase := Idle));
    } else {
      var res := s.o.SeekTo(s.readers[t.r].offset, t.offset, t.whence);
      if res.At? {
        UpdateReader(s, t.r, Reader(Idle, res.offset, res.offset, [], false));
      }
    }
  }

  lemma StepKeepsInv(s: System, t: Step, now: int)
    requires Inv(s) && Enabled(s, t)
    ensures Inv(After(s, t, now))
  {
    match t
    case OpenReader(r, l) => OpenReaderKeepsInv(s, r, l, now);
    case CloseReader(r) => CloseReaderKeepsInv(s, r, now);
    case Read(r, want, other) => ReadKeepsInv(s, r, s.readers[r].offset, want, true, other);
    case ReadAt(r, want, off, other) => ReadKeepsInv(s, r, off, want, false, other);
    case Wake(r, other) =>
      var ph := s.readers[r].phase;
      assert ParkedRightly(s.o, s.readers[r]);
      ReadKeepsInv(s, r, ph.off, ph.want, ph.sequential, other);
    case Cancel(_) => IdlingKeepsInv(s, t, now);
    case Seek(_, _, _) => IdlingKeepsInv(s, t, now);
    case BeginDelete => RegionKeepsReaders(s, After(s, t, now), DoClose, now);
    case Shutdown => RegionKeepsReaders(s, After(s, t, now), DoClose, now);
    case BeginEvict => RegionKeepsReaders(s, After(s, t, now), DoCloseForEviction, now);
    case FinishRemoval =>
    case WriteBytes(p, n) => RegionKeepsReaders(s, After(s, t, now), DoWrite(p, n), now);
    case Complete => RegionKeepsReaders(s, After(s, t, now), DoSetComplete, now);
  }

  lemma {:induction false} RunKeepsInv(s: System, steps: seq<(Step, int)>, t: System)
    requires Inv(s) && Run(s, steps, t)
    ensures Inv(t)
    decreases |steps|
  {
    if steps != [] {
      StepKeepsInv(s, steps[0].0, steps[0].1);
      RunKeepsInv(After(s, steps[0].0, steps[0].1), steps[1..], t);
    }
  }

  // ------------------------------------------------------------------ theorems

  lemma ParkedReaderWakes(s: System, r: nat, other: seq<Byte>, at: int)
    requires Inv(s) && ParkedReader(s, r)
    ensures var ph := s.readers[r].phase;
            && (Enabled(s, Wake(r, other)) <==> ph.channel != s.o.dataChanged)
            && (ph.channel == s.o.dataChanged ==> s.o.CheckData(ph.off) == MustWait(ph.channel))
            && (s.o.CheckData(ph.off).MustWait?
                || (Enabled(s, Wake(r, other)) && After(s, Wake(r, other), at).readers[r].phase.Idle?))
  {
    assert ReaderInv(s, s.readers[r]);
  }

  /** No lost wake-up. In every run a parked reader can be woken, or it is parked on the
      object's current channel and the object is incomplete, open and not longer than the
      reader's offset. As soon as that stops being so the wake-up is there, and the woken
      reader returns instead of parking again. */
  lemma NoLostWakeup(origin: Origin, steps: seq<(Step, int)>, s: System, r: nat, other: seq<Byte>, at: int)
    requires Run(Initial(origin), steps, s)
    requires ParkedReader(s, r)
    ensures s.o.Valid()
    ensures var ph := s.readers[r].phase;
            && (Enabled(s, Wake(r, other)) <==> ph.channel != s.o.dataChanged)
            && (ph.channel == s.o.dataChanged ==> !s.o.complete && !s.o.file.NoFile? && s.o.size <= ph.off)
            && (s.o.complete || s.o.file.NoFile? || s.o.size > ph.off ==>
                  Enabled(s, Wake(r, other)) && After(s, Wake(r, other), at).readers[r].phase.Idle?)
  {
    RunKeepsInv(Initial(origin), steps, s);
    ParkedReaderWakes(s, r, other, at);
  }

  /** Streaming refinement. Unless a handle on a foreign file was ever opened, which takes
      a removal first, the bytes a reader has been given are the written bytes from where it
      started up to its offset; EOF is reported only by a complete object whose content the
      reader has passed. In particular a reader that never moved and got EOF from an object
      of the cache holds the whole content. */
  lemma StreamingRefinement(origin: Origin, steps: seq<(Step, int)>, s: System, r: nat)
    requires Run(Initial(origin), steps, s)
    requires r in s.readers
    ensures s.mapped ==> !s.strayed
    ensures var d := s.readers[r];
            && d.offset == d.base + |d.got|
            && (!s.strayed && d.got != [] ==> d.offset <= |s.o.content| && d.got == s.o.content[d.base..d.offset])
            && (d.eof ==> s.o.complete && |s.o.content| <= d.offset)
            && (d.eof && d.base == 0 && !s.strayed ==> d.got == s.o.content)
  {
    RunKeepsInv(Initial(origin), steps, s);
    var d := s.readers[r];
    assert ReaderInv(s, d);
  }

  /** What a read in order gives reader `d` in one pass over an open file of the object's own. */
  ghost predicate Delivered(o: State, d: Reader, want: nat, d': Reader) {
    if d.offset < |o.content| then
      var end := if |o.content| < d.offset + want then |o.content| else d.offset + want;
      d' == Reader(Idle, d.base, end, d.got + o.content[d.offset..end], d.eof)
    else if o.complete then d' == d.(phase := Idle, eof := true)
    else d' == d.(phase := Parked(o.dataChanged, d.offset, want, true))
  }

  lemma PassDelivers(o: State, d: Reader, want: nat, other: seq<Byte>)
    requires o.Valid() && !o.file.NoFile? && !o.file.Stray?
    ensures Delivered(o, d, want, Deliver(d, o, d.offset, want, true, other))
  {
    OnePassAnswers(o, d.offset, want, other);
  }

  /** A read in order, at once or when it is woken, gives the reader the bytes there are, as
      many as it wants; at the end of a complete object it reports the end; otherwise it parks. */
  lemma ReadsDeliver(s: System, r: nat, want: nat, other: seq<Byte>, at: int)
    requires Inv(s) && !s.o.file.NoFile? && !s.o.file.Stray?
    ensures IdleReader(s, r) ==> Delivered(s.o, s.readers[r], want, After(s, Read(r, want, other), at).readers[r])
    ensures ParkedReader(s, r) && s.readers[r].phase.sequential && s.readers[r].phase.channel in s.o.closed ==>
              Delivered(s.o, s.readers[r], s.readers[r].phase.want, After(s, Wake(r, other), at).readers[r])
  {
    if r in s.readers {
      PassDelivers(s.o, s.readers[r], want, other);
    }
    if ParkedReader(s, r) {
      assert ParkedRightly(s.o, s.readers[r]);
      PassDelivers(s.o, s.readers[r], s.readers[r].phase.want, other);
    }
  }

  /** Nobody closes the object explicitly, and reader `r` is neither closed nor moved. */
  predicate LeftToRead(t: Step, r: nat) {
    !t.BeginDelete? && !t.Shutdown? && t != CloseReader(r) && !(t.Seek? && t.r == r)
  }

  /** How often reader `r` reads for at least one byte. */
  function ReadsOf(steps: seq<(Step, int)>, r: nat): nat {
    if steps == [] then 0
    else (if steps[0].0.Read? && steps[0].0.r == r && steps[0].0.want > 0 then 1 else 0) + ReadsOf(steps[1..], r)
  }

  /** Reader `r` stands on a complete object whose file is open. */
  ghost predicate Standing(s: System, r: nat) {
    Inv(s) && IdleReader(s, r) && s.o.complete && !s.o.file.NoFile? && !s.strayed
  }

  lemma StandingStep(s: System, t: Step, at: int, r: nat)
    requires Standing(s, r) && Enabled(s, t) && LeftToRead(t, r)
    ensures var u := After(s, t, at);
            && Standing(u, r) && u.o.content == s.o.content && u.readers[r].base == s.readers[r].base
            && (s.readers[r].eof ==> u.readers[r].eof)
            && u.readers[r].offset >= s.readers[r].offset
            && (t.Read? && t.r == r && t.want > 0 ==> u.readers[r].eof || u.readers[r].offset > s.readers[r].offset)
  {
    var u := After(s, t, at);
    StepKeepsInv(s, t, at);
    StepOnlyAppends(s, t, at);
    StandingReader(s, t, at, r);
    assert r in OpenReaders(u.readers);
    FileStaysForReaders(s, t, at);
  }

  lemma StandingReader(s: System, t: Step, at: int, r: nat)
    requires Standing(s, r) && Enabled(s, t) && LeftToRead(t, r)
    ensures var u := After(s, t, at);
            && IdleReader(u, r) && !u.strayed && u.readers[r].base == s.readers[r].base
            && (s.readers[r].eof ==> u.readers[r].eof)
            && u.readers[r].offset >= s.readers[r].offset
            && (t.Read? && t.r == r && t.want > 0 ==> u.readers[r].eof || u.readers[r].offset > s.readers[r].offset)
  {
    match t
    case Read(q, want, other) =>
      if q == r { ReadsDeliver(s, r, want, other, at); }
    case ReadAt(q, want, off, other) =>
      if q == r { OnePassAnswers(s.o, off, want, other); }
    case _ =>
  }

  lemma {:induction false} ReadingGoesOn(s: System, steps: seq<(Step, int)>, t: System, r: nat)
    requires Standing(s, r) && Run(s, steps, t)
    requires forall i :: 0 <= i < |steps| ==> LeftToRead(steps[i].0, r)
    ensures Standing(t, r) && t.o.content == s.o.content && t.readers[r].base == s.readers[r].base
    ensures s.readers[r].eof ==> t.readers[r].eof
    ensures t.readers[r].eof || t.readers[r].offset >= s.readers[r].offset + ReadsOf(steps, r)
    decreases |steps|
  {
    if steps != [] {
      StandingStep(s, steps[0].0, steps[0].1, r);
      ReadingGoesOn(After(s, steps[0].0, steps[0].1), steps[1..], t, r);
    }
  }

  /** A reader of a complete object that keeps reading gets the whole content from where it
      started, and then the end: whatever the others do short of an explicit close, it is
      there after one read more than bytes are left to it. */
  lemma ReadersGetTheWholeContent(origin: Origin, before: seq<(Step, int)>, s: System, steps: seq<(Step, int)>,
                                  t: System,
                                  r: nat)
    requires Run(Initial(origin), before, s) && Run(s, steps, t)
    requires IdleReader(s, r) && s.o.complete && !s.o.file.NoFile? && !s.strayed
    requires forall i :: 0 <= i < |steps| ==> LeftToRead(steps[i].0, r)
    requires s.readers[r].base <= |s.o.content|
    requires ReadsOf(steps, r) + s.readers[r].offset > |s.o.content|
    ensures r in t.readers && t.readers[r].eof && t.o.content == s.o.content
    ensures var d := t.readers[r]; d.base == s.readers[r].base && d.base <= |t.o.content|
                                   && d.got == t.o.content[d.base..]
  {
    RunKeepsInv(Initial(origin), before, s);
    ReadingGoesOn(s, steps, t, r);
    PastTheEnd(t, r);
  }

  /** A reader on a complete object that is past its bytes or was told so has got them all. */
  lemma PastTheEnd(t: System, r: nat)
    requires Standing(t, r) && t.readers[r].base <= |t.o.content|
    requires t.readers[r].eof || t.readers[r].offset > |t.o.content|
    ensures var d := t.readers[r]; d.eof && d.got == t.o.content[d.base..]
  {
    var d := t.readers[r];
    assert ReaderInv(t, d);
    if d.got != [] {
      assert t.o.content[d.base..d.offset] == t.o.content[d.base..];
    }
  }

  lemma StepOnlyAppends(s: System, t: Step, now: int)
    requires s.o.Valid() && Enabled(s, t)
    ensures var u := After(s, t, now);
            s.o.content <= u.o.content && (s.o.complete ==> u.o.complete && u.o.content == s.o.content)
  {
    match t
    case WriteBytes(p, n) => RegionsOnlyAppend(s.o, DoWrite(p, n), now);
    case _ =>
  }

  /** Content only grows, and is frozen once the object is complete. */
  lemma {:induction false} ContentIsFrozen(s: System, steps: seq<(Step, int)>, t: System)
    requires Inv(s) && Run(s, steps, t)
    ensures s.o.content <= t.o.content
    ensures s.o.complete ==> t.o.complete && t.o.content == s.o.content
    decreases |steps|
  {
    if steps != [] {
      var m := After(s, steps[0].0, steps[0].1);
      StepKeepsInv(s, steps[0].0, steps[0].1);
      StepOnlyAppends(s, steps[0].0, steps[0].1);
      ContentIsFrozen(m, steps[1..], t);
    }
  }

  /** Reference counting. In every run `readerCount` is the number of open readers, and an
      object with an open reader has an open file unless it was closed explicitly. */
  lemma ReferenceCounting(origin: Origin, steps: seq<(Step, int)>, s: System)
    requires Run(Initial(origin), steps, s)
    ensures s.o.readerCount == |OpenReaders(s.readers)|
    ensures OpenReaders(s.readers) != {} && s.o.file.NoFile? ==> s.forced
  {
    RunKeepsInv(Initial(origin), steps, s);
  }

  lemma FileStaysForReaders(s: System, t: Step, at: int)
    requires Inv(s) && Enabled(s, t) && !t.BeginDelete? && !t.Shutdown?
    requires !s.o.file.NoFile? && OpenReaders(After(s, t, at).readers) != {}
    ensures !After(s, t, at).o.file.NoFile?
  {
    match t
    case CloseReader(r) =>
      assert r in OpenReaders(s.readers);
      OneFewerOpen(s.readers, r, s.readers[r].(phase := Closed));
    case BeginEvict =>
    case _ =>
  }

  /** The only steps that close the file under a reader that stays open are the explicit ones. */
  lemma OnlyExplicitStepsCloseUnderReader(origin: Origin, steps: seq<(Step, int)>, s: System, t: Step, at: int)
    requires Run(Initial(origin), steps, s) && s.o.Valid() && Enabled(s, t)
    requires !s.o.file.NoFile? && After(s, t, at).o.file.NoFile?
    requires OpenReaders(After(s, t, at).readers) != {}
    ensures t.BeginDelete? || t.Shutdown?
  {
    RunKeepsInv(Initial(origin), steps, s);
    if !t.BeginDelete? && !t.Shutdown? {
      FileStaysForReaders(s, t, at);
    }
  }

  /** Eviction is not atomic: the file is closed in one region and the object is unlinked and
      unmapped afterwards. It takes the object away from an open reader exactly when a reader
      that arrived in between is still open; such a reader keeps its file and its bytes. */
  lemma EvictionTakesReadersExactlyInTheGap(origin: Origin, steps: seq<(Step, int)>, s: System, at: int)
    requires Run(Initial(origin), steps, s)
    requires s.removal.Evicting?
    ensures s.o.Valid()
    ensures var t := After(s, FinishRemoval, at);
            && !t.mapped
            && (OpenReaders(t.readers) != {} <==> exists r :: r in s.arrivals && r in OpenReaders(s.readers))
            && (OpenReaders(t.readers) != {} && !t.forced ==> !t.o.file.NoFile?)
            && (forall r :: r in t.readers ==> Faithful(t.o, t.readers[r]))
  {
    RunKeepsInv(Initial(origin), steps, s);
    var open := OpenReaders(s.readers);
    if open != {} {
      var r :| r in open;
      assert r in s.arrivals;
    }
    forall r | r in s.readers
      ensures Faithful(s.o, s.readers[r])
    {
      assert ReaderInv(s, s.readers[r]);
    }
  }

  lemma Prepend(s: System, a: Step, at: int, steps: seq<(Step, int)>, t: System)
    requires s.o.Valid() && Enabled(s, a) && Run(After(s, a, at), steps, t)
    ensures Run(s, [(a, at)] + steps, t)
  {
    assert ([(a, at)] + steps)[1..] == steps;
  }

  /** The gap is real: a run without any explicit close in which an eviction unmaps an object
      that has an open reader. */
  lemma EvictionGapIsReachable() returns (steps: seq<(Step, int)>, t: System)
    ensures Run(Initial(New(0)), steps, t)
    ensures !t.mapped && !t.forced && t.o.readerCount == 1 && OpenReaders(t.readers) == {0}
  {
    var a := Initial(New(0));
    var b := After(a, BeginEvict, 0);
    var c := After(b, OpenReader(0, OwnFile), 0);
    t := After(c, FinishRemoval, 0);
    Prepend(c, FinishRemoval, 0, [], t);
    Prepend(b, OpenReader(0, OwnFile), 0, [(FinishRemoval, 0)], t);
    steps := [(BeginEvict, 0)] + ([(OpenReader(0, OwnFile), 0)] + ([(FinishRemoval, 0)] + []));
    Prepend(a, BeginEvict, 0, [(OpenReader(0, OwnFile), 0)] + ([(FinishRemoval, 0)] + []), t);
  }

  lemma {:induction false} OneStepMore(s: System, steps: seq<(Step, int)>, m: System, a: Step, at: int)
    requires Run(s, steps, m) && m.o.Valid() && Enabled(m, a)
    ensures Run(s, steps + [(a, at)], After(m, a, at))
    decreases |steps|
  {
    if steps == [] {
      Prepend(s, a, at, [], After(m, a, at));
    } else {
      OneStepMore(After(s, steps[0].0, steps[0].1), steps[1..], m, a, at);
      assert (steps + [(a, at)])[1..] == steps[1..] + [(a, at)];
    }
  }

  /** The hypothesis of the streaming theorem is needed: an object that was deleted can still
      be handed a reader, and that reader sees the file of whoever reused the key. */
  lemma RemovedObjectMayReadForeignBytes() returns (steps: seq<(Step, int)>, t: System)
    ensures Run(Initial(New(0)), steps, t)
    ensures t.strayed && 0 in t.readers && t.readers[0].got == [7] && t.o.content == [1]
  {
    t, steps := Initial(New(0)), [];
    OneStepMore(Initial(New(0)), steps, t, WriteBytes([1], 1), 0);
    t, steps := After(t, WriteBytes([1], 1), 0), steps + [(WriteBytes([1], 1), 0)];
    OneStepMore(Initial(New(0)), steps, t, BeginDelete, 0);
    t, steps := After(t, BeginDelete, 0), steps + [(BeginDelete, 0)];
    OneStepMore(Initial(New(0)), steps, t, FinishRemoval, 0);
    t, steps := After(t, FinishRemoval, 0), steps + [(FinishRemoval, 0)];
    assert t.o.content == [1] && t.o.file.NoFile? && t.readers == map[];
    OneStepMore(Initial(New(0)), steps, t, OpenReader(0, OtherFile), 0);
    t, steps := After(t, OpenReader(0, OtherFile), 0), steps + [(OpenReader(0, OtherFile), 0)];
    OneStepMore(Initial(New(0)), steps, t, Read(0, 1, [7]), 0);
    t, steps := After(t, Read(0, 1, [7]), 0), steps + [(Read(0, 1, [7]), 0)];
  }
}
