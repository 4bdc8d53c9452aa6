/**
  The state of one object of the streaming cache and what every lock-protected region of
  cache/object.go and cache/reader.go does to it or finds out about it.

  The operating system decides how many bytes a write accepts and what opening a path
  yields; both are parameters.
 */
module ObjectState {

  newtype Byte = x: int | 0 <= x < 256

  /** What the `file` field refers to: nothing, the handle returned when the file was
      created, a read-only handle on the object's own file, or (after the path has been
      unlinked and created again by someone else) a handle on a different file. */
  datatype File = NoFile | Created | Reopened | Stray

  /** What opening the object's path by name yields at the moment. */
  datatype Lookup = OwnFile | OtherFile | NotFound

  function OpenByName(l: Lookup): File {
    match l
    case OwnFile => Reopened
    case OtherFile => Stray
    case NotFound => NoFile
  }

  /** What one pass through the loop of `waitForData` under the read lock concludes. */
  datatype Check = Readable | AtEnd | Aborted | MustWait(channel: nat)

  datatype ReadResult = Data(bytes: seq<Byte>) | EOF | ErrClosed | ErrOffset | ErrCancelled | Blocked(channel: nat)

  datatype Whence = SeekStart | SeekCurrent | SeekEnd | BadWhence

  datatype SeekResult = At(offset: nat) | ErrNotComplete | ErrInvalidWhence | ErrNegative

  /** `content` is the object's own file on disk. A channel is the number of its creation;
      `closed` holds the channels that have been closed. */
  datatype State = State(
    content: seq<Byte>,
    size: nat,
    file: File,
    readerCount: int,
    complete: bool,
    dataChanged: nat,
    closed: set<nat>,
    modified: int,
    accessed: int)
  {
    /** What every region keeps: the size field is the file's length, and the current
        channel is newer than every closed one. */
    ghost predicate Valid() {
      && size == |content|
      && readerCount >= 0
      && forall c :: c in closed ==> c < dataChanged
    }

    /** Closes the current channel and installs a new one. */
    function Signal(): State {
      this.(closed := closed + {dataChanged}, dataChanged := dataChanged + 1)
    }

    /** Only the handle that created the file can be written to; `n` is what the
        operating system accepts. */
    function Write(p: seq<Byte>, n: nat, now: int): State
      requires n <= |p|
    {
      if complete then this
      else
        var k := if file.Created? then n else 0;
        var t := this.(content := content + p[..k], size := size + k, modified := now);
        if k > 0 then t.Signal() else t
    }

    function SetComplete(): State {
      this.(complete := true).Signal()
    }

    function Close(): State {
      if file.NoFile? then this else this.(file := NoFile).Signal()
    }

    /** The file the object uses after `UseFile`; `NoFile` means that `UseFile` fails. */
    function FileToUse(l: Lookup): File {
      if file.NoFile? then OpenByName(l) else file
    }

    function UseFile(l: Lookup, now: int): State {
      if FileToUse(l).NoFile? then this
      else this.(file := FileToUse(l), readerCount := readerCount + 1, accessed := now)
    }

    /** Closes the file of a complete object with its last reader, without a signal. */
    function ReleaseFile(): State {
      if readerCount <= 0 then this
      else if readerCount == 1 && complete then this.(readerCount := 0, file := NoFile)
      else this.(readerCount := readerCount - 1)
    }

    function CloseForEviction(): State {
      if readerCount > 0 then this else Close()
    }

    function CheckData(off: int): Check {
      if size - off <= 0 then
        if complete then AtEnd
        else if file.NoFile? then Aborted
        else MustWait(dataChanged)
      else if file.NoFile? then Aborted
      else Readable
    }

    /** What a read of `want` bytes returns when it passes through its lock-protected
        region once; `other` is what a foreign file holds at that place. */
    function ReadOnce(off: int, want: nat, other: seq<Byte>): ReadResult
      requires Valid()
    {
      match CheckData(off)
      case AtEnd => EOF
      case Aborted => ErrClosed
      case MustWait(c) => Blocked(c)
      case Readable =>
        var n := if size - off < want then size - off else want;
        if off < 0 then ErrOffset
        else if file.Stray? then Data(if |other| < n then other else other[..n])
        else Data(content[off..off + n])
    }

    function SeekTo(current: int, offset: int, whence: Whence): SeekResult {
      if !complete then ErrNotComplete
      else if whence.BadWhence? then ErrInvalidWhence
      else
        var base := match whence case SeekCurrent => current case SeekEnd => size case _ => 0;
        if base + offset < 0 then ErrNegative else At(base + offset)
    }
  }

  function FreshObject(now: int): State {
    State([], 0, Created, 0, false, 0, {}, now, now)
  }

  /** An object found in the directory at startup. */
  function RestoredObject(content: seq<Byte>, now: int): State {
    State(content, |content|, NoFile, 0, true, 0, {}, now, now)
  }

  /** The regions an object's methods run under the write lock. */
  datatype Region =
    | DoWrite(p: seq<Byte>, n: nat)
    | DoSetComplete
    | DoClose
    | DoUseFile(l: Lookup)
    | DoReleaseFile
    | DoCloseForEviction

  function Apply(s: State, g: Region, now: int): State
    requires g.DoWrite? ==> g.n <= |g.p|
  {
    match g
    case DoWrite(p, n) => s.Write(p, n, now)
    case DoSetComplete => s.SetComplete()
    case DoClose => s.Close()
    case DoUseFile(l) => s.UseFile(l, now)
    case DoReleaseFile => s.ReleaseFile()
    case DoCloseForEviction => s.CloseForEviction()
  }

  /** Every region keeps the object valid, only ever appends to the content, never after
      completion, and never makes an object incomplete again. */
  lemma RegionsOnlyAppend(s: State, g: Region, now: int)
    requires s.Valid() && (g.DoWrite? ==> g.n <= |g.p|)
    ensures var t := Apply(s, g, now);
            && t.Valid()
            && s.content <= t.content
            && (s.complete ==> t.complete && t.content == s.content)
            && s.closed <= t.closed && s.dataChanged <= t.dataChanged
  {
    if g.DoWrite? {
      assert s.content <= s.Write(g.p, g.n, now).content;
    }
  }

  /** Whoever has to be woken is woken: a region that changes the conclusion of a waiting
      reader, at whatever offset, closes the channel that reader has captured. This covers
      `ReleaseFile`, which closes the file of a complete object without a signal, because a
      reader of a complete object never waits. */
  lemma ChangesAreSignalled(s: State, g: Region, now: int, off: int)
    requires s.Valid() && (g.DoWrite? ==> g.n <= |g.p|)
    requires s.CheckData(off).MustWait?
    ensures var t := Apply(s, g, now);
            t.CheckData(off) == s.CheckData(off) || s.dataChanged in t.closed
  {
  }

  // ------------------------------------------------------------------ one pass of a read

  /** A read waits exactly for data of an open object that is not complete. */
  lemma WaitsIff(s: State, off: int)
    ensures s.CheckData(off).MustWait? <==> !s.complete && !s.file.NoFile? && s.size <= off
    ensures s.CheckData(off).MustWait? ==> s.CheckData(off).channel == s.dataChanged
  {
  }

  /** The answers of one pass: the end of a complete object, a closed file, a wait, a place
      before the start, or the bytes there are. */
  lemma OnePassAnswers(s: State, off: int, want: nat, other: seq<Byte>)
    requires s.Valid()
    ensures var r := s.ReadOnce(off, want, other);
            && (r.EOF? <==> s.complete && s.size <= off)
            && (r.ErrClosed? <==> s.file.NoFile? && !(s.complete && s.size <= off))
            && (r.Blocked? <==> !s.complete && !s.file.NoFile? && s.size <= off)
            && (r.ErrOffset? <==> !s.file.NoFile? && off < 0)
            && (r.Data? <==> !s.file.NoFile? && 0 <= off < s.size)
            && (r.Data? && !s.file.Stray? ==>
                  r.bytes == s.content[off..if s.size < off + want then s.size else off + want])
  {
  }

  // ------------------------------------------------------------------ a waiting reader

  /** What happens while a reader has given up the lock: someone else runs a region, the
      reader is scheduled (which helps only if its channel is closed), or its context is
      cancelled. */
  datatype Event = Act(g: Region, now: int) | Resume | Cancel

  predicate Possible(events: seq<Event>) {
    forall k :: 0 <= k < |events| && events[k].Act? && events[k].g.DoWrite? ==> events[k].g.n <= |events[k].g.p|
  }

  /** The object after some events, none of which is the reader's own doing. */
  function Played(s: State, events: seq<Event>): State
    requires Possible(events)
  {
    if events == [] then s
    else
      var e, before := events[|events| - 1], Played(s, events[..|events| - 1]);
      if e.Act? then Apply(before, e.g, e.now) else before
  }

  lemma {:induction false} PlayedOn(s: State, a: seq<Event>, b: seq<Event>)
    requires Possible(a) && Possible(b)
    ensures Possible(a + b) && Played(s, a + b) == Played(Played(s, a), b)
    decreases |b|
  {
    if b == [] {
      assert a + b == a;
    } else {
      PlayedOn(s, a, b[..|b| - 1]);
      assert (a + b)[..|a + b| - 1] == a + b[..|b| - 1];
    }
  }

  /** No lost wake-up: whatever the others do while a reader is parked on the channel it has
      captured, the channel is closed or the reader is still right to wait on it. */
  lemma {:induction false} ParkedReaderIsNotForgotten(s: State, events: seq<Event>, off: int)
    requires s.Valid() && Possible(events) && s.CheckData(off).MustWait?
    ensures var t := Played(s, events);
            t.Valid() && (s.dataChanged in t.closed || t.CheckData(off) == s.CheckData(off))
  {
    if events != [] {
      var n := |events| - 1;
      ParkedReaderIsNotForgotten(s, events[..n], off);
      var t := Played(s, events[..n]);
      if events[n].Act? {
        RegionsOnlyAppend(t, events[n].g, events[n].now);
        if s.dataChanged !in t.closed {
          ChangesAreSignalled(t, events[n].g, events[n].now, off);
        }
      }
    }
  }
}
