/** The object of the cache and its reader in imperative form (cache/object.go,
    cache/reader.go), proved against the regions of `ObjectState`. */
module CacheObject {
  import opened ObjectState

  datatype WriteResult = Wrote(n: nat) | ErrComplete | ErrWrite(n: nat)

  class Object {
    const key: string
    var content: seq<Byte>
    var size: nat
    var file: File
    var readerCount: int
    var complete: bool
    var dataChanged: nat
    var closed: set<nat>
    var modified: int
    var accessed: int

    ghost function Abs(): State
      reads this
    {
      State(content, size, file, readerCount, complete, dataChanged, closed, modified, accessed)
    }

    ghost predicate Valid()
      reads this
      ensures Valid() <==> Abs().Valid()
    {
      && size == |content|
      && readerCount >= 0
      && forall c :: c in closed ==> c < dataChanged
    }

    constructor (key: string, now: int)
      ensures Abs() == FreshObject(now) && Valid() && this.key == key
      ensures content == [] && !complete && file.Created? && readerCount == 0 && modified == accessed == now
    {
      this.key := key;
      content, size, file, readerCount, complete := [], 0, Created, 0, false;
      dataChanged, closed, modified, accessed := 0, {}, now, now;
    }

    /** The object of a complete file found in the directory. */
    constructor Loaded(key: string, content: seq<Byte>, now: int)
      ensures Valid() && this.key == key
      ensures Abs() == RestoredObject(content, now)
      ensures this.content == content && size == |content| && complete && file.NoFile? && readerCount == 0
              && accessed == now
    {
      this.key := key;
      this.content, size, file, readerCount, complete := content, |content|, NoFile, 0, true;
      dataChanged, closed, modified, accessed := 0, {}, now, now;
    }

    method SignalDataChanged()
      modifies `dataChanged, `closed
      ensures Abs() == old(Abs()).Signal()
      ensures old(dataChanged) in closed && dataChanged != old(dataChanged)
    {
      closed := closed + {dataChanged};
      dataChanged := dataChanged + 1;
    }

    method Write(p: seq<Byte>, n: nat, now: int) returns (r: WriteResult)
      requires Valid() && n <= |p|
      modifies this
      ensures Abs() == old(Abs()).Write(p, n, now) && Valid()
      ensures r.ErrComplete? <==> old(complete)
      ensures !old(complete) ==> r.n == |content| - |old(content)|
      ensures !old(complete) ==> r.n == (if old(file).Created? then n else 0) && content == old(content) + p[..r.n]
      ensures r.Wrote? <==> !old(complete) && old(file).Created? && n == |p|
      ensures content != old(content) ==> old(dataChanged) in closed
      ensures file == old(file) && readerCount == old(readerCount) && complete == old(complete)
              && accessed == old(accessed)
    {
      if complete {
        return ErrComplete;
      }
      var accepted := if file.Created? then n else 0;
      content := content + p[..accepted];
      size := size + accepted;
      modified := now;
      if accepted > 0 {
        SignalDataChanged();
      }
      r := if file.Created? && accepted == |p| then Wrote(accepted) else ErrWrite(accepted);
    }

    method SetComplete()
      requires Valid()
      modifies this
      ensures Abs() == old(Abs()).SetComplete() && Valid()
      ensures complete && old(dataChanged) in closed && content == old(content) && file == old(file)
    {
      complete := true;
      SignalDataChanged();
    }

    method Close()
      requires Valid()
      modifies this
      ensures Abs() == old(Abs()).Close() && Valid()
      ensures file.NoFile? && content == old(content) && readerCount == old(readerCount)
      ensures !old(file).NoFile? ==> old(dataChanged) in closed
    {
      if !file.NoFile? {
        file := NoFile;
        SignalDataChanged();
      }
    }

    method UseFile(l: Lookup, now: int) returns (ok: bool)
      requires Valid()
      modifies this
      ensures Abs() == old(Abs()).UseFile(l, now) && Valid()
      ensures ok <==> !old(file).NoFile? || !l.NotFound?
      ensures ok ==> readerCount == old(readerCount) + 1 && accessed == now
      ensures ok ==> file == if !old(file).NoFile? then old(file) else if l.OwnFile? then Reopened else Stray
      ensures !ok ==> Abs() == old(Abs())
    {
      if file.NoFile? {
        var f := OpenByName(l);
        if f.NoFile? {
          return false;
        }
        file := f;
      }
      readerCount := readerCount + 1;
      accessed := now;
      ok := true;
    }

    method ReleaseFile() returns (ok: bool)
      requires Valid()
      modifies this
      ensures Abs() == old(Abs()).ReleaseFile() && Valid()
      ensures ok == (old(readerCount) > 0)
      ensures ok ==> readerCount == old(readerCount) - 1
      ensures file == if old(readerCount) == 1 && complete then NoFile else old(file)
      ensures closed == old(closed) && accessed == old(accessed)
    {
      if readerCount <= 0 {
        return false;
      }
      readerCount := readerCount - 1;
      if readerCount <= 0 && complete && !file.NoFile? {
        file := NoFile;
      }
      ok := true;
    }

    /** Whichever region it is. */
    method Perform(g: Region, now: int)
      requires Valid() && (g.DoWrite? ==> g.n <= |g.p|)
      modifies this
      ensures Abs() == Apply(old(Abs()), g, now) && Valid()
    {
      match g {
        case DoWrite(p, n) => var r := Write(p, n, now);
        case DoSetComplete => SetComplete();
        case DoClose => Close();
        case DoUseFile(l) => var ok := UseFile(l, now);
        case DoReleaseFile => var ok := ReleaseFile();
        case DoCloseForEviction => var isClosed := CloseForEviction();
      }
    }

    method Stats() returns (readers: int, bytes: nat, lastAccess: int)
      ensures readers == readerCount && bytes == size && lastAccess == accessed
    {
      readers, bytes, lastAccess := readerCount, size, accessed;
    }

    method CloseForEviction() returns (isClosed: bool)
      requires Valid()
      modifies this
      ensures Abs() == old(Abs()).CloseForEviction() && Valid()
      ensures isClosed == (old(readerCount) <= 0)
      ensures isClosed ==> file.NoFile? && (!old(file).NoFile? ==> old(dataChanged) in closed)
      ensures !isClosed ==> Abs() == old(Abs())
    {
      if readerCount > 0 {
        return false;
      }
      if !file.NoFile? {
        file := NoFile;
        SignalDataChanged();
      }
      isClosed := true;
    }
  }

  datatype Waited = Ready | WaitedEOF | WaitedClosed | WaitCancelled | StillParked(channel: nat)

  /** A reader is parked on a channel that is closed, so that it goes on when it is next
      scheduled, or it still has every reason to wait on it. */
  ghost predicate ParkedStill(s: State, channel: nat, off: int, events: seq<Event>) {
    && (channel in s.closed || (!s.complete && !s.file.NoFile? && s.size <= off && channel == s.dataChanged))
    && (events != [] && events[|events| - 1].Resume? ==> channel !in s.closed)
  }

  /** What a read may return at the moment it returns. It is at the end of a complete
      object that it has passed; it fails where the file is gone; otherwise it gets the bytes
      there are, as many as it wants or all up to the object's size. A read that has not
      returned waits rightly or is woken. */
  ghost predicate ReadRightly(s: State, r: ReadResult, off: int, want: nat, other: seq<Byte>, events: seq<Event>) {
    match r
    case ErrCancelled => events != [] && events[|events| - 1].Cancel?
    case Blocked(channel) => ParkedStill(s, channel, off, events)
    case EOF => s.complete && s.size <= off
    case ErrClosed => s.file.NoFile? && !(s.complete && s.size <= off)
    case ErrOffset => off < 0 && !s.file.NoFile?
    case Data(bytes) =>
      && !s.file.NoFile? && 0 <= off < s.size
      && var end := if s.size < off + want then s.size else off + want;
      if s.file.Stray? then bytes <= other && |bytes| == (if |other| < end - off then |other| else end - off)
      else end <= |s.content| && bytes == s.content[off..end]
  }

  class Reader {
    const obj: Object
    var offset: int

    /** The reader of an object whose file `UseFile` has just pinned. */
    constructor (obj: Object)
      ensures this.obj == obj && offset == 0
    {
      this.obj := obj;
      offset := 0;
    }

    /** Returns with the lock held: the object has a byte at `off`, or never will. While it
        waits, the others do what `events` says; `used` is how much of that has happened. */
    method WaitForData(off: int, events: seq<Event>) returns (w: Waited, used: nat)
      requires obj.Valid() && Possible(events)
      modifies obj
      ensures obj.Valid() && used <= |events| && obj.Abs() == Played(old(obj.Abs()), events[..used])
      ensures w.Ready? ==> !obj.file.NoFile? && off < obj.size
      ensures w.WaitedEOF? ==> obj.complete && obj.size <= off
      ensures w.WaitedClosed? ==> obj.file.NoFile? && !(obj.complete && obj.size <= off)
      ensures w.WaitCancelled? ==> used > 0 && events[used - 1].Cancel?
      ensures w.StillParked? ==> used == |events| && ParkedStill(obj.Abs(), w.channel, off, events)
    {
      used := 0;
      assert events[..0] == [];
      while obj.size - off <= 0
        invariant obj.Valid() && used <= |events| && obj.Abs() == Played(old(obj.Abs()), events[..used])
        decreases |events| - used
      {
        if obj.complete {
          return WaitedEOF, used;
        }
        if obj.file.NoFile? {
          return WaitedClosed, used;
        }
        var channel := obj.dataChanged;
        ghost var before := used;
        var resumed;
        resumed, used := Park(channel, off, events, used);
        PlayedOn(old(obj.Abs()), events[..before], events[before..used]);
        assert events[..used] == events[..before] + events[before..used];
        if !resumed {
          return if used > 0 && events[used - 1].Cancel? then WaitCancelled else StillParked(channel), used;
        }
      }
      w := if obj.file.NoFile? then WaitedClosed else Ready;
    }

    /** The select of `waitForData`, between giving up the lock and taking it again. */
    method Park(channel: nat, off: int, events: seq<Event>, from: nat) returns (resumed: bool, used: nat)
      requires obj.Valid() && Possible(events) && from <= |events|
      requires !obj.complete && !obj.file.NoFile? && obj.size <= off && channel == obj.dataChanged
      modifies obj
      ensures obj.Valid() && from <= used <= |events|
      ensures obj.Abs() == Played(old(obj.Abs()), events[from..used])
      ensures resumed ==> from < used && channel in obj.closed
      ensures !resumed ==> (from < used && events[used - 1].Cancel?) ||
                           (used == |events| && ParkedStill(obj.Abs(), channel, off, events))
    {
      used := from;
      while used < |events|
        invariant obj.Valid() && from <= used <= |events|
        invariant obj.Abs() == Played(old(obj.Abs()), events[from..used])
        invariant used == from || events[used - 1].Resume? ==> channel !in obj.closed
      {
        var e := events[used];
        assert events[from..used + 1][..used - from] == events[from..used];
        used := used + 1;
        match e {
          case Act(g, now) => obj.Perform(g, now);
          case Resume =>
            if channel in obj.closed {
              return true, used;
            }
          case Cancel => return false, used;
        }
      }
      ParkedReaderIsNotForgotten(old(obj.Abs()), events[from..used], off);
      resumed := false;
    }

    method ReadAt(want: nat, off: int, other: seq<Byte>, events: seq<Event>) returns (r: ReadResult, used: nat)
      requires obj.Valid() && Possible(events)
      modifies obj
      ensures obj.Valid() && used <= |events| && obj.Abs() == Played(old(obj.Abs()), events[..used])
      ensures ReadRightly(obj.Abs(), r, off, want, other, events[..used])
      ensures r.Blocked? ==> used == |events|
    {
      var w;
      w, used := WaitForData(off, events);
      match w {
        case WaitedEOF => return EOF, used;
        case WaitedClosed => return ErrClosed, used;
        case WaitCancelled => return ErrCancelled, used;
        case StillParked(channel) => return Blocked(channel), used;
        case Ready =>
      }
      var n := if obj.size - off < want then obj.size - off else want;
      if off < 0 {
        return ErrOffset, used;
      }
      r := Data(if !obj.file.Stray? then obj.content[off..off + n] else if |other| < n then other else other[..n]);
    }

    method Read(want: nat, other: seq<Byte>, events: seq<Event>) returns (r: ReadResult, used: nat)
      requires obj.Valid() && Possible(events)
      modifies obj, `offset
      ensures obj.Valid() && used <= |events| && obj.Abs() == Played(old(obj.Abs()), events[..used])
      ensures ReadRightly(obj.Abs(), r, old(offset), want, other, events[..used])
      ensures r.Blocked? ==> used == |events|
      ensures offset == old(offset) + (if r.Data? then |r.bytes| else 0)
    {
      r, used := ReadAt(want, offset, other, events);
      if r.Data? {
        offset := offset + |r.bytes|;
      }
    }

    method Seek(to: int, whence: Whence) returns (r: SeekResult)
      modifies `offset
      ensures r == obj.Abs().SeekTo(old(offset), to, whence)
      ensures r.ErrNotComplete? <==> !obj.complete
      ensures r.ErrInvalidWhence? <==> obj.complete && whence.BadWhence?
      ensures obj.complete && whence.SeekStart? ==> r == if to < 0 then ErrNegative else At(to)
      ensures obj.complete && whence.SeekCurrent? ==>
                r == if old(offset) + to < 0 then ErrNegative else At(old(offset) + to)
      ensures obj.complete && whence.SeekEnd? ==> r == if obj.size + to < 0 then ErrNegative else At(obj.size + to)
      ensures offset == if r.At? then r.offset else old(offset)
    {
      if !obj.complete {
        return ErrNotComplete;
      }
      var target := to;
      match whence {
        case SeekCurrent => target := offset + to;
        case SeekStart =>
        case SeekEnd => target := obj.size + to;
        case BadWhence => return ErrInvalidWhence;
      }
      if target < 0 {
        return ErrNegative;
      }
      offset := target;
      r := At(target);
    }

    method Close() returns (ok: bool)
      requires obj.Valid()
      modifies obj
      ensures obj.Abs() == old(obj.Abs()).ReleaseFile() && obj.Valid()
      ensures ok == (old(obj.readerCount) > 0)
    {
      ok := obj.ReleaseFile();
    }
  }
}
