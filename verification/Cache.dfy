/**
  The cache of cache/cache.go in imperative form: the map of objects, the cache directory
  and the cleaner. Operations are proved against `CacheStore`, the cleaner against
  `CacheEviction`. File operations succeed.
 */
module Cache {
  import opened Wrappers
  import opened ObjectState
  import opened CacheObject
  import opened CacheStore
  import opened CacheEviction

  function Lengths(files: map<string, seq<Byte>>): map<string, nat> {
    map f | f in files :: |files[f]|
  }

  lemma InsertedShape(snap: Snapshot, key: string, now: int)
    requires key !in snap.states
    ensures snap.Inserted(key, FreshObject(now)).Shape() == snap.Shape().Create(key)
    ensures snap.Stored() && !IsMarker(key) ==> snap.Inserted(key, FreshObject(now)).Stored()
  {
    var r := snap.Inserted(key, FreshObject(now));
    assert r.Shape().files == snap.Shape().Create(key).files;
    assert r.Shape().objects == snap.Shape().Create(key).objects;
  }

  /** `n` bytes are written to the object of `key`, which becomes `st`. */
  lemma WrittenShape(snap: Snapshot, key: string, st: State, n: nat)
    requires key in snap.states && st.size == snap.states[key].size + n && st.complete == snap.states[key].complete
    requires |st.content| == st.size
    ensures snap.Changed(key, st).WithFile(key, st.content).Shape() == snap.Shape().Write(key, n)
    ensures snap.Stored() ==> snap.Changed(key, st).WithFile(key, st.content).Stored()
  {
    var r := snap.Changed(key, st).WithFile(key, st.content);
    assert r.Shape().files == snap.Shape().Write(key, n).files;
    assert r.Shape().objects == snap.Shape().Write(key, n).objects;
  }

  /** The object of `key` becomes `st` without a change that the directory could show. */
  lemma ChangedShape(snap: Snapshot, key: string, st: State)
    requires key in snap.states && st.size == snap.states[key].size && st.complete == snap.states[key].complete
    ensures snap.Changed(key, st).Shape() == snap.Shape()
    ensures snap.Stored() && st.content == snap.states[key].content ==> snap.Changed(key, st).Stored()
  {
    assert snap.Changed(key, st).Shape().objects == snap.Shape().objects;
  }

  lemma MarkedShape(snap: Snapshot, key: string)
    ensures snap.WithFile(Marker(key), []).Shape() == snap.Shape().StaleComplete(key)
    ensures snap.Stored() ==> snap.WithFile(Marker(key), []).Stored()
  {
    assert snap.WithFile(Marker(key), []).Shape().files == snap.Shape().StaleComplete(key).files;
  }

  lemma CompletedShape(snap: Snapshot, key: string, st: State)
    requires key in snap.states && st == snap.states[key].SetComplete()
    ensures snap.Changed(key, st).WithFile(Marker(key), []).Shape() == snap.Shape().SetComplete(key)
    ensures snap.Stored() ==> snap.Changed(key, st).WithFile(Marker(key), []).Stored()
  {
    var r := snap.Changed(key, st).WithFile(Marker(key), []);
    assert r.Shape().files == snap.Shape().SetComplete(key).files;
    assert r.Shape().objects == snap.Shape().SetComplete(key).objects;
  }

  lemma ForgottenShape(snap: Snapshot, key: string)
    requires key in snap.states
    ensures snap.Forgotten(key).Shape() == snap.Shape().Delete(key)
    ensures snap.Stored() ==> snap.Forgotten(key).Stored()
  {
    assert snap.Forgotten(key).Shape().files == snap.Shape().Delete(key).files;
    assert snap.Forgotten(key).Shape().objects == snap.Shape().Delete(key).objects;
    if snap.Stored() {
      forall k | k in snap.Forgotten(key).states
        ensures k in snap.Forgotten(key).files && snap.Forgotten(key).files[k] == snap.files[k]
      {
        assert k != Marker(key);
      }
    }
  }

  /** The names that loading keeps, and the keys it restores. */
  function KeptNames(names: set<string>): set<string> {
    set f | f in names && (IsMarker(f) || Marker(f) in names)
  }

  function RestoredKeys(names: set<string>): set<string> {
    set f | f in names && !IsMarker(f) && Marker(f) in names
  }

  lemma LoadedFiles(listing: map<string, seq<Byte>>, files: map<string, seq<Byte>>, s: Store)
    requires files.Keys == KeptNames(listing.Keys) && forall f :: f in files ==> files[f] == listing[f]
    requires s.files == Lengths(listing)
    ensures Lengths(files) == s.Load().files
  {
    forall f
      ensures f in Lengths(files) <==> f in s.Load().files
    {
      assert f in files.Keys <==> f in KeptNames(listing.Keys);
    }
  }

  lemma LoadedLives(listing: map<string, seq<Byte>>, lives: map<string, Live>, s: Store)
    requires lives.Keys == RestoredKeys(listing.Keys) && forall f :: f in lives ==> lives[f] == Live(|listing[f]|, true)
    requires s.files == Lengths(listing)
    ensures lives == s.Load().objects
  {
    forall f
      ensures f in lives <==> f in s.Load().objects
    {
      assert f in lives.Keys <==> f in RestoredKeys(listing.Keys);
    }
  }

  /** One more name of the listing has been dealt with. */
  lemma NameDone(names: set<string>, todo: set<string>, f: string)
    requires f in todo && todo <= names
    ensures var marked := IsMarker(f) || Marker(f) in names;
            KeptNames(names) + (todo - {f}) == if marked then KeptNames(names) + todo else KeptNames(names) + todo - {f}
    ensures RestoredKeys(names) - (todo - {f}) ==
            if !IsMarker(f) && Marker(f) in names then RestoredKeys(names) - todo + {f} else RestoredKeys(names) - todo
  {
  }

  /** The objects and the files at one moment. */
  datatype Snapshot = Snapshot(states: map<string, State>, files: map<string, seq<Byte>>)
  {
    function Stats(): map<string, Stat> {
      map k | k in states :: Stat(states[k].readerCount, states[k].size, states[k].accessed)
    }

    function Shape(): Store {
      Store(Lengths(files), map k | k in states :: Live(states[k].size, states[k].complete))
    }

    /** The object of `key` has become `st`. */
    function Changed(key: string, st: State): Snapshot {
      this.(states := states[key := st])
    }

    function WithFile(f: string, content: seq<Byte>): Snapshot {
      this.(files := files[f := content])
    }

    /** A new object is mapped: its file is created and a marker removed. */
    function Inserted(key: string, st: State): Snapshot {
      Snapshot(states[key := st], (files - {Marker(key)})[key := []])
    }

    /** An object has left the map with its file, and with the marker if it was complete. */
    function Forgotten(key: string): Snapshot
      requires key in states
    {
      Snapshot(states - {key}, if states[key].complete then files - {key} - {Marker(key)} else files - {key})
    }

    /** No key is named like a marker, and the file of every object holds its content. */
    predicate Stored() {
      forall k :: k in states ==> !IsMarker(k) && k in files && files[k] == states[k].content
    }
  }

  /** The directory has file `f` just as it was in `dir`, from which the keys `gone` have been
      evicted. */
  ghost predicate InDir(files: map<string, seq<Byte>>, dir: map<string, seq<Byte>>, gone: set<string>, f: string) {
    && (f in files <==> f in dir && f !in gone && f !in Markers(gone))
    && (f in files ==> files[f] == dir[f])
  }

  lemma OneMoreOutOfDir(files: map<string, seq<Byte>>, dir: map<string, seq<Byte>>, gone: set<string>, k: string)
    requires forall f {:trigger InDir(files, dir, gone, f)} :: InDir(files, dir, gone, f)
    ensures forall f :: InDir(files - {k, Marker(k)}, dir, gone + {k}, f)
  {
    forall f
      ensures InDir(files - {k, Marker(k)}, dir, gone + {k}, f)
    {
      assert InDir(files, dir, gone, f);
      assert f in Markers(gone + {k}) <==> f in Markers(gone) || f == Marker(k);
    }
  }

  lemma AllInDir(files: map<string, seq<Byte>>, dir: map<string, seq<Byte>>, gone: set<string>)
    requires forall f {:trigger InDir(files, dir, gone, f)} :: InDir(files, dir, gone, f)
    ensures files == dir - gone - Markers(gone)
  {
    forall f
      ensures f in files <==> f in dir - gone - Markers(gone)
      ensures f in files ==> files[f] == dir[f]
    {
      assert InDir(files, dir, gone, f);
    }
  }

  class Cache {
    const maxSize: int
    const maxUnusedTime: int
    var objects: map<string, Object>
    var files: map<string, seq<Byte>>
    var cleaning: bool

    ghost predicate Valid()
      reads `objects, objects.Values
    {
      forall k :: k in objects ==> objects[k].key == k && objects[k].Valid()
    }

    ghost function Snap(): Snapshot
      reads `objects, `files, objects.Values
    {
      Snapshot(map k | k in objects :: objects[k].Abs(), files)
    }

    function Lim(): Limits {
      Limits(maxSize, maxUnusedTime)
    }

    /** The bookkeeping the cleaner reads. */
    ghost function View(): map<string, Stat>
      reads `objects, `files, objects.Values
    {
      Snap().Stats()
    }

    /** The map and the directory as `CacheStore` sees them. */
    ghost function Shape(): Store
      reads `objects, `files, objects.Values
    {
      Snap().Shape()
    }

    constructor (maxSize: int, maxUnusedTime: int)
      ensures Valid() && Shape() == Store(map[], map[])
      ensures this.maxSize == maxSize && this.maxUnusedTime == maxUnusedTime
    {
      this.maxSize, this.maxUnusedTime := maxSize, maxUnusedTime;
      objects, files, cleaning := map[], map[], false;
    }

    /** None when the key exists. */
    method CreateObject(key: string, now: int) returns (r: Option<Object>)
      requires Valid()
      modifies this
      ensures Valid() && Shape() == old(Shape()).Create(key)
      ensures r.None? <==> key in old(objects)
      ensures r.Some? ==>
                fresh(r.value) && objects == old(objects)[key := r.value] && r.value.Abs() == FreshObject(now)
      ensures old(Snap()).Stored() && !IsMarker(key) ==> Snap().Stored()
    {
      if key in objects {
        return None;
      }
      var o := new Object(key, now);
      assert Valid() && Snap() == old(Snap());
      InsertNew(o, now);
      r := Some(o);
    }

    method InsertNew(o: Object, now: int)
      requires Valid() && o.Valid() && o.key !in objects && o.Abs() == FreshObject(now)
      modifies `objects, `files
      ensures Valid() && Shape() == old(Shape()).Create(o.key) && objects == old(objects)[o.key := o]
      ensures old(Snap()).Stored() && !IsMarker(o.key) ==> Snap().Stored()
    {
      InsertedShape(Snap(), o.key, now);
      Insert(o);
    }

    /** Creates the empty file of a new object, removes a marker, and maps the object. */
    method Insert(o: Object)
      requires Valid() && o.Valid() && o.key !in objects
      modifies `objects, `files
      ensures Valid() && Snap() == old(Snap()).Inserted(o.key, o.Abs()) && objects == old(objects)[o.key := o]
    {
      ghost var states := Snap().states;
      files := (files - {Marker(o.key)})[o.key := []];
      objects := objects[o.key := o];
      assert Snap().states == states[o.key := o.Abs()];
    }

    /** Whether the map has this very object. */
    predicate Mapped(o: Object)
      reads `objects
    {
      o.key in objects && objects[o.key] == o
    }

    /** Writes to an object through its file. The file of an object that has left the map is
        unlinked or closed, so that the directory does not change. */
    method WriteObject(o: Object, p: seq<Byte>, n: nat, now: int) returns (r: WriteResult)
      requires Valid() && o.Valid() && n <= |p|
      modifies `files, o
      ensures Valid() && objects == old(objects)
      ensures o.Abs() == old(o.Abs()).Write(p, n, now)
      ensures r.ErrComplete? <==> old(o.complete)
      ensures Shape() ==
              if r.ErrComplete? || r.n == 0 || !Mapped(o) then old(Shape()) else old(Shape()).Write(o.key, r.n)
      ensures old(Snap()).Stored() ==> Snap().Stored()
    {
      ghost var snap := Snap();
      r := WriteBytes(o, p, n, now);
      if Mapped(o) {
        if !r.ErrComplete? && r.n > 0 {
          WrittenShape(snap, o.key, o.Abs(), r.n);
          WriteFile(o.key, o.content);
        } else {
          ChangedShape(snap, o.key, o.Abs());
        }
      }
    }

    method WriteBytes(o: Object, p: seq<Byte>, n: nat, now: int) returns (r: WriteResult)
      requires Valid() && o.Valid() && n <= |p|
      modifies o
      ensures Valid() && o.Valid()
      ensures o.Abs() == old(o.Abs()).Write(p, n, now)
      ensures r.ErrComplete? <==> old(o.complete)
      ensures var k := if r.ErrComplete? then 0 else r.n;
              && o.size == old(o.size) + k && o.complete == old(o.complete)
              && (k == 0 ==> o.content == old(o.content))
      ensures Snap() == if Mapped(o) then old(Snap()).Changed(o.key, o.Abs()) else old(Snap())
    {
      ghost var snap := Snap();
      MappedOnce(o);
      r := o.Write(p, n, now);
      assert Snap().states == if Mapped(o) then snap.states[o.key := o.Abs()] else snap.states;
    }

    lemma MappedOnce(o: Object)
      requires Valid()
      ensures forall k :: k in objects ==> (objects[k] == o <==> Mapped(o) && k == o.key)
    {
    }

    /** The effect on the directory of a write or a new file. */
    method WriteFile(f: string, content: seq<Byte>)
      requires Valid()
      modifies `files
      ensures Valid() && Snap() == old(Snap()).WithFile(f, content)
    {
      ghost var states := Snap().states;
      files := files[f := content];
      assert Snap().states == states;
    }

    /** Marks an object complete; the marker is created under the object's key whether or not
        the object is still in the map. */
    method CompleteObject(o: Object)
      requires Valid() && o.Valid()
      modifies `files, o
      ensures Valid() && objects == old(objects)
      ensures o.Abs() == old(o.Abs()).SetComplete()
      ensures Shape() == if Mapped(o) then old(Shape()).SetComplete(o.key) else old(Shape()).StaleComplete(o.key)
      ensures Marker(o.key) in files
      ensures old(Snap()).Stored() ==> Snap().Stored()
    {
      ghost var snap := Snap();
      MarkedShape(snap, o.key);
      Complete(o);
      if Mapped(o) {
        CompletedShape(snap, o.key, o.Abs());
      }
      WriteFile(Marker(o.key), []);
    }

    method Complete(o: Object)
      requires Valid() && o.Valid()
      modifies o
      ensures Valid() && o.Abs() == old(o.Abs()).SetComplete()
      ensures Snap() == if Mapped(o) then old(Snap()).Changed(o.key, o.Abs()) else old(Snap())
    {
      ghost var snap := Snap();
      MappedOnce(o);
      o.SetComplete();
      assert Snap().states == if Mapped(o) then snap.states[o.key := o.Abs()] else snap.states;
    }

    method DeleteObject(key: string)
      requires Valid()
      modifies this, if key in objects then {objects[key]} else {}
      ensures Valid() && Shape() == old(Shape()).Delete(key)
      ensures objects == old(objects) - {key}
      ensures key in old(objects) ==> old(objects)[key].Abs() == old(objects[key].Abs()).Close()
      ensures old(Snap()).Stored() ==> Snap().Stored()
    {
      if key in objects {
        ghost var snap := Snap();
        CloseObject(key);
        ChangedShape(snap, key, objects[key].Abs());
        ForgottenShape(Snap(), key);
        Forget(key);
      }
    }

    method CloseObject(key: string)
      requires Valid() && key in objects
      modifies objects[key]
      ensures Valid() && objects[key].Abs() == old(objects[key].Abs()).Close()
      ensures Snap() == old(Snap()).Changed(key, objects[key].Abs())
    {
      ghost var snap := Snap();
      MappedOnce(objects[key]);
      objects[key].Close();
      assert Snap().states == snap.states[key := objects[key].Abs()];
    }

    /** Removes an object's file, takes it out of the map, and removes the marker of a
        complete object. */
    method Forget(key: string)
      requires Valid() && key in objects
      modifies `objects, `files
      ensures Valid() && Snap() == old(Snap()).Forgotten(key) && objects == old(objects) - {key}
    {
      ghost var states := Snap().states;
      var o := objects[key];
      files := files - {key};
      objects := objects - {key};
      if o.complete {
        files := files - {Marker(key)};
      }
      assert Snap().states == states - {key};
    }

    /** Closes every object, in the arbitrary order of a map iteration. */
    method CloseAll()
      requires Valid()
      modifies objects.Values
      ensures Valid()
      ensures forall k :: k in objects ==> objects[k].Abs() == old(objects[k].Abs()).Close()
    {
      var todo := objects.Keys;
      while todo != {}
        invariant todo <= objects.Keys && Valid()
        invariant forall k :: k in objects ==>
                                objects[k].Abs() == if k in todo then old(objects[k].Abs())
                                else old(objects[k].Abs()).Close()
        decreases todo
      {
        var k :| k in todo;
        todo := todo - {k};
        objects[k].Close();
      }
    }

    method Clear()
      requires Valid()
      modifies this, objects.Values
      ensures Valid() && Shape() == old(Shape()).Clear()
      ensures forall k :: k in old(objects) ==> old(objects)[k].Abs() == old(objects[k].Abs()).Close()
    {
      CloseAll();
      objects, files := map[], map[];
    }

    method Close()
      requires Valid()
      modifies this, objects.Values
      ensures Valid() && Shape() == old(Shape()).Close()
      ensures forall k :: k in old(objects) ==> old(objects)[k].Abs() == old(objects[k].Abs()).Close()
    {
      CloseAll();
      objects := map[];
    }

    // ---------------------------------------------------------------- the cleaner

    /** The object cached as `k` when the cleaner started is as it was, or closed if it has
        gone. */
    ghost predicate Kept(obs: map<string, Object>, snap: Snapshot, gone: set<string>, k: string)
      requires snap.states.Keys == obs.Keys
      reads obs.Values
    {
      k in obs ==>
        && obs[k].key == k && obs[k].Valid()
        && obs[k].Abs() == if k in gone then snap.states[k].CloseForEviction() else snap.states[k]
    }

    /** The objects `obs` minus those under `gone` are cached and as they were; the bookkeeping
        was `before`. */
    ghost predicate Reduced(obs: map<string, Object>, before: map<string, Stat>, snap: Snapshot, gone: set<string>)
      reads `objects, `files, obs.Values
    {
      && snap.states.Keys == obs.Keys && before == snap.Stats()
      && gone <= obs.Keys && objects == obs - gone
      && (forall f {:trigger InDir(files, snap.files, gone, f)} :: InDir(files, snap.files, gone, f))
      && forall k {:trigger Kept(obs, snap, gone, k)} :: Kept(obs, snap, gone, k)
    }

    /** Removes an object and its files unless it has a reader. */
    method Evict(key: string, ghost obs: map<string, Object>, ghost before: map<string, Stat>, ghost snap: Snapshot,
                 ghost gone: set<string>)
      returns (removed: bool)
      requires Reduced(obs, before, snap, gone) && key in objects
      modifies `objects, `files, objects[key]
      ensures removed <==> before[key].readers <= 0
      ensures Reduced(obs, before, snap, if removed then gone + {key} else gone)
    {
      var o := objects[key];
      assert Kept(obs, snap, gone, key);
      removed := o.CloseForEviction();
      if removed {
        OneMoreOutOfDir(files, snap.files, gone, key);
        files := files - {key, Marker(key)};
        objects := objects - {key};
      }
      ghost var gone' := if removed then gone + {key} else gone;
      forall k
        ensures Kept(obs, snap, gone', k)
      {
        assert old(Kept(obs, snap, gone, k));
      }
    }

    lemma ReducedView(obs: map<string, Object>, before: map<string, Stat>, snap: Snapshot, gone: set<string>)
      requires Reduced(obs, before, snap, gone)
      ensures Valid() && View() == before - gone && Shape().objects == snap.Shape().objects - gone
      ensures forall k :: k in objects ==> objects[k] == obs[k] && objects[k].Abs() == snap.states[k]
    {
      forall k | k in objects
        ensures Kept(obs, snap, gone, k)
      {
      }
    }

    lemma ReducedGone(obs: map<string, Object>, before: map<string, Stat>, snap: Snapshot, gone: set<string>)
      requires Reduced(obs, before, snap, gone)
      ensures forall k :: k in gone ==> obs[k].Abs() == snap.states[k].CloseForEviction()
    {
      forall k | k in gone
        ensures Kept(obs, snap, gone, k)
      {
      }
    }

    lemma ReducedShape(obs: map<string, Object>, before: map<string, Stat>, snap: Snapshot, gone: set<string>)
      requires Reduced(obs, before, snap, gone)
      ensures Valid() && View() == before - gone
      ensures obs.Keys - objects.Keys == gone && Shape() == snap.Shape().EvictAll(gone)
      ensures files == snap.files - gone - Markers(gone)
    {
      ReducedView(obs, before, snap, gone);
      AllInDir(files, snap.files, gone);
    }

    /** Evicts what has expired and lists the rest. */
    method FirstPass(now: int, ghost obs: map<string, Object>, ghost before: map<string, Stat>, ghost snap: Snapshot)
      returns (es: seq<Entry>, size: nat, largest: Option<string>, largestSize: nat, ghost gone: set<string>)
      requires Reduced(obs, before, snap, {})
      modifies `objects, `files, obs.Values
      ensures Reduced(obs, before, snap, gone)
      ensures PassState(before, {}, now, Lim(), es, size, largest, largestSize, gone)
    {
      es, size, largest, largestSize, gone := [], 0, None, 0, {};
      var todo := objects.Keys;
      while todo != {}
        invariant Reduced(obs, before, snap, gone)
        invariant PassState(before, todo, now, Lim(), es, size, largest, largestSize, gone)
        decreases todo
      {
        var k :| k in todo;
        es, size, largest, largestSize, gone :=
          PassOver(k, now, es, size, largest, largestSize, obs, before, snap, todo, gone);
        todo := todo - {k};
      }
    }

    /** One object of the first pass. */
    method PassOver(k: string, now: int, es0: seq<Entry>, size0: nat, largest0: Option<string>, largestSize0: nat,
                    ghost obs: map<string, Object>, ghost before: map<string, Stat>, ghost snap: Snapshot,
                    ghost todo: set<string>, ghost gone0: set<string>)
      returns (es: seq<Entry>, size: nat, largest: Option<string>, largestSize: nat, ghost gone: set<string>)
      requires Reduced(obs, before, snap, gone0) && k in todo
      requires PassState(before, todo, now, Lim(), es0, size0, largest0, largestSize0, gone0)
      modifies `objects, `files, obs.Values
      ensures Reduced(obs, before, snap, gone)
      ensures PassState(before, todo - {k}, now, Lim(), es, size, largest, largestSize, gone)
    {
      es, size, largest, largestSize, gone := es0, size0, largest0, largestSize0, gone0;
      var s := ReadStat(k, obs, before, snap, gone);
      if Expired(s, now, Lim()) {
        PassEvicts(before, todo, now, Lim(), es, size, largest, largestSize, gone, k);
        var removed := Evict(k, obs, before, snap, gone);
        gone := gone + {k};
      } else {
        PassKeeps(before, todo, now, Lim(), es, size, largest, largestSize, gone, k);
        if LongIdle(s, now) && (largest.None? || s.size > largestSize) {
          largest, largestSize := Some(k), s.size;
        }
        size := size + s.size;
        es := es + [Entry(k, s)];
      }
    }

    method ReadStat(key: string, ghost obs: map<string, Object>, ghost before: map<string, Stat>, ghost snap: Snapshot,
                    ghost gone: set<string>)
      returns (s: Stat)
      requires Reduced(obs, before, snap, gone) && key in obs && key !in gone
      ensures key in before && s == before[key] && key in objects
    {
      assert Kept(obs, snap, gone, key);
      var readers, bytes, accessed := objects[key].Stats();
      s := Stat(readers, bytes, accessed);
    }

    /** Evicts entry `i` of the size phase if it is idle. */
    method EvictEntry(es: seq<Entry>, i: nat, largest: Option<string>, size: int, ghost obs: map<string, Object>,
                      ghost before: map<string, Stat>, ghost snap: Snapshot, ghost gone0: set<string>,
                      ghost goal: set<string>)
      returns (rest: int, ghost gone: set<string>)
      requires Reduced(obs, before, snap, gone0) && DistinctKeys(es) && i < |es|
      requires PhaseState(es, i, largest, size, Lim(), gone0, goal)
      requires es[i].key in before && before[es[i].key] == es[i].stat && largest != Some(es[i].key) && size > maxSize
      modifies `objects, `files, obs.Values
      ensures PhaseState(es, i + 1, largest, rest, Lim(), gone, goal)
      ensures Reduced(obs, before, snap, gone)
    {
      var removed := Evict(es[i].key, obs, before, snap, gone0);
      rest := if removed then size - es[i].stat.size else size;
      gone := if removed then gone0 + {es[i].key} else gone0;
    }

    /** Evicts idle objects in the given order until the budget is met. */
    method SizePass(es: seq<Entry>, largest: Option<string>, size0: int, ghost obs: map<string, Object>,
                    ghost before: map<string, Stat>, ghost snap: Snapshot, ghost gone0: set<string>)
      returns (ghost gone: set<string>)
      requires Reduced(obs, before, snap, gone0) && DistinctKeys(es)
      requires forall e :: e in es ==> e.key in before && before[e.key] == e.stat
                                       && (e.key in gone0 ==> largest == Some(e.key))
      modifies `objects, `files, obs.Values
      ensures gone == gone0 + KeysOf(Victims(es, largest, size0, Lim()))
      ensures Reduced(obs, before, snap, gone)
    {
      gone := gone0;
      var size := size0;
      ghost var goal := gone0 + KeysOf(Victims(es, largest, size0, Lim()));
      assert es[0..] == es;
      for i := 0 to |es|
        invariant Reduced(obs, before, snap, gone)
        invariant PhaseState(es, i, largest, size, Lim(), gone, goal)
      {
        if largest == Some(es[i].key) {
          continue;
        }
        if size <= maxSize {
          break;
        }
        size, gone := EvictEntry(es, i, largest, size, obs, before, snap, gone, goal);
      }
    }

    /** Drops the largest candidate if the ratio test says so. */
    method DropLargest(largest: Option<string>, largestSize: nat, size: nat,
                       ghost obs: map<string, Object>, ghost before: map<string, Stat>, ghost snap: Snapshot,
                       ghost gone0: set<string>)
      returns (rest: int, ghost gone: set<string>)
      requires Reduced(obs, before, snap, gone0)
      requires largest.Some? ==>
                 largest.value in before - gone0 && largestSize == before[largest.value].size
                 && before[largest.value].readers <= 0
      modifies `objects, `files, obs.Values
      ensures Reduced(obs, before, snap, gone)
      ensures gone == gone0 + DroppedKey(before - gone0, largest, Lim())
      ensures rest == size - Dropped(before - gone0, largest, Lim())
    {
      rest, gone := size, gone0;
      if largest.Some? && 10 * maxSize > 3 * largestSize {
        var removed := Evict(largest.value, obs, before, snap, gone);
        if removed {
          rest := rest - largestSize;
          gone := gone + {largest.value};
        }
      }
    }

    /** The size phase, after the largest candidate. */
    method ReduceSize(es: seq<Entry>, size: nat, largest: Option<string>, largestSize: nat,
                      ghost obs: map<string, Object>, ghost before: map<string, Stat>, ghost snap: Snapshot,
                      ghost gone0: set<string>)
      returns (ghost gone: set<string>)
      requires Reduced(obs, before, snap, gone0) && Lists(es, before - gone0)
      requires largest.Some? ==>
                 largest.value in before - gone0 && largestSize == before[largest.value].size
                 && before[largest.value].readers <= 0
      modifies `objects, `files, obs.Values
      ensures gone == gone0 + SizeEvicted(before - gone0, es, size, largest, Lim())
      ensures Reduced(obs, before, snap, gone)
    {
      var rest;
      rest, gone := DropLargest(largest, largestSize, size, obs, before, snap, gone0);
      StillListed(es, before, gone0, largest, Lim());
      gone := SizePass(es, largest, rest, obs, before, snap, gone);
    }

    method ListOldestFirst(now: int, ghost obs: map<string, Object>, ghost before: map<string, Stat>,
                           ghost snap: Snapshot)
      returns (sorted: seq<Entry>, size: nat, largest: Option<string>, largestSize: nat, ghost gone: set<string>)
      requires Reduced(obs, before, snap, {})
      modifies `objects, `files, obs.Values
      ensures Reduced(obs, before, snap, gone)
      ensures before - gone == Unexpired(before, now, Lim())
      ensures Lists(sorted, before - gone) && OldestFirst(sorted) && size == Total(sorted)
      ensures IsLargest(before - gone, now, largest)
      ensures largest.Some? ==> largest.value in before && largestSize == before[largest.value].size
    {
      var entries;
      entries, size, largest, largestSize, gone := FirstPass(now, obs, before, snap);
      sorted := SortByAccess(entries);
    }

    method CleanAll(now: int, ghost obs: map<string, Object>, ghost before: map<string, Stat>, ghost snap: Snapshot)
      returns (ghost largest: Option<string>, ghost es: seq<Entry>, ghost gone: set<string>)
      requires Reduced(obs, before, snap, {})
      modifies `objects, `files, obs.Values
      ensures Reduced(obs, before, snap, gone)
      ensures Cleaned(before, now, Lim(), largest, es, before - gone)
    {
      var sorted, size, candidate, candidateSize;
      sorted, size, candidate, candidateSize, gone := ListOldestFirst(now, obs, before, snap);
      largest, es := candidate, sorted;
      if size <= maxSize {
        return;
      }
      ghost var all := ReduceSize(sorted, size, candidate, candidateSize, obs, before, snap, gone);
      gone := all;
    }

    /** The objects `obs`, which were as `snap` says, minus those that have gone with their
        files: what stays is not touched, what goes is closed. */
    ghost predicate LeftFrom(obs: map<string, Object>, snap: Snapshot)
      reads `objects, `files, obs.Values
    {
      var gone := obs.Keys - objects.Keys;
      && snap.states.Keys == obs.Keys
      && objects == obs - gone && files == snap.files - gone - Markers(gone)
      && (forall k :: k in objects ==> obs[k].Abs() == snap.states[k])
      && (forall k :: k in gone ==> obs[k].Abs() == snap.states[k].CloseForEviction())
    }

    /** A run of the cleaner, unless one is in progress. */
    method Clean(now: int) returns (ghost largest: Option<string>, ghost es: seq<Entry>)
      requires Valid()
      modifies this, objects.Values
      ensures cleaning == old(cleaning) && Valid()
      ensures old(cleaning) ==> objects == old(objects) && Snap() == old(Snap())
      ensures !old(cleaning) ==> CleanedFrom(old(objects), old(Snap()), now, largest, es)
    {
      largest, es := None, [];
      if !cleaning {
        largest, es := CleanUp(now, objects, Snap());
      }
    }

    /** The state after a run that found the objects `obs` as `snap` says. */
    ghost predicate CleanedFrom(obs: map<string, Object>, snap: Snapshot, now: int, largest: Option<string>,
                                es: seq<Entry>)
      reads `objects, `files, obs.Values, objects.Values
    {
      && Cleaned(snap.Stats(), now, Lim(), largest, es, View())
      && Shape() == snap.Shape().EvictAll(obs.Keys - objects.Keys)
      && LeftFrom(obs, snap)
      && (snap.Stored() ==> Snap().Stored())
    }

    lemma LeftIsStored(obs: map<string, Object>, snap: Snapshot)
      requires LeftFrom(obs, snap) && snap.Stored()
      ensures Snap().Stored()
    {
      forall k | k in objects
        ensures !IsMarker(k) && k in files && files[k] == objects[k].content
      {
        assert obs[k].Abs() == snap.states[k];
      }
    }

    method CleanUp(now: int, ghost obs: map<string, Object>, ghost snap: Snapshot)
      returns (ghost largest: Option<string>, ghost es: seq<Entry>)
      requires Valid() && !cleaning && objects == obs && Snap() == snap
      modifies this, obs.Values
      ensures Valid() && !cleaning && CleanedFrom(obs, snap, now, largest, es)
    {
      ghost var gone;
      cleaning := true;
      largest, es, gone := CleanAll(now, obs, snap.Stats(), snap);
      cleaning := false;
      ReducedShape(obs, snap.Stats(), snap, gone);
      ReducedIsLeft(obs, snap.Stats(), snap, gone);
      if snap.Stored() {
        LeftIsStored(obs, snap);
      }
    }

    lemma ReducedIsLeft(obs: map<string, Object>, before: map<string, Stat>, snap: Snapshot, gone: set<string>)
      requires Reduced(obs, before, snap, gone)
      ensures LeftFrom(obs, snap)
    {
      ReducedView(obs, before, snap, gone);
      ReducedGone(obs, before, snap, gone);
      AllInDir(files, snap.files, gone);
      assert obs.Keys - objects.Keys == gone;
    }

    // ---------------------------------------------------------------- loading

    /** Scans the directory; a file without a marker is removed as unfinished. */
    method LoadObjects(now: int)
      modifies this
      ensures Valid() && Shape() == old(Shape()).Load() && Snap().Stored()
      ensures forall f :: f in files ==> f in old(files) && files[f] == old(files)[f]
      ensures forall k :: k in objects ==>
                            fresh(objects[k]) && k in old(files)
                            && objects[k].Abs() == RestoredObject(old(files)[k], now)
    {
      objects := map[];
      ghost var listing, shape := files, Shape();
      var todo := files.Keys;
      while todo != {}
        invariant Loading(listing, todo, now)
        invariant forall k :: k in objects ==> fresh(objects[k])
        decreases todo
      {
        var f :| f in todo;
        LoadName(f, now, listing, todo);
        todo := todo - {f};
      }
      AllLoaded(listing, shape, now);
    }

    /** All names of the listing but those in `todo` have been dealt with. */
    ghost predicate Loading(listing: map<string, seq<Byte>>, todo: set<string>, now: int)
      reads `objects, `files, objects.Values
    {
      && todo <= listing.Keys
      && files.Keys == KeptNames(listing.Keys) + todo
      && (forall f :: f in files ==> files[f] == listing[f])
      && objects.Keys == RestoredKeys(listing.Keys) - todo
      && forall k :: k in objects ==> LoadedAs(objects[k], k, listing[k], now)
    }

    lemma AllLoaded(listing: map<string, seq<Byte>>, shape: Store, now: int)
      requires shape.files == Lengths(listing) && Loading(listing, {}, now)
      ensures Valid() && Shape() == shape.Load() && Snap().Stored()
      ensures forall k :: k in objects ==> k in listing && objects[k].Abs() == RestoredObject(listing[k], now)
    {
      LoadedFiles(listing, files, shape);
      LoadedLives(listing, Shape().objects, shape);
    }

    /** One name of the listing. */
    method LoadName(f: string, now: int, ghost listing: map<string, seq<Byte>>, ghost todo: set<string>)
      requires Loading(listing, todo, now) && f in todo
      modifies this
      ensures Loading(listing, todo - {f}, now)
      ensures forall k :: k in objects ==> (k in old(objects) && objects[k] == old(objects)[k]) || fresh(objects[k])
    {
      NameDone(listing.Keys, todo, f);
      if !IsMarker(f) {
        LoadFile(f, now);
      }
    }

    /** Looks for the marker of a file. Markers stay, so that it is there if it was listed. */
    method LoadFile(f: string, now: int)
      requires f in files
      modifies this
      ensures Marker(f) in old(files) ==>
                files == old(files) && f in objects && objects == old(objects)[f := objects[f]]
                && fresh(objects[f]) && LoadedAs(objects[f], f, files[f], now)
      ensures Marker(f) !in old(files) ==> files == old(files) - {f} && objects == old(objects)
    {
      if Marker(f) in files {
        var o := new Object.Loaded(f, files[f], now);
        objects := objects[f := o];
      } else {
        files := files - {f};
      }
    }
  }

  ghost predicate LoadedAs(o: Object, key: string, content: seq<Byte>, now: int)
    reads o
  {
    o.key == key && o.Valid() && o.Abs() == RestoredObject(content, now)
  }
}
