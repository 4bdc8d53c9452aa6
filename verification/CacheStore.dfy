/**
  The cache map and the cache directory (cache/cache.go), and what a restart makes of them.

  A key is stored under its own name, standing for the escaped one: escaping is injective
  and keeps the suffix that marks completion. The directory maps names to file lengths.
  Writing to an object that has left the map goes to an unlinked file and is no step here.
 */
module CacheStore {

  const SUFFIX := "-complete"

  function Marker(key: string): (name: string)
    ensures IsMarker(name) && MarkedKey(name) == key
  {
    assert (key + SUFFIX)[|key|..] == SUFFIX && (key + SUFFIX)[..|key|] == key;
    key + SUFFIX
  }

  /** The key that a marker belongs to. */
  function MarkedKey(name: string): string {
    if IsMarker(name) then name[..|name| - |SUFFIX|] else ""
  }

  function Markers(keys: set<string>): set<string> {
    set k | k in keys :: Marker(k)
  }

  predicate IsMarker(name: string) {
    |name| >= |SUFFIX| && name[|name| - |SUFFIX|..] == SUFFIX
  }

  /** An object of the map. */
  datatype Live = Live(size: nat, complete: bool)

  datatype Store = Store(files: map<string, nat>, objects: map<string, Live>)
  {
    function Create(k: string): Store {
      if k in objects then this
      else Store((files - {Marker(k)})[k := 0], objects[k := Live(0, false)])
    }

    /** Appends `n` bytes to the object of the map. */
    function Write(k: string, n: nat): Store
      requires k in objects
    {
      Store(files[k := objects[k].size + n], objects[k := objects[k].(size := objects[k].size + n)])
    }

    function SetComplete(k: string): Store
      requires k in objects
    {
      Store(files[Marker(k) := 0], objects[k := objects[k].(complete := true)])
    }

    /** SetComplete of an object that is no longer in the map still creates the marker. */
    function StaleComplete(k: string): Store {
      this.(files := files[Marker(k) := 0])
    }

    function Delete(k: string): Store {
      if k !in objects then this
      else Store(if objects[k].complete then files - {k, Marker(k)} else files - {k}, objects - {k})
    }

    /** Eviction removes both files whatever the state of the object. */
    function EvictAll(ks: set<string>): Store {
      Store(files - ks - Markers(ks), objects - ks)
    }

    function Clear(): Store {
      Store(map[], map[])
    }

    function Close(): Store {
      this.(objects := map[])
    }

    /** Loading keeps the files that have a marker and removes the unfinished ones. */
    function Load(): Store {
      Store(map f | f in files && (IsMarker(f) || Marker(f) in files) :: files[f],
            map f | f in files && !IsMarker(f) && Marker(f) in files :: Live(files[f], true))
    }
  }

  /** What the previous process leaves in the directory, and a new one makes of it; `late`
      are the keys that a stale SetComplete marks after the cache has been closed. */
  function Restarted(s: Store, late: set<string>): Store {
    Marked(s.Close(), late).Load()
  }

  function Marked(s: Store, ks: set<string>): Store {
    s.(files := s.files + (map f | f in Markers(ks) :: 0))
  }

  datatype Op =
    | DoCreate(k: string)
    | DoWrite(k: string, n: nat)
    | DoComplete(k: string)
    | DoStaleComplete(k: string)
    | DoDelete(k: string)
    | DoEvict(ks: set<string>)
    | DoClear
    | DoRestart(late: set<string>)

  function Apply(s: Store, op: Op): Store
    requires op.DoWrite? || op.DoComplete? ==> op.k in s.objects
  {
    match op
    case DoCreate(k) => s.Create(k)
    case DoWrite(k, n) => if s.objects[k].complete then s else s.Write(k, n)
    case DoComplete(k) => s.SetComplete(k)
    case DoStaleComplete(k) => s.StaleComplete(k)
    case DoDelete(k) => s.Delete(k)
    case DoEvict(ks) => s.EvictAll(ks)
    case DoClear => s.Clear()
    case DoRestart(late) => Restarted(s, late)
  }

  /** The history of a run: the keys completed and not since removed, and the keys whose
      marker a stale SetComplete has created since their files were last removed. */
  datatype History = History(done: set<string>, tainted: set<string>)

  function Remember(s: Store, h: History, op: Op): History {
    match op
    case DoCreate(k) => if k in s.objects then h else h.(tainted := h.tainted - {k})
    case DoWrite(_, _) => h
    case DoComplete(k) => h.(done := h.done + {k})
    case DoStaleComplete(k) => h.(tainted := h.tainted + {k})
    case DoDelete(k) =>
      if k !in s.objects then h
      else if s.objects[k].complete then History(h.done - {k}, h.tainted - {k})
      else h.(done := h.done - {k})
    case DoEvict(ks) => History(h.done - ks, h.tainted - ks)
    case DoClear => History({}, {})
    case DoRestart(late) => h.(tainted := h.tainted + late)
  }

  /** No key ends like a marker; writes and completions are of objects in the map. */
  ghost predicate Allowed(s: Store, op: Op) {
    match op
    case DoCreate(k) => !IsMarker(k)
    case DoWrite(k, _) => k in s.objects
    case DoComplete(k) => k in s.objects
    case DoStaleComplete(k) => !IsMarker(k)
    case DoEvict(ks) => ks <= s.objects.Keys
    case DoRestart(late) => forall k :: k in late ==> !IsMarker(k)
    case _ => true
  }

  ghost predicate Run(s: Store, h: History, ops: seq<Op>, s': Store, h': History)
    decreases |ops|
  {
    if ops == [] then s == s' && h == h'
    else Allowed(s, ops[0]) && Run(Apply(s, ops[0]), Remember(s, h, ops[0]), ops[1..], s', h')
  }

  // ------------------------------------------------------------------ the directory

  /** The directory mirrors the map: one file of the right length per object, and a marker
      exactly for the complete and the tainted keys. What was completed is complete, and
      only a restart of a tainted key makes anything else complete. */
  ghost predicate Mirrors(s: Store, h: History) {
    forall k {:trigger MirrorsAt(s, h, k)} :: MirrorsAt(s, h, k)
  }

  ghost predicate MirrorsAt(s: Store, h: History, k: string) {
    && (k in s.objects ==> !IsMarker(k) && k in s.files && s.files[k] == s.objects[k].size)
    && (k in s.files && !IsMarker(k) ==> k in s.objects)
    && (Marker(k) in s.files <==> (k in s.objects && s.objects[k].complete) || k in h.tainted)
    && (k in h.done ==> k in s.objects && s.objects[k].complete)
    && (k in s.objects && s.objects[k].complete ==> k in h.done || k in h.tainted)
  }

  lemma MarkersDiffer(j: string, k: string)
    ensures Marker(j) == Marker(k) ==> j == k
    ensures !IsMarker(j) ==> Marker(k) != j
    ensures !IsMarker(k) ==> Marker(j) != k
  {
  }

  lemma MarkedFiles(s: Store, late: set<string>, f: string)
    requires forall k :: k in late ==> !IsMarker(k)
    ensures !IsMarker(f) ==> (f in Marked(s, late).files <==> f in s.files)
    ensures f in Marked(s, late).files && !IsMarker(f) ==> Marked(s, late).files[f] == s.files[f]
    ensures Marker(f) in Marked(s, late).files <==> Marker(f) in s.files || f in late
  {
  }

  /** What a restart restores. */
  lemma RestartRestores(s: Store, h: History, late: set<string>, k: string)
    requires Mirrors(s, h) && forall j :: j in late ==> !IsMarker(j)
    ensures var r := Restarted(s, late);
            && (k in r.objects <==> k in s.objects && (s.objects[k].complete || k in h.tainted || k in late))
            && (k in r.objects ==> r.objects[k] == Live(s.objects[k].size, true))
            && (!IsMarker(k) ==> (k in r.files <==> k in r.objects))
            && (k in r.files && k in r.objects ==> r.files[k] == s.objects[k].size)
            && (Marker(k) in r.files <==> (k in s.objects && s.objects[k].complete) || k in h.tainted || k in late)
  {
    assert MirrorsAt(s, h, k);
    MarkedFiles(s, late, k);
  }

  lemma OpKeepsMirror(s: Store, h: History, op: Op)
    requires Mirrors(s, h) && Allowed(s, op)
    ensures Mirrors(Apply(s, op), Remember(s, h, op))
  {
    forall k
      ensures MirrorsAt(Apply(s, op), Remember(s, h, op), k)
    {
      match op
      case DoRestart(late) =>
        assert MirrorsAt(s, h, k);
        RestartRestores(s, h, late, k);
      case DoEvict(ks) =>
        assert MirrorsAt(s, h, k);
        assert Marker(k) in Markers(ks) <==> k in ks;
        assert forall j :: j in ks ==> MirrorsAt(s, h, j);
      case DoClear =>
      case DoCreate(key) =>
        assert MirrorsAt(s, h, k);
      case DoWrite(key, n) =>
        assert MirrorsAt(s, h, k) && MirrorsAt(s, h, key);
      case DoDelete(key) =>
        assert MirrorsAt(s, h, k) && MirrorsAt(s, h, key);
      case _ =>
        assert MirrorsAt(s, h, k) && MirrorsAt(s, h, op.k);
    }
  }

  /** Evicting one more key. */
  lemma EvictOneMore(s: Store, ks: set<string>, k: string)
    ensures s.EvictAll(ks + {k}).files == s.EvictAll(ks).files - {k, Marker(k)}
    ensures s.EvictAll(ks + {k}).objects == s.EvictAll(ks).objects - {k}
  {
  }

  lemma {:induction false} RunKeepsMirror(s: Store, h: History, ops: seq<Op>, s': Store, h': History)
    requires Mirrors(s, h) && Run(s, h, ops, s', h')
    ensures Mirrors(s', h')
    decreases |ops|
  {
    if ops != [] {
      OpKeepsMirror(s, h, ops[0]);
      RunKeepsMirror(Apply(s, ops[0]), Remember(s, h, ops[0]), ops[1..], s', h');
    }
  }

  /** The completed keys that have not been removed, with their sizes. */
  function Completed(s: Store, h: History): map<string, Live> {
    map k | k in s.objects && k in h.done :: Live(s.objects[k].size, true)
  }

  /** The keys a directory marks as complete. */
  function MarkedKeys(files: map<string, nat>): set<string> {
    set f | f in files && IsMarker(f) :: MarkedKey(f)
  }

  /** The first restart of all: whatever is in the directory, loading it mirrors it. */
  lemma FirstLoadMirrors(files: map<string, nat>)
    ensures var s := Store(files, map[]).Load(); Mirrors(s, History(s.objects.Keys, MarkedKeys(files)))
  {
    var s := Store(files, map[]).Load();
    forall k
      ensures MirrorsAt(s, History(s.objects.Keys, MarkedKeys(files)), k)
    {
      MarkedKeysFacts(files, k);
    }
  }

  lemma MarkedKeysFacts(files: map<string, nat>, k: string)
    ensures Marker(k) in files <==> k in MarkedKeys(files)
  {
    if f :| f in files && IsMarker(f) && k == MarkedKey(f) {
      assert f == k + SUFFIX;
    }
    if Marker(k) in files {
      assert MarkedKey(Marker(k)) == k;
    }
  }

  /** Restart agreement. After any run, restarts included, from any state that mirrors its
      directory, a restart restores exactly the completed keys that were not removed, each
      complete and with its full size, if and only if no unfinished object of the map has
      been marked by a stale SetComplete, before the cache was closed or after; and then
      exactly their files remain besides markers. */
  lemma RestartAgreement(s0: Store, h0: History, ops: seq<Op>, s: Store, h: History, late: set<string>)
    requires Mirrors(s0, h0) && Run(s0, h0, ops, s, h) && Allowed(s, DoRestart(late))
    ensures var r := Restarted(s, late);
            && (r.objects == Completed(s, h) <==>
                forall k :: k in s.objects && (k in h.tainted || k in late) ==> k in h.done)
            && (r.objects == Completed(s, h) ==> forall f :: f in r.files && !IsMarker(f) <==> f in h.done)
  {
    RunKeepsMirror(s0, h0, ops, s, h);
    RestoredIffCompleted(s, h, late);
  }

  lemma RestoredIfMarkedRightly(s: Store, h: History, late: set<string>)
    requires Mirrors(s, h) && Allowed(s, DoRestart(late))
    requires forall k :: k in s.objects && (k in h.tainted || k in late) ==> k in h.done
    ensures var r := Restarted(s, late);
            r.objects == Completed(s, h) && forall f :: f in r.files && !IsMarker(f) <==> f in h.done
  {
    var r := Restarted(s, late);
    forall k
      ensures k in r.objects <==> k in Completed(s, h)
      ensures k in r.objects ==> r.objects[k] == Live(s.objects[k].size, true)
      ensures k in r.files && !IsMarker(k) <==> k in h.done
    {
      assert MirrorsAt(s, h, k);
      RestartRestores(s, h, late, k);
    }
  }

  lemma RestoredIffCompleted(s: Store, h: History, late: set<string>)
    requires Mirrors(s, h) && Allowed(s, DoRestart(late))
    ensures var r := Restarted(s, late);
            && (r.objects == Completed(s, h) <==>
                forall k :: k in s.objects && (k in h.tainted || k in late) ==> k in h.done)
            && (r.objects == Completed(s, h) ==> forall f :: f in r.files && !IsMarker(f) <==> f in h.done)
  {
    if k :| k in s.objects && (k in h.tainted || k in late) && k !in h.done {
      RestartRestores(s, h, late, k);
      assert k in Restarted(s, late).objects && k !in Completed(s, h);
    } else {
      RestoredIfMarkedRightly(s, h, late);
    }
  }

  /** An empty cache mirrors its empty directory. */
  lemma EmptyMirrors()
    ensures Mirrors(Store(map[], map[]), History({}, {}))
  {
  }

  /** The history never taints a key when completions are only of objects in the map. */
  lemma {:induction false} NoStaleNoTaint(s: Store, h: History, ops: seq<Op>, s': Store, h': History)
    requires Run(s, h, ops, s', h') && h.tainted == {}
    requires forall op :: op in ops ==> !op.DoStaleComplete? && (op.DoRestart? ==> op.late == {})
    ensures h'.tainted == {}
    decreases |ops|
  {
    if ops != [] {
      assert ops[0] in ops;
      NoStaleNoTaint(Apply(s, ops[0]), Remember(s, h, ops[0]), ops[1..], s', h');
    }
  }

  /** A restart of a restored cache restores the same map from the same files. */
  lemma LoadIsIdempotent(s: Store)
    ensures s.Close().Load().Close().Load() == s.Close().Load()
  {
    var r := s.Close().Load();
    assert r.Close().Load().files == r.files;
    assert r.Close().Load().objects == r.objects;
  }

  lemma OneStep(s: Store, h: History, op: Op, ops: seq<Op>, s': Store, h': History)
    requires Allowed(s, op) && Run(Apply(s, op), Remember(s, h, op), ops, s', h')
    ensures Run(s, h, [op] + ops, s', h')
  {
    assert ([op] + ops)[1..] == ops;
  }

  /** A stale completion does reach a restart: the object that reused the key comes back as
      complete although it never was. */
  lemma StaleCompletionResurrects() returns (ops: seq<Op>, s: Store, h: History)
    ensures Run(Store(map[], map[]), History({}, {}), ops, s, h)
    ensures "a" !in h.done && "a" in s.Close().Load().objects
  {
    var s0, h0 := Store(map[], map[]), History({}, {});
    var s1, h1 := Apply(s0, DoCreate("a")), Remember(s0, h0, DoCreate("a"));
    var s2, h2 := Apply(s1, DoDelete("a")), Remember(s1, h1, DoDelete("a"));
    var s3, h3 := Apply(s2, DoCreate("a")), Remember(s2, h2, DoCreate("a"));
    s, h := Apply(s3, DoStaleComplete("a")), Remember(s3, h3, DoStaleComplete("a"));
    ops := [];
    OneStep(s3, h3, DoStaleComplete("a"), ops, s, h);
    ops := [DoStaleComplete("a")] + ops;
    OneStep(s2, h2, DoCreate("a"), ops, s, h);
    ops := [DoCreate("a")] + ops;
    OneStep(s1, h1, DoDelete("a"), ops, s, h);
    ops := [DoDelete("a")] + ops;
    OneStep(s0, h0, DoCreate("a"), ops, s, h);
    ops := [DoCreate("a")] + ops;
  }

  /** So does one that comes after the cache has been closed, even of the object that the
      map held: what was written so far comes back as the whole content. */
  lemma LateCompletionResurrects(n: nat) returns (ops: seq<Op>, s: Store, h: History)
    ensures Run(Store(map[], map[]), History({}, {}), ops, s, h)
    ensures "a" !in h.done && "a" in s.objects && s.objects["a"] == Live(n, true)
  {
    var s0, h0 := Store(map[], map[]), History({}, {});
    var s1, h1 := Apply(s0, DoCreate("a")), Remember(s0, h0, DoCreate("a"));
    var s2, h2 := Apply(s1, DoWrite("a", n)), Remember(s1, h1, DoWrite("a", n));
    s, h := Restarted(s2, {"a"}), Remember(s2, h2, DoRestart({"a"}));
    NotAMarker();
    MarkedFiles(s2, {"a"}, "a");
    ops := [];
    OneStep(s2, h2, DoRestart({"a"}), ops, s, h);
    ops := [DoRestart({"a"})] + ops;
    OneStep(s1, h1, DoWrite("a", n), ops, s, h);
    ops := [DoWrite("a", n)] + ops;
    OneStep(s0, h0, DoCreate("a"), ops, s, h);
    ops := [DoCreate("a")] + ops;
  }

  lemma NotAMarker()
    ensures !IsMarker("a")
  {
  }

  /** The suffix is reserved: a key that ends in it is lost over a restart, and it makes the
      unfinished object it names come back as complete. */
  lemma SuffixIsReserved()
    ensures var s := Store(map[], map[]).Create("a").Create("a-complete").SetComplete("a-complete");
            var r := s.Close().Load();
            "a-complete" in s.objects && "a-complete" !in r.objects
            && "a" in s.objects && !s.objects["a"].complete && "a" in r.objects && r.objects["a"].complete
  {
    assert Marker("a") == "a-complete";
    assert Marker("a-complete") == "a-complete-complete";
    assert "a" != "a-complete";
  }
}
