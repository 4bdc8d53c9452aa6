/**
  The worker pool of the orphan sweep (scanner/clean.go): a producer sends paths into a
  buffered channel, workers check them and send the missing ones into a second buffered
  channel that nobody reads before all workers are done.
 */
module OrphanPool {

  datatype Worker = Idle | Checking(path: string) | Exited

  /** `pending` are the paths not yet sent; `found` lists the existing ones that have been
      counted. */
  datatype Pool = Pool(pending: seq<string>, check: seq<string>, closed: bool, workers: seq<Worker>,
                       remove: seq<string>, found: seq<string>)

  datatype Capacity = Capacity(check: nat, remove: nat)

  datatype Step = Send | CloseCheck | Take(w: nat) | Report(w: nat) | Exit(w: nat)

  function Start(paths: seq<string>, n: nat): Pool {
    Pool(paths, [], false, seq(n, _ => Idle), [], [])
  }

  /** A send blocks on a full channel, a receive on an empty open one. */
  predicate Enabled(p: Pool, t: Step, cap: Capacity, exists_: string -> bool) {
    match t
    case Send => p.pending != [] && |p.check| < cap.check
    case CloseCheck => p.pending == [] && !p.closed
    case Take(w) => w < |p.workers| && p.workers[w].Idle? && p.check != []
    case Report(w) => w < |p.workers| && p.workers[w].Checking?
                      && (exists_(p.workers[w].path) || |p.remove| < cap.remove)
    case Exit(w) => w < |p.workers| && p.workers[w].Idle? && p.check == [] && p.closed
  }

  function After(p: Pool, t: Step, cap: Capacity, exists_: string -> bool): Pool
    requires Enabled(p, t, cap, exists_)
  {
    match t
    case Send => p.(pending := p.pending[1..], check := p.check + [p.pending[0]])
    case CloseCheck => p.(closed := true)
    case Take(w) => p.(check := p.check[1..], workers := p.workers[w := Checking(p.check[0])])
    case Report(w) =>
      var path := p.workers[w].path;
      if exists_(path) then p.(workers := p.workers[w := Idle], found := p.found + [path])
      else p.(workers := p.workers[w := Idle], remove := p.remove + [path])
    case Exit(w) => p.(workers := p.workers[w := Exited])
  }

  ghost predicate Run(p: Pool, steps: seq<Step>, p': Pool, cap: Capacity, exists_: string -> bool)
    decreases |steps|
  {
    if steps == [] then p == p'
    else Enabled(p, steps[0], cap, exists_) && Run(After(p, steps[0], cap, exists_), steps[1..], p', cap, exists_)
  }

  /** The wait group is done. */
  predicate Finished(p: Pool) {
    p.closed && forall w :: 0 <= w < |p.workers| ==> p.workers[w].Exited?
  }

  function HeldBy(w: Worker): multiset<string> {
    if w.Checking? then multiset{w.path} else multiset{}
  }

  function Held(workers: seq<Worker>): multiset<string> {
    if workers == [] then multiset{}
    else Held(workers[..|workers| - 1]) + HeldBy(workers[|workers| - 1])
  }

  lemma {:induction false} HeldUpdate(workers: seq<Worker>, w: nat, v: Worker)
    requires w < |workers|
    ensures Held(workers[w := v]) + HeldBy(workers[w]) == Held(workers) + HeldBy(v)
  {
    var n := |workers| - 1;
    if w < n {
      HeldUpdate(workers[..n], w, v);
      assert workers[w := v][..n] == workers[..n][w := v];
      Exchange(Held(workers[..n][w := v]), HeldBy(workers[w]), Held(workers[..n]), HeldBy(v), HeldBy(workers[n]));
    } else {
      assert workers[w := v][..n] == workers[..n];
      Reorder(Held(workers[..n]), HeldBy(v), HeldBy(workers[n]));
    }
  }

  lemma Exchange(a: multiset<string>, x: multiset<string>, b: multiset<string>, y: multiset<string>,
                 c: multiset<string>)
    requires a + x == b + y
    ensures a + c + x == b + c + y
  {
    Reorder(a, c, x);
    Reorder(b, c, y);
  }

  lemma Reorder(a: multiset<string>, b: multiset<string>, c: multiset<string>)
    ensures a + b + c == a + c + b
  {
  }

  lemma {:induction false} NobodyHolds(workers: seq<Worker>)
    requires forall w :: 0 <= w < |workers| ==> !workers[w].Checking?
    ensures Held(workers) == multiset{}
  {
    if workers != [] {
      NobodyHolds(workers[..|workers| - 1]);
    }
  }

  /** All places a path can be at. */
  function Everywhere(p: Pool): multiset<string> {
    multiset(p.pending) + multiset(p.check) + Held(p.workers) + multiset(p.remove) + multiset(p.found)
  }

  lemma Tail(s: seq<string>)
    requires s != []
    ensures multiset(s) == multiset(s[1..]) + multiset{s[0]}
  {
    assert s == [s[0]] + s[1..];
  }

  lemma SendMoves(p: Pool, q: Pool)
    requires p.pending != [] && q == p.(pending := p.pending[1..], check := p.check + [p.pending[0]])
    ensures Everywhere(q) == Everywhere(p)
  {
    Tail(p.pending);
    assert multiset(q.check) == multiset(p.check) + multiset{p.pending[0]};
  }

  lemma TakeMoves(p: Pool, q: Pool, w: nat)
    requires w < |p.workers| && p.workers[w].Idle? && p.check != []
    requires q == p.(check := p.check[1..], workers := p.workers[w := Checking(p.check[0])])
    ensures Everywhere(q) == Everywhere(p)
  {
    Tail(p.check);
    HeldUpdate(p.workers, w, Checking(p.check[0]));
    assert Held(q.workers) == Held(p.workers) + multiset{p.check[0]};
  }

  lemma ReportMoves(p: Pool, q: Pool, w: nat, isFound: bool)
    requires w < |p.workers| && p.workers[w].Checking?
    requires var path := p.workers[w].path;
             q == if isFound then p.(workers := p.workers[w := Idle], found := p.found + [path])
             else p.(workers := p.workers[w := Idle], remove := p.remove + [path])
    ensures Everywhere(q) == Everywhere(p)
  {
    var path := p.workers[w].path;
    HeldUpdate(p.workers, w, Idle);
    assert Held(p.workers) == Held(q.workers) + multiset{path};
    assert multiset(q.found) == multiset(p.found) + if isFound then multiset{path} else multiset{};
    assert multiset(q.remove) == multiset(p.remove) + if isFound then multiset{} else multiset{path};
  }

  lemma ExitMoves(p: Pool, q: Pool, w: nat)
    requires w < |p.workers| && p.workers[w].Idle? && q == p.(workers := p.workers[w := Exited])
    ensures Everywhere(q) == Everywhere(p)
  {
    HeldUpdate(p.workers, w, Exited);
    assert Held(q.workers) + multiset{} == Held(q.workers) && Held(p.workers) + multiset{} == Held(p.workers);
  }

  /** A step only moves a path. */
  lemma StepMoves(p: Pool, t: Step, cap: Capacity, exists_: string -> bool)
    requires Enabled(p, t, cap, exists_)
    ensures Everywhere(After(p, t, cap, exists_)) == Everywhere(p)
  {
    var q := After(p, t, cap, exists_);
    match t
    case Send => SendMoves(p, q);
    case CloseCheck =>
    case Take(w) => TakeMoves(p, q, w);
    case Report(w) => ReportMoves(p, q, w, exists_(p.workers[w].path));
    case Exit(w) => ExitMoves(p, q, w);
  }

  /** Missing paths end up to be removed and existing ones to be counted; buffers keep within
      their capacity; a worker leaves only when there is nothing left to take. */
  ghost predicate Sound(p: Pool, cap: Capacity, exists_: string -> bool) {
    && (forall x :: x in p.remove ==> !exists_(x)) && (forall x :: x in p.found ==> exists_(x))
    && |p.check| <= cap.check && |p.remove| <= cap.remove
    && (p.closed ==> p.pending == [])
    && (forall w :: 0 <= w < |p.workers| && p.workers[w].Exited? ==> p.closed && p.check == [])
  }

  /** Every path is at exactly one place. */
  ghost predicate Inv(p: Pool, paths: seq<string>, cap: Capacity, exists_: string -> bool) {
    Everywhere(p) == multiset(paths) && Sound(p, cap, exists_)
  }

  lemma StepKeepsSound(p: Pool, t: Step, cap: Capacity, exists_: string -> bool)
    requires Sound(p, cap, exists_) && Enabled(p, t, cap, exists_)
    ensures Sound(After(p, t, cap, exists_), cap, exists_) && |After(p, t, cap, exists_).workers| == |p.workers|
  {
  }

  lemma StepKeepsInv(p: Pool, t: Step, paths: seq<string>, cap: Capacity, exists_: string -> bool)
    requires Inv(p, paths, cap, exists_) && Enabled(p, t, cap, exists_)
    ensures Inv(After(p, t, cap, exists_), paths, cap, exists_) && |After(p, t, cap, exists_).workers| == |p.workers|
  {
    StepMoves(p, t, cap, exists_);
    StepKeepsSound(p, t, cap, exists_);
  }

  lemma {:induction false} RunKeepsInv(p: Pool, steps: seq<Step>, p': Pool, paths: seq<string>, cap: Capacity,
                                       exists_: string -> bool)
    requires Inv(p, paths, cap, exists_) && Run(p, steps, p', cap, exists_)
    ensures Inv(p', paths, cap, exists_) && |p'.workers| == |p.workers|
    decreases |steps|
  {
    if steps != [] {
      StepKeepsInv(p, steps[0], paths, cap, exists_);
      RunKeepsInv(After(p, steps[0], cap, exists_), steps[1..], p', paths, cap, exists_);
    }
  }

  lemma StartInv(paths: seq<string>, n: nat, cap: Capacity, exists_: string -> bool)
    ensures Inv(Start(paths, n), paths, cap, exists_)
  {
    NobodyHolds(Start(paths, n).workers);
  }

  /** The missing paths, in order. */
  function Missing(paths: seq<string>, exists_: string -> bool): seq<string> {
    if paths == [] then []
    else
      var n := |paths| - 1;
      Missing(paths[..n], exists_) + if exists_(paths[n]) then [] else [paths[n]]
  }

  lemma {:induction false} MissingCounts(paths: seq<string>, exists_: string -> bool, x: string)
    ensures multiset(Missing(paths, exists_))[x] == if exists_(x) then 0 else multiset(paths)[x]
  {
    if paths != [] {
      var n := |paths| - 1;
      assert paths == paths[..n] + [paths[n]];
      MissingCounts(paths[..n], exists_, x);
    }
  }

  /** What has been reported so far is part of what is missing. */
  lemma ReportedIsMissing(p: Pool, paths: seq<string>, cap: Capacity, exists_: string -> bool)
    requires Inv(p, paths, cap, exists_)
    ensures multiset(p.remove) <= multiset(Missing(paths, exists_))
    ensures p.pending == [] && p.check == [] && Held(p.workers) == multiset{} ==>
              multiset(p.remove) == multiset(Missing(paths, exists_))
              && |p.found| == |paths| - |Missing(paths, exists_)|
  {
    var missing := multiset(Missing(paths, exists_));
    forall x
      ensures multiset(p.remove)[x] <= missing[x]
      ensures p.pending == [] && p.check == [] && Held(p.workers) == multiset{} ==> multiset(p.remove)[x] == missing[x]
    {
      MissingCounts(paths, exists_, x);
      assert x in p.remove <==> x in multiset(p.remove);
      assert x in p.found <==> x in multiset(p.found);
    }
    if p.pending == [] && p.check == [] && Held(p.workers) == multiset{} {
      assert multiset(p.remove) == missing;
      assert |multiset(p.remove) + multiset(p.found)| == |multiset(paths)|;
    }
  }

  /** A finished pool has reported exactly the missing paths and counted the others. */
  lemma FinishedPoolIsRight(paths: seq<string>, n: nat, steps: seq<Step>, p: Pool, cap: Capacity,
                            exists_: string -> bool)
    requires n > 0 && Run(Start(paths, n), steps, p, cap, exists_) && Finished(p)
    ensures multiset(p.remove) == multiset(Missing(paths, exists_))
    ensures |p.found| == |paths| - |Missing(paths, exists_)|
    ensures forall x :: multiset(p.remove)[x] == if exists_(x) then 0 else multiset(paths)[x]
  {
    forall x
      ensures multiset(Missing(paths, exists_))[x] == if exists_(x) then 0 else multiset(paths)[x]
    {
      MissingCounts(paths, exists_, x);
    }
    StartInv(paths, n, cap, exists_);
    RunKeepsInv(Start(paths, n), steps, p, paths, cap, exists_);
    assert p.workers[0].Exited?;
    NobodyHolds(p.workers);
    ReportedIsMissing(p, paths, cap, exists_);
  }

  /** No deadlock: with room for every missing path, a state that is not finished has a step. */
  lemma PoolNeverBlocks(paths: seq<string>, n: nat, steps: seq<Step>, p: Pool, cap: Capacity, exists_: string -> bool)
    requires n > 0 && cap.check > 0 && Run(Start(paths, n), steps, p, cap, exists_)
    requires |Missing(paths, exists_)| <= cap.remove && !Finished(p)
    ensures exists t :: Enabled(p, t, cap, exists_)
  {
    StartInv(paths, n, cap, exists_);
    RunKeepsInv(Start(paths, n), steps, p, paths, cap, exists_);
    if w :| 0 <= w < |p.workers| && p.workers[w].Checking? {
      if !exists_(p.workers[w].path) {
        RoomToReport(p, paths, cap, exists_, w);
      }
      assert Enabled(p, Report(w), cap, exists_);
    } else if p.pending == [] && !p.closed {
      assert Enabled(p, CloseCheck, cap, exists_);
    } else if w :| 0 <= w < |p.workers| && p.workers[w].Idle? {
      if p.check != [] {
        assert Enabled(p, Take(w), cap, exists_);
      } else if p.closed {
        assert Enabled(p, Exit(w), cap, exists_);
      } else {
        assert Enabled(p, Send, cap, exists_);
      }
    } else {
      assert p.workers[0].Exited?;
    }
  }

  /** While a missing path is being held, not all of them have been reported. */
  lemma RoomToReport(p: Pool, paths: seq<string>, cap: Capacity, exists_: string -> bool, w: nat)
    requires Inv(p, paths, cap, exists_) && w < |p.workers| && p.workers[w].Checking? && !exists_(p.workers[w].path)
    requires |Missing(paths, exists_)| <= cap.remove
    ensures |p.remove| < cap.remove
  {
    var x := p.workers[w].path;
    var q := p.(workers := p.workers[w := Idle]);
    HeldUpdate(p.workers, w, Idle);
    assert Held(p.workers) == Held(q.workers) + multiset{x};
    ReportedIsMissing(p, paths, cap, exists_);
    MissingCounts(paths, exists_, x);
    assert x !in p.found;
    assert multiset(p.found)[x] == 0;
    var reported, missing := multiset(p.remove), multiset(Missing(paths, exists_));
    assert reported[x] < missing[x] by {
      assert missing[x] == Everywhere(p)[x];
    }
    StrictlySmaller(reported, missing, x);
    assert |reported| == |p.remove| && |missing| == |Missing(paths, exists_)|;
  }

  lemma StrictlySmaller(a: multiset<string>, b: multiset<string>, x: string)
    requires a <= b && a[x] < b[x]
    ensures |a| < |b|
  {
    assert b == a + (b - a);
    assert x in b - a;
  }

  /** The capacity is exactly what is needed: a run can only finish with room for every
      missing path. */
  lemma FinishingNeedsRoom(paths: seq<string>, n: nat, steps: seq<Step>, p: Pool, cap: Capacity,
                           exists_: string -> bool)
    requires n > 0 && Run(Start(paths, n), steps, p, cap, exists_) && Finished(p)
    ensures |Missing(paths, exists_)| <= cap.remove
  {
    StartInv(paths, n, cap, exists_);
    RunKeepsInv(Start(paths, n), steps, p, paths, cap, exists_);
    FinishedPoolIsRight(paths, n, steps, p, cap, exists_);
    assert |multiset(p.remove)| == |multiset(Missing(paths, exists_))|;
  }

  function Busy(workers: seq<Worker>): nat {
    if workers == [] then 0
    else Busy(workers[..|workers| - 1])
         + match workers[|workers| - 1] case Idle => 1 case Checking(_) => 2 case Exited => 0
  }

  lemma {:induction false} BusyUpdate(workers: seq<Worker>, w: nat, v: Worker)
    requires w < |workers|
    ensures var of := (u: Worker) => match u case Idle => 1 case Checking(_) => 2 case Exited => 0;
            Busy(workers[w := v]) + of(workers[w]) == Busy(workers) + of(v)
  {
    var n := |workers| - 1;
    if w < n {
      BusyUpdate(workers[..n], w, v);
      assert workers[w := v][..n] == workers[..n][w := v];
    } else {
      assert workers[w := v][..n] == workers[..n];
    }
  }

  function Work(p: Pool): nat {
    3 * |p.pending| + 2 * |p.check| + Busy(p.workers) + if p.closed then 0 else 1
  }

  /** Every step brings the pool closer to its end. */
  lemma StepsRunOut(p: Pool, t: Step, cap: Capacity, exists_: string -> bool)
    requires Enabled(p, t, cap, exists_)
    ensures Work(After(p, t, cap, exists_)) < Work(p)
  {
    match t
    case Take(w) => BusyUpdate(p.workers, w, Checking(p.check[0]));
    case Report(w) => BusyUpdate(p.workers, w, Idle);
    case Exit(w) => BusyUpdate(p.workers, w, Exited);
    case _ =>
  }
}
