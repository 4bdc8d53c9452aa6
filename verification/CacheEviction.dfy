/**
  What one run of the cache cleaner decides (`clean` in cache/cache.go), on a snapshot of
  the objects' bookkeeping, and the properties of that decision. The time `now` is fixed
  and no reader comes or goes while the cleaner runs.
 */
module CacheEviction {
  import opened Wrappers

  const THIRTY_MINUTES := 1_800_000_000_000

  datatype Stat = Stat(readers: int, size: nat, accessed: int)

  datatype Entry = Entry(key: string, stat: Stat)

  datatype Limits = Limits(maxSize: int, maxUnusedTime: int)

  predicate Expired(s: Stat, now: int, lim: Limits) {
    s.readers <= 0 && now - s.accessed > lim.maxUnusedTime
  }

  function Unexpired(m: map<string, Stat>, now: int, lim: Limits): map<string, Stat> {
    map k | k in m && !Expired(m[k], now, lim) :: m[k]
  }

  predicate LongIdle(s: Stat, now: int) {
    s.readers <= 0 && now - s.accessed > THIRTY_MINUTES
  }

  /** A largest object among those idle for more than thirty minutes, if there is one. */
  ghost predicate IsLargest(m: map<string, Stat>, now: int, largest: Option<string>) {
    match largest
    case None => forall k :: k in m ==> !LongIdle(m[k], now)
    case Some(l) => l in m && LongIdle(m[l], now) && forall k :: k in m && LongIdle(m[k], now) ==>
                                                                   m[k].size <= m[l].size
  }

  /** maxSize/largestSize > 0.3, without the division. */
  predicate DropsLargest(size: nat, lim: Limits) {
    10 * lim.maxSize > 3 * size
  }

  function Total(es: seq<Entry>): nat {
    if es == [] then 0 else es[0].stat.size + Total(es[1..])
  }

  /** The sizes of the entries whose key is in `keys`. */
  function TotalIn(es: seq<Entry>, keys: set<string>): nat {
    if es == [] then 0 else (if es[0].key in keys then es[0].stat.size else 0) + TotalIn(es[1..], keys)
  }

  function KeysOf(es: seq<Entry>): set<string> {
    set e | e in es :: e.key
  }

  ghost predicate DistinctKeys(es: seq<Entry>) {
    forall i, j :: 0 <= i < j < |es| ==> es[i].key != es[j].key
  }

  /** `es` lists the objects of `m`. */
  ghost predicate Lists(es: seq<Entry>, m: map<string, Stat>) {
    && DistinctKeys(es)
    && (forall e :: e in es ==> e.key in m && m[e.key] == e.stat)
    && (forall k :: k in m ==> Entry(k, m[k]) in es)
  }

  ghost predicate OldestFirst(es: seq<Entry>) {
    forall i, j :: 0 <= i < j < |es| ==> es[i].stat.accessed <= es[j].stat.accessed
  }

  /** The entries evicted by the size phase, in order. The largest candidate is passed over
      whether it was dropped before or not. */
  function Victims(es: seq<Entry>, skip: Option<string>, size: int, lim: Limits): seq<Entry> {
    if es == [] then []
    else if skip == Some(es[0].key) then Victims(es[1..], skip, size, lim)
    else if size <= lim.maxSize then []
    else if es[0].stat.readers <= 0 then [es[0]] + Victims(es[1..], skip, size - es[0].stat.size, lim)
    else Victims(es[1..], skip, size, lim)
  }

  /** The size of the largest candidate if it is dropped before the size phase. */
  function Dropped(m: map<string, Stat>, largest: Option<string>, lim: Limits): nat
    requires largest.Some? ==> largest.value in m
  {
    if largest.Some? && DropsLargest(m[largest.value].size, lim) then m[largest.value].size else 0
  }

  function DroppedKey(m: map<string, Stat>, largest: Option<string>, lim: Limits): set<string>
    requires largest.Some? ==> largest.value in m
  {
    if largest.Some? && DropsLargest(m[largest.value].size, lim) then {largest.value} else {}
  }

  /** All that goes when the total is over the budget. */
  function SizeEvicted(m: map<string, Stat>, es: seq<Entry>, size: int, largest: Option<string>,
                       lim: Limits): set<string>
    requires largest.Some? ==> largest.value in m
  {
    DroppedKey(m, largest, lim) + KeysOf(Victims(es, largest, size - Dropped(m, largest, lim), lim))
  }

  /** A run of the cleaner that lists the unexpired objects as `es`, oldest first, and takes
      `largest` as its largest candidate, leads from `before` to `after`. */
  ghost predicate Cleaned(before: map<string, Stat>, now: int, lim: Limits, largest: Option<string>, es: seq<Entry>,
                          after: map<string, Stat>) {
    var kept := Unexpired(before, now, lim);
    && IsLargest(kept, now, largest)
    && Lists(es, kept) && OldestFirst(es)
    && after == if Total(es) <= lim.maxSize then kept
                else kept - SizeEvicted(kept, es, Total(es), largest, lim)
  }

  // ------------------------------------------------------------------ the size phase

  lemma {:induction false} NoVictimsWithinBudget(es: seq<Entry>, skip: Option<string>, size: int, lim: Limits)
    requires size <= lim.maxSize
    ensures Victims(es, skip, size, lim) == []
  {
    if es != [] {
      NoVictimsWithinBudget(es[1..], skip, size, lim);
    }
  }

  lemma {:induction false} VictimsAreIdle(es: seq<Entry>, skip: Option<string>, size: int, lim: Limits, v: Entry)
    requires v in Victims(es, skip, size, lim)
    ensures v in es && v.stat.readers <= 0 && skip != Some(v.key)
  {
    if skip == Some(es[0].key) {
      VictimsAreIdle(es[1..], skip, size, lim, v);
    } else if es[0].stat.readers <= 0 {
      if v != es[0] { VictimsAreIdle(es[1..], skip, size - es[0].stat.size, lim, v); }
    } else {
      VictimsAreIdle(es[1..], skip, size, lim, v);
    }
  }

  /** The phase stops at the budget or runs out of idle entries. */
  lemma {:induction false} PhaseMeetsBudget(es: seq<Entry>, skip: Option<string>, size: int, lim: Limits)
    ensures size - Total(Victims(es, skip, size, lim)) <= lim.maxSize
            || forall e :: e in es && e.stat.readers <= 0 && skip != Some(e.key) ==> e in Victims(es, skip, size, lim)
  {
    if es != [] {
      var e := es[0];
      if skip == Some(e.key) {
        PhaseMeetsBudget(es[1..], skip, size, lim);
      } else if size > lim.maxSize {
        if e.stat.readers <= 0 {
          PhaseMeetsBudget(es[1..], skip, size - e.stat.size, lim);
          var rest := Victims(es[1..], skip, size - e.stat.size, lim);
          assert ([e] + rest)[1..] == rest;
        } else {
          PhaseMeetsBudget(es[1..], skip, size, lim);
        }
      }
    }
  }

  /** Just before each eviction the total was over the budget. */
  lemma {:induction false} PhaseIsMinimal(es: seq<Entry>, skip: Option<string>, size: int, lim: Limits, i: nat)
    requires i < |Victims(es, skip, size, lim)|
    ensures size - Total(Victims(es, skip, size, lim)[..i]) > lim.maxSize
  {
    var e := es[0];
    if skip == Some(e.key) {
      PhaseIsMinimal(es[1..], skip, size, lim, i);
    } else if e.stat.readers <= 0 {
      if i > 0 {
        PhaseIsMinimal(es[1..], skip, size - e.stat.size, lim, i - 1);
        var rest := Victims(es[1..], skip, size - e.stat.size, lim);
        assert ([e] + rest)[..i] == [e] + rest[..i - 1];
        assert ([e] + rest[..i - 1])[1..] == rest[..i - 1];
      }
    } else {
      PhaseIsMinimal(es[1..], skip, size, lim, i);
    }
  }

  /** An idle entry that is not evicted comes after every victim. */
  lemma {:induction false} PhaseGoesByAge(es: seq<Entry>, skip: Option<string>, size: int, lim: Limits, v: Entry,
                                          e: Entry)
    requires OldestFirst(es)
    requires v in Victims(es, skip, size, lim)
    requires e in es && e.stat.readers <= 0 && skip != Some(e.key) && e !in Victims(es, skip, size, lim)
    ensures v.stat.accessed <= e.stat.accessed
  {
    if skip == Some(es[0].key) {
      PhaseGoesByAge(es[1..], skip, size, lim, v, e);
    } else if es[0].stat.readers <= 0 {
      if v != es[0] {
        PhaseGoesByAge(es[1..], skip, size - es[0].stat.size, lim, v, e);
      }
    } else {
      PhaseGoesByAge(es[1..], skip, size, lim, v, e);
    }
  }

  // ------------------------------------------------------------------ sums

  lemma {:induction false} TotalOfAll(es: seq<Entry>, keys: set<string>)
    requires KeysOf(es) <= keys
    ensures TotalIn(es, keys) == Total(es)
  {
    if es != [] {
      assert es[0] in es;
      assert KeysOf(es[1..]) <= KeysOf(es);
      TotalOfAll(es[1..], keys);
    }
  }

  /** Taking one listed key away takes its size away. */
  lemma {:induction false} TotalWithout(es: seq<Entry>, keys: set<string>, e: Entry)
    requires DistinctKeys(es) && e in es && e.key in keys
    ensures TotalIn(es, keys - {e.key}) == TotalIn(es, keys) - e.stat.size
  {
    if es[0] == e {
      TotalUntouched(es[1..], keys, e.key);
    } else {
      TotalWithout(es[1..], keys, e);
    }
  }

  lemma {:induction false} TotalUntouched(es: seq<Entry>, keys: set<string>, k: string)
    requires forall e :: e in es ==> e.key != k
    ensures TotalIn(es, keys - {k}) == TotalIn(es, keys)
  {
    if es != [] {
      assert es[0] in es;
      TotalUntouched(es[1..], keys, k);
    }
  }

  lemma {:induction false} TotalWithoutAll(es: seq<Entry>, keys: set<string>, vs: seq<Entry>)
    requires DistinctKeys(es) && DistinctKeys(vs)
    requires forall v :: v in vs ==> v in es && v.key in keys
    ensures TotalIn(es, keys - KeysOf(vs)) == TotalIn(es, keys) - Total(vs)
  {
    if vs == [] {
      assert keys - KeysOf(vs) == keys;
    } else {
      TotalWithout(es, keys, vs[0]);
      TotalWithoutAll(es, keys - {vs[0].key}, vs[1..]);
      assert KeysOf(vs) == {vs[0].key} + KeysOf(vs[1..]);
      assert keys - KeysOf(vs) == keys - {vs[0].key} - KeysOf(vs[1..]);
    }
  }

  lemma {:induction false} VictimsAreDistinct(es: seq<Entry>, skip: Option<string>, size: int, lim: Limits)
    requires DistinctKeys(es)
    ensures DistinctKeys(Victims(es, skip, size, lim))
  {
    if es != [] {
      if skip == Some(es[0].key) || es[0].stat.readers > 0 {
        VictimsAreDistinct(es[1..], skip, size, lim);
      } else if size > lim.maxSize {
        var rest := Victims(es[1..], skip, size - es[0].stat.size, lim);
        VictimsAreDistinct(es[1..], skip, size - es[0].stat.size, lim);
        forall v | v in rest
          ensures v.key != es[0].key
        {
          VictimsAreIdle(es[1..], skip, size - es[0].stat.size, lim, v);
        }
      }
    }
  }

  // ------------------------------------------------------------------ the whole run

  /** The entries evicted by the size phase of a run. */
  function SizeVictims(m: map<string, Stat>, largest: Option<string>, es: seq<Entry>, lim: Limits): seq<Entry>
    requires largest.Some? ==> largest.value in m
  {
    if Total(es) <= lim.maxSize then [] else Victims(es, largest, Total(es) - Dropped(m, largest, lim), lim)
  }

  /** The value of the cleaner's running size when it is done. */
  function FinalSize(m: map<string, Stat>, largest: Option<string>, es: seq<Entry>, lim: Limits): int
    requires largest.Some? ==> largest.value in m
  {
    if Total(es) <= lim.maxSize then Total(es)
    else Total(es) - Dropped(m, largest, lim) - Total(SizeVictims(m, largest, es, lim))
  }

  /** The keys still cached just before the size phase makes its eviction number `i`. */
  function KeysBefore(m: map<string, Stat>, largest: Option<string>, es: seq<Entry>, lim: Limits, i: nat): set<string>
    requires largest.Some? ==> largest.value in m
    requires i <= |SizeVictims(m, largest, es, lim)|
  {
    m.Keys - DroppedKey(m, largest, lim) - KeysOf(SizeVictims(m, largest, es, lim)[..i])
  }

  /** The running size is the total of what is still cached, throughout the size phase. */
  lemma RunningSize(m: map<string, Stat>, largest: Option<string>, es: seq<Entry>, lim: Limits, i: nat)
    requires Lists(es, m) && (largest.Some? ==> largest.value in m) && Total(es) > lim.maxSize
    requires i <= |SizeVictims(m, largest, es, lim)|
    ensures TotalIn(es, KeysBefore(m, largest, es, lim, i))
         == Total(es) - Dropped(m, largest, lim) - Total(SizeVictims(m, largest, es, lim)[..i])
  {
    var vs := SizeVictims(m, largest, es, lim);
    var keys := m.Keys - DroppedKey(m, largest, lim);
    TotalOfAll(es, m.Keys);
    if DroppedKey(m, largest, lim) != {} {
      TotalWithout(es, m.Keys, Entry(largest.value, m[largest.value]));
    } else {
      assert keys == m.Keys;
    }
    VictimsAreDistinct(es, largest, Total(es) - Dropped(m, largest, lim), lim);
    forall v | v in vs[..i]
      ensures v in es && v.key in keys
    {
      VictimsAreIdle(es, largest, Total(es) - Dropped(m, largest, lim), lim, v);
    }
    TotalWithoutAll(es, keys, vs[..i]);
  }

  /** Who survives when the total is over the budget. */
  lemma Survivors(kept: map<string, Stat>, largest: Option<string>, es: seq<Entry>, lim: Limits, k: string)
    requires (largest.Some? ==> largest.value in kept) && Total(es) > lim.maxSize
    ensures k in kept - SizeEvicted(kept, es, Total(es), largest, lim) <==>
            k in kept && k !in DroppedKey(kept, largest, lim) && k !in KeysOf(SizeVictims(kept, largest, es, lim))
  {
  }

  lemma AllSurvivors(kept: map<string, Stat>, largest: Option<string>, es: seq<Entry>, lim: Limits)
    requires (largest.Some? ==> largest.value in kept) && Total(es) > lim.maxSize
    ensures var vs := SizeVictims(kept, largest, es, lim);
            && vs[..|vs|] == vs
            && (kept - SizeEvicted(kept, es, Total(es), largest, lim)).Keys == KeysBefore(kept, largest, es, lim, |vs|)
  {
    var vs := SizeVictims(kept, largest, es, lim);
    assert vs[..|vs|] == vs;
  }

  /** Eviction budget. The running size ends as the sum of the survivors' sizes, and it is
      within the budget, or every survivor has a reader or is the one largest candidate that
      the ratio test spared. */
  lemma EvictionBudget(before: map<string, Stat>, now: int, lim: Limits, largest: Option<string>, es: seq<Entry>,
                       after: map<string, Stat>)
    requires Cleaned(before, now, lim, largest, es, after)
    ensures var kept := Unexpired(before, now, lim);
            && FinalSize(kept, largest, es, lim) == TotalIn(es, after.Keys)
            && (TotalIn(es, after.Keys) <= lim.maxSize
                || forall k :: k in after ==> after[k].readers > 0
                                              || (largest == Some(k) && 10 * lim.maxSize <= 3 * after[k].size))
  {
    var kept := Unexpired(before, now, lim);
    if Total(es) <= lim.maxSize {
      TotalOfAll(es, after.Keys);
    } else {
      RunningSize(kept, largest, es, lim, |SizeVictims(kept, largest, es, lim)|);
      AllSurvivors(kept, largest, es, lim);
      if TotalIn(es, after.Keys) > lim.maxSize {
        forall k | k in after && after[k].readers <= 0
          ensures largest == Some(k) && 10 * lim.maxSize <= 3 * after[k].size
        {
          Survivors(kept, largest, es, lim, k);
          SurvivorOverBudget(kept, largest, es, lim, k);
        }
      }
    }
  }

  lemma SurvivorOverBudget(kept: map<string, Stat>, largest: Option<string>, es: seq<Entry>, lim: Limits, k: string)
    requires Lists(es, kept) && (largest.Some? ==> largest.value in kept) && Total(es) > lim.maxSize
    requires FinalSize(kept, largest, es, lim) > lim.maxSize
    requires k in kept && kept[k].readers <= 0
    requires k !in DroppedKey(kept, largest, lim) && k !in KeysOf(SizeVictims(kept, largest, es, lim))
    ensures largest == Some(k) && !DropsLargest(kept[k].size, lim)
  {
    PhaseMeetsBudget(es, largest, Total(es) - Dropped(kept, largest, lim), lim);
    var e := Entry(k, kept[k]);
    assert e in es;
    assert e !in SizeVictims(kept, largest, es, lim);
  }

  /** Eviction number `i` of the size phase is of `k`, while the total is over the budget. */
  ghost predicate EvictedAt(kept: map<string, Stat>, largest: Option<string>, es: seq<Entry>, lim: Limits, i: nat,
                            k: string)
    requires (largest.Some? ==> largest.value in kept) && k in kept
  {
    && i < |SizeVictims(kept, largest, es, lim)|
    && SizeVictims(kept, largest, es, lim)[i] == Entry(k, kept[k])
    && TotalIn(es, KeysBefore(kept, largest, es, lim, i)) > lim.maxSize
  }

  /** Eviction order and minimality. Nothing idle beyond the time limit survives and nothing
      with a reader goes. Whatever else is evicted is the dropped largest candidate, or a
      victim of the size phase: idle, accessed no later than every idle survivor other than
      the largest candidate, and evicted only while the total was above the budget. */
  lemma EvictionOrder(before: map<string, Stat>, now: int, lim: Limits, largest: Option<string>, es: seq<Entry>,
                      after: map<string, Stat>, k: string)
    requires Cleaned(before, now, lim, largest, es, after) && k in before
    ensures k in after ==>
              after[k] == before[k] && (before[k].readers > 0 || now - before[k].accessed <= lim.maxUnusedTime)
    ensures before[k].readers > 0 ==> k in after
    ensures var kept := Unexpired(before, now, lim);
            k in kept && k !in after && largest != Some(k) ==>
              && before[k].readers <= 0
              && (forall j :: j in after && after[j].readers <= 0 && largest != Some(j) ==>
                                before[k].accessed <= after[j].accessed)
              && exists i :: EvictedAt(kept, largest, es, lim, i, k)
  {
    var kept := Unexpired(before, now, lim);
    if k in kept && k !in after {
      Survivors(kept, largest, es, lim, k);
      if k in KeysOf(SizeVictims(kept, largest, es, lim)) {
        var size, vs := Total(es) - Dropped(kept, largest, lim), SizeVictims(kept, largest, es, lim);
        var i :| 0 <= i < |vs| && vs[i].key == k;
        VictimsAreIdle(es, largest, size, lim, vs[i]);
        RunningSize(kept, largest, es, lim, i);
        PhaseIsMinimal(es, largest, size, lim, i);
        assert EvictedAt(kept, largest, es, lim, i, k);
        forall j | j in after && after[j].readers <= 0 && largest != Some(j)
          ensures before[k].accessed <= after[j].accessed
        {
          Survivors(kept, largest, es, lim, j);
          VictimIsOlder(kept, largest, es, lim, Entry(k, kept[k]), j);
        }
      }
    }
  }

  /** The object has a reader, or has been used within the time limit. */
  predicate InUse(s: Stat, now: int, lim: Limits) {
    s.readers > 0 || now - s.accessed <= lim.maxUnusedTime
  }

  /** The object may be dropped ahead of older ones: it is idle, for over thirty minutes,
      and within the time limit. */
  predicate MayBeDropped(s: Stat, now: int, lim: Limits) {
    s.readers <= 0 && 1_800_000_000_000 < now - s.accessed <= lim.maxUnusedTime
  }

  /** The clean-up in sizes, reader counts and times. Whatever is not in use goes. If what is
      in use fits the budget, all of it stays. Otherwise the largest candidate, an object of
      maximal size among those that may be dropped, goes exactly when the budget is more than
      three tenths of its size. */
  lemma CleanedPlainly(before: map<string, Stat>, now: int, lim: Limits, largest: Option<string>, es: seq<Entry>,
                       after: map<string, Stat>)
    requires Cleaned(before, now, lim, largest, es, after)
    ensures DistinctKeys(es)
            && forall e :: e in es <==> e.key in before && before[e.key] == e.stat && InUse(e.stat, now, lim)
    ensures forall k :: k in after ==> k in before && after[k] == before[k] && InUse(before[k], now, lim)
    ensures Total(es) <= lim.maxSize ==> forall k :: k in before && InUse(before[k], now, lim) ==> k in after
    ensures largest.None? <==> forall k :: k in before ==> !MayBeDropped(before[k], now, lim)
    ensures largest.Some? ==>
              var l := largest.value;
              && l in before && MayBeDropped(before[l], now, lim)
              && (forall k :: k in before && MayBeDropped(before[k], now, lim) ==> before[k].size <= before[l].size)
              && (Total(es) > lim.maxSize ==> (l !in after <==> 10 * lim.maxSize > 3 * before[l].size))
  {
    var kept := Unexpired(before, now, lim);
    forall k | k in before
      ensures k in kept <==> InUse(before[k], now, lim)
      ensures k in kept && LongIdle(before[k], now) <==> MayBeDropped(before[k], now, lim)
    {
    }
    forall e
      ensures e in es <==> e.key in before && before[e.key] == e.stat && InUse(e.stat, now, lim)
    {
      if e.key in kept && kept[e.key] == e.stat {
        assert e == Entry(e.key, kept[e.key]);
      }
    }
    if largest.Some? && Total(es) > lim.maxSize {
      CandidateGoesIff(kept, largest, es, lim);
    }
  }

  lemma CandidateGoesIff(kept: map<string, Stat>, largest: Option<string>, es: seq<Entry>, lim: Limits)
    requires largest.Some? && largest.value in kept && Total(es) > lim.maxSize
    ensures largest.value !in kept - SizeEvicted(kept, es, Total(es), largest, lim) <==>
            10 * lim.maxSize > 3 * kept[largest.value].size
  {
    var size := Total(es) - Dropped(kept, largest, lim);
    Survivors(kept, largest, es, lim, largest.value);
    if v :| v in Victims(es, largest, size, lim) && v.key == largest.value {
      VictimsAreIdle(es, largest, size, lim, v);
    }
  }

  /** What the total of a list is. */
  lemma TotalIs(es: seq<Entry>, e: Entry)
    ensures Total([]) == 0 && Total(es + [e]) == Total(es) + e.stat.size
  {
    TotalOfConcat(es, e);
  }

  /** A survivor that may have been evicted is no older than a victim. */
  lemma VictimIsOlder(kept: map<string, Stat>, largest: Option<string>, es: seq<Entry>, lim: Limits, v: Entry,
                      j: string)
    requires Lists(es, kept) && OldestFirst(es) && (largest.Some? ==> largest.value in kept)
    requires v in SizeVictims(kept, largest, es, lim)
    requires j in kept && j !in KeysOf(SizeVictims(kept, largest, es, lim)) && kept[j].readers <= 0
             && largest != Some(j)
    ensures v.stat.accessed <= kept[j].accessed
  {
    var e, vs := Entry(j, kept[j]), SizeVictims(kept, largest, es, lim);
    assert e in es;
    assert e !in vs;
    PhaseGoesByAge(es, largest, Total(es) - Dropped(kept, largest, lim), lim, v, e);
  }

  /** A victim of the size phase was idle, and the total over the budget. */
  // ------------------------------------------------------------------ one pass over the map

  lemma {:induction false} TotalOfConcat(es: seq<Entry>, e: Entry)
    ensures Total(es + [e]) == Total(es) + e.stat.size
  {
    if es == [] {
      assert es + [e] == [e];
    } else {
      assert (es + [e])[1..] == es[1..] + [e];
      TotalOfConcat(es[1..], e);
    }
  }

  // ------------------------------------------------------------------ sorting by access

  function Insert(e: Entry, es: seq<Entry>): seq<Entry> {
    if es == [] then [e]
    else if e.stat.accessed <= es[0].stat.accessed then [e] + es
    else [es[0]] + Insert(e, es[1..])
  }

  function Sorted(es: seq<Entry>): seq<Entry> {
    if es == [] then [] else Insert(es[0], Sorted(es[1..]))
  }

  lemma {:induction false} InsertMembers(e: Entry, es: seq<Entry>)
    ensures Total(Insert(e, es)) == e.stat.size + Total(es)
    ensures forall x :: x in Insert(e, es) <==> x == e || x in es
  {
    if es == [] || e.stat.accessed <= es[0].stat.accessed {
      assert ([e] + es)[1..] == es;
    } else {
      InsertMembers(e, es[1..]);
      assert ([es[0]] + Insert(e, es[1..]))[1..] == Insert(e, es[1..]);
    }
  }

  lemma {:induction false} InsertSorted(e: Entry, es: seq<Entry>, low: int)
    requires OldestFirst(es) && low <= e.stat.accessed && forall i :: 0 <= i < |es| ==> low <= es[i].stat.accessed
    ensures var r := Insert(e, es); OldestFirst(r) && forall i :: 0 <= i < |r| ==> low <= r[i].stat.accessed
  {
    if es != [] && e.stat.accessed > es[0].stat.accessed {
      InsertSorted(e, es[1..], es[0].stat.accessed);
    }
  }

  lemma {:induction false} InsertDistinct(e: Entry, es: seq<Entry>)
    requires DistinctKeys(es) && forall x :: x in es ==> x.key != e.key
    ensures DistinctKeys(Insert(e, es))
  {
    if es != [] && e.stat.accessed > es[0].stat.accessed {
      var rest := Insert(e, es[1..]);
      InsertDistinct(e, es[1..]);
      InsertMembers(e, es[1..]);
      forall k | 0 <= k < |rest|
        ensures rest[k].key != es[0].key
      {
        assert rest[k] in rest && es[0] in es;
        if rest[k] != e {
          var m :| 0 <= m < |es| - 1 && es[1..][m] == rest[k];
          assert es[m + 1] == rest[k];
        }
      }
      assert Insert(e, es) == [es[0]] + rest;
    } else {
      assert Insert(e, es) == [e] + es;
      assert forall k :: 0 <= k < |es| ==> es[k] in es;
    }
  }

  lemma {:induction false} SortedFacts(es: seq<Entry>)
    ensures OldestFirst(Sorted(es)) && Total(Sorted(es)) == Total(es)
    ensures forall x :: x in Sorted(es) <==> x in es
  {
    if es != [] {
      SortedFacts(es[1..]);
      InsertMembers(es[0], Sorted(es[1..]));
      var rest := Sorted(es[1..]);
      InsertSorted(es[0], rest,
                   if rest != [] && rest[0].stat.accessed < es[0].stat.accessed then rest[0].stat.accessed
                   else es[0].stat.accessed);
    }
  }

  lemma {:induction false} InsertPermutes(e: Entry, es: seq<Entry>)
    ensures multiset(Insert(e, es)) == multiset{e} + multiset(es)
  {
    if es != [] {
      assert es == [es[0]] + es[1..];
      InsertPermutes(e, es[1..]);
    }
  }

  lemma {:induction false} SortedPermutes(es: seq<Entry>)
    ensures multiset(Sorted(es)) == multiset(es)
  {
    if es != [] {
      assert es == [es[0]] + es[1..];
      SortedPermutes(es[1..]);
      InsertPermutes(es[0], Sorted(es[1..]));
    }
  }

  lemma {:induction false} SortedDistinct(es: seq<Entry>)
    requires DistinctKeys(es)
    ensures DistinctKeys(Sorted(es))
  {
    if es != [] {
      SortedFacts(es[1..]);
      SortedDistinct(es[1..]);
      InsertDistinct(es[0], Sorted(es[1..]));
    }
  }

  /** A permutation that puts the longest unused first; ties are in no particular order. */
  method SortByAccess(es: seq<Entry>) returns (r: seq<Entry>)
    ensures OldestFirst(r) && multiset(r) == multiset(es) && Total(r) == Total(es)
    ensures forall x :: x in r <==> x in es
    ensures DistinctKeys(es) ==> DistinctKeys(r)
  {
    SortedFacts(es);
    SortedPermutes(es);
    if DistinctKeys(es) {
      SortedDistinct(es);
    }
    r := Sorted(es);
  }

  // ------------------------------------------------------------------ one more object of the pass

  /** The candidate for the largest object after one more object. */
  function LargerOf(m: map<string, Stat>, largest: Option<string>, k: string, s: Stat, now: int): Option<string>
    requires largest.Some? ==> largest.value in m
  {
    if LongIdle(s, now) && (largest.None? || s.size > m[largest.value].size) then Some(k) else largest
  }

  lemma PassOneMore(before: map<string, Stat>, todo: set<string>, k: string, now: int, lim: Limits)
    requires k in before && k in todo
    ensures var m, m' := Unexpired(before - todo, now, lim), Unexpired(before - (todo - {k}), now, lim);
            m' == if Expired(before[k], now, lim) then m else m[k := before[k]]
  {
  }

  /** The first pass has seen every object but those under `todo`. */
  ghost predicate PassState(before: map<string, Stat>, todo: set<string>, now: int, lim: Limits,
                            es: seq<Entry>, size: nat, largest: Option<string>, largestSize: nat, gone: set<string>)
  {
    var m := Unexpired(before - todo, now, lim);
    && todo <= before.Keys && gone !! todo && gone <= before.Keys && before.Keys - gone == m.Keys + todo
    && Lists(es, m) && size == Total(es)
    && IsLargest(m, now, largest)
    && (largest.Some? ==> largest.value in before && largestSize == before[largest.value].size)
  }

  lemma PassEvicts(before: map<string, Stat>, todo: set<string>, now: int, lim: Limits,
                   es: seq<Entry>, size: nat, largest: Option<string>, largestSize: nat, gone: set<string>, k: string)
    requires PassState(before, todo, now, lim, es, size, largest, largestSize, gone)
    requires k in todo && Expired(before[k], now, lim)
    ensures PassState(before, todo - {k}, now, lim, es, size, largest, largestSize, gone + {k})
  {
    PassOneMore(before, todo, k, now, lim);
  }

  lemma PassKeeps(before: map<string, Stat>, todo: set<string>, now: int, lim: Limits,
                  es: seq<Entry>, size: nat, largest: Option<string>, largestSize: nat, gone: set<string>, k: string)
    requires PassState(before, todo, now, lim, es, size, largest, largestSize, gone)
    requires k in todo && !Expired(before[k], now, lim)
    ensures var s := before[k];
            var larger := LongIdle(s, now) && (largest.None? || s.size > largestSize);
            PassState(before, todo - {k}, now, lim, es + [Entry(k, s)], size + s.size,
                      if larger then Some(k) else largest, if larger then s.size else largestSize, gone)
  {
    var m := Unexpired(before - todo, now, lim);
    PassOneMore(before, todo, k, now, lim);
    TotalOfConcat(es, Entry(k, before[k]));
  }

  lemma StillListed(es: seq<Entry>, before: map<string, Stat>, gone: set<string>, largest: Option<string>, lim: Limits)
    requires Lists(es, before - gone) && (largest.Some? ==> largest.value in before - gone)
    ensures forall e :: e in es ==>
                          e.key in before && before[e.key] == e.stat
                          && (e.key in gone + DroppedKey(before - gone, largest, lim) ==> largest == Some(e.key))
  {
  }

  /** The size phase has come to entry `i` with these keys gone; `goal` will be gone at its end. */
  ghost predicate PhaseState(es: seq<Entry>, i: nat, largest: Option<string>, size: int, lim: Limits,
                             gone: set<string>, goal: set<string>)
    requires i <= |es|
  {
    && gone + KeysOf(Victims(es[i..], largest, size, lim)) == goal
    && forall j :: i <= j < |es| && es[j].key in gone ==> largest == Some(es[j].key)
  }

}
