/** What it means for a sequence to be selected from another one, in order. */
module Selections {
  /** `r` has the elements of `xs` at the places `at`, in order; they are the places that
      `keep` marks. */
  ghost predicate Selects<T>(xs: seq<T>, r: seq<T>, at: seq<nat>, keep: seq<bool>) {
    && |keep| == |xs| && |r| == |at|
    && (forall i, j :: 0 <= i < j < |at| ==> at[i] < at[j])
    && (forall i :: 0 <= i < |at| ==> at[i] < |xs| && keep[at[i]] && r[i] == xs[at[i]])
    && forall k :: 0 <= k < |keep| && keep[k] ==> k in at
  }

  lemma NothingSelected<T>()
    ensures Selects<T>([], [], [], [])
  {
  }

  lemma OneMore<T>(xs: seq<T>, r: seq<T>, at: seq<nat>, keep: seq<bool>, x: T, b: bool)
    requires Selects(xs, r, at, keep)
    ensures Selects(xs + [x], if b then r + [x] else r, if b then at + [|xs|] else at, keep + [b])
  {
    var at' := if b then at + [|xs|] else at;
    forall k | 0 <= k < |keep + [b]| && (keep + [b])[k]
      ensures k in at'
    {
      if k < |xs| {
        assert keep[k];
      } else {
        assert at'[|at|] == k;
      }
    }
  }

  /** The elements of `xs` at the places that are to be kept, in order. */
  function Kept<T>(xs: seq<T>, keep: seq<bool>): seq<T>
    requires |xs| == |keep|
  {
    if xs == [] then []
    else
      var n := |xs| - 1;
      Kept(xs[..n], keep[..n]) + if keep[n] then [xs[n]] else []
  }

  lemma KeptSnoc<T>(xs: seq<T>, keep: seq<bool>, x: T, b: bool)
    requires |xs| == |keep|
    ensures Kept(xs + [x], keep + [b]) == Kept(xs, keep) + if b then [x] else []
  {
    assert (xs + [x])[..|xs|] == xs && (keep + [b])[..|keep|] == keep;
  }

  lemma KeptSelects<T>(xs: seq<T>, keep: seq<bool>, at: seq<nat>, x: T, b: bool)
    requires |xs| == |keep| && Selects(xs, Kept(xs, keep), at, keep)
    ensures Selects(xs + [x], Kept(xs + [x], keep + [b]), if b then at + [|xs|] else at, keep + [b])
  {
    KeptSnoc(xs, keep, x, b);
    OneMore(xs, Kept(xs, keep), at, keep, x, b);
  }

  /** What is kept, in order: the elements at the places that are to be kept. */
  lemma {:induction false} KeptAre<T>(xs: seq<T>, keep: seq<bool>) returns (at: seq<nat>)
    requires |xs| == |keep|
    ensures Selects(xs, Kept(xs, keep), at, keep)
  {
    if xs == [] {
      at := [];
    } else {
      var n := |xs| - 1;
      var init, before := xs[..n], keep[..n];
      assert xs == init + [xs[n]] && keep == before + [keep[n]];
      var rest := KeptAre(init, before);
      KeptSelects(init, before, rest, xs[n], keep[n]);
      at := if keep[n] then rest + [n] else rest;
    }
  }
}
