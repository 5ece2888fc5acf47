/** Facts about sequences and sets that several parts need. */
module Collections {

  ghost predicate Rising(s: seq<nat>)
  {
    forall i, j :: 0 <= i < j < |s| ==> s[i] < s[j]
  }

  lemma {:induction false} ConsConcat<T>(x: T, s: seq<T>, t: seq<T>)
    ensures ([x] + s) + t == [x] + (s + t)
  {
  }

  lemma {:induction false} Fits<T>(small: set<T>, big: set<T>)
    requires small <= big
    ensures |small| <= |big|
  {
    if small != {} {
      var x :| x in small;
      Fits(small - {x}, big - {x});
    }
  }

  /** Two sets that differ in one element at most. */
  lemma {:induction false} OneApart<T>(a: set<T>, b: set<T>, x: T)
    requires a - {x} == b - {x}
    ensures |b| == |a| + (if x in b then 1 else 0) - (if x in a then 1 else 0)
  {
    assert |a - {x}| == |a| - if x in a then 1 else 0;
    assert |b - {x}| == |b| - if x in b then 1 else 0;
  }

  /** What is to be kept of a sequence, in order. */
  function Filter<T>(all: seq<T>, keep: T -> bool): seq<T>
  {
    if all == [] then []
    else Filter(all[..|all| - 1], keep) + if keep(all[|all| - 1]) then [all[|all| - 1]] else []
  }

  lemma {:induction false} FilterHas<T>(all: seq<T>, keep: T -> bool, x: T)
    ensures x in Filter(all, keep) <==> x in all && keep(x)
  {
    if all != [] {
      FilterHas(all[..|all| - 1], keep, x);
      assert all == all[..|all| - 1] + [all[|all| - 1]];
    }
  }

  /** The places it comes from: all those with something to be kept, in order, each once. */
  lemma {:induction false} FilterPlaces<T>(all: seq<T>, keep: T -> bool) returns (idx: seq<nat>)
    ensures Rising(idx) && |idx| == |Filter(all, keep)|
    ensures forall i :: 0 <= i < |idx| ==> idx[i] < |all| && Filter(all, keep)[i] == all[idx[i]]
    ensures forall k: nat :: k in idx <==> k < |all| && keep(all[k])
  {
    idx := [];
    if all != [] {
      var n: nat := |all| - 1;
      idx := FilterPlaces(all[..n], keep);
      if keep(all[n]) {
        RisingOn(idx, n);
        idx := idx + [n];
      }
    }
  }

  lemma {:induction false} RisingOn(s: seq<nat>, next: nat)
    requires Rising(s) && forall i :: 0 <= i < |s| ==> s[i] < next
    ensures Rising(s + [next])
    ensures forall k: nat :: k in s + [next] <==> k in s || k == next
  {
  }
}
