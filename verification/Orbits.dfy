/** Following links in a finite map, where 0 is the end: the walks of three different loops. */
module Orbits {

  type Links = map<nat, nat>

  function Up(m: Links, x: nat): nat
  {
    if x != 0 && x in m then m[x] else 0
  }

  function Iter(m: Links, x: nat, k: nat): nat
  {
    if k == 0 then x else Up(m, Iter(m, x, k - 1))
  }

  ghost predicate Reaches(m: Links, x: nat, y: nat)
  {
    exists k: nat :: Iter(m, x, k) == y
  }

  lemma {:induction false} IterAdds(m: Links, x: nat, a: nat, b: nat)
    ensures Iter(m, Iter(m, x, a), b) == Iter(m, x, a + b)
  {
    if b > 0 {
      IterAdds(m, x, a, b - 1);
    }
  }

  /** The end is never left. */
  lemma {:induction false} EndStays(m: Links, x: nat, a: nat, b: nat)
    requires a <= b && Iter(m, x, a) == 0
    ensures Iter(m, x, b) == 0
  {
    if a < b {
      EndStays(m, x, a, b - 1);
    }
  }

  /** A walk that comes back to where it was comes back every time around. */
  lemma {:induction false} AroundAgain(m: Links, x: nat, k: nat, times: nat)
    requires Iter(m, x, k) == x
    ensures Iter(m, x, times * k) == x
  {
    if times > 0 {
      AroundAgain(m, x, k, times - 1);
      assert times * k == (times - 1) * k + k;
      IterAdds(m, x, (times - 1) * k, k);
    }
  }

  ghost predicate Distinct(s: seq<nat>)
  {
    forall i, j :: 0 <= i < j < |s| ==> s[i] != s[j]
  }

  lemma {:induction false} DistinctFits(s: seq<nat>, keys: set<nat>)
    requires Distinct(s) && forall i :: 0 <= i < |s| ==> s[i] in keys
    ensures |s| <= |keys|
  {
    if s != [] {
      var last := s[|s| - 1];
      DistinctFits(s[..|s| - 1], keys - {last});
    }
  }

  function Walk(m: Links, x: nat, k: nat): (w: seq<nat>)
    ensures |w| == k
  {
    if k == 0 then [] else Walk(m, x, k - 1) + [Iter(m, x, k - 1)]
  }

  lemma {:induction false} WalkAt(m: Links, x: nat, k: nat, i: nat)
    requires i < k
    ensures Walk(m, x, k)[i] == Iter(m, x, i)
  {
    if i < k - 1 {
      WalkAt(m, x, k - 1, i);
    }
  }

  /** A walk of distinct links is no longer than the map. */
  lemma {:induction false} WalkFits(m: Links, x: nat, k: nat)
    requires Iter(m, x, k) != 0
    requires forall i, j :: 0 <= i < j < k ==> Iter(m, x, i) != Iter(m, x, j)
    ensures k <= |m.Keys|
  {
    var w := Walk(m, x, k);
    forall i | 0 <= i < k ensures w[i] == Iter(m, x, i) && w[i] in m.Keys {
      WalkAt(m, x, k, i);
      if Iter(m, x, i + 1) == 0 {
        EndStays(m, x, i + 1, k);
      }
    }
    DistinctFits(w, m.Keys);
  }

  /** What can be reached at all can be reached in as many steps as the map has links. */
  lemma {:induction false} ReachedSoon(m: Links, x: nat, k: nat) returns (j: nat)
    requires Iter(m, x, k) != 0
    ensures j <= |m.Keys| && j <= k && Iter(m, x, j) == Iter(m, x, k)
    decreases k
  {
    if a, b :| 0 <= a < b < k && Iter(m, x, a) == Iter(m, x, b) {
      IterAdds(m, x, a, k - b);
      IterAdds(m, x, b, k - b);
      j := ReachedSoon(m, x, k - (b - a));
    } else {
      WalkFits(m, x, k);
      j := k;
    }
  }
}
