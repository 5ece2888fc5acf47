/** Transcripts that are copies of others: who owns the copied turns, and which are listed. */
module ClaudeCopies {
  import opened Collections
  import opened Orbits

  /** A path, as its rank among all path strings in order: 0 is the empty one. */
  type Path = nat

  /** A path that follows itself around. */
  ghost predicate OnCycle(m: Links, r: Path)
  {
    r != 0 && exists k: nat :: k > 0 && Iter(m, r, k) == r
  }

  /** The owner of p: where the chain from p ends, or the least path of the cycle it runs into. */
  ghost predicate IsOwner(m: Links, p: Path, r: Path)
  {
    && r != 0 && Reaches(m, p, r)
    && (Up(m, r) == 0 || (OnCycle(m, r) && forall c :: Reaches(m, p, c) && OnCycle(m, c) ==> r <= c))
  }

  lemma {:induction false} CycleNeverEnds(m: Links, c: Path, n: nat)
    requires OnCycle(m, c)
    ensures Iter(m, c, n) != 0
  {
    var k: nat :| k > 0 && Iter(m, c, k) == c;
    AroundAgain(m, c, k, n);
    assert n <= n * k;
    if Iter(m, c, n) == 0 {
      EndStays(m, c, n, n * k);
    }
  }

  lemma {:induction false} EndExcludesCycle(m: Links, p: Path, r: Path, c: Path)
    requires Reaches(m, p, r) && r != 0 && Up(m, r) == 0
    requires Reaches(m, p, c) && c != 0
    ensures !OnCycle(m, c)
    ensures Up(m, c) == 0 ==> c == r
  {
    var a: nat :| Iter(m, p, a) == r;
    var b: nat :| Iter(m, p, b) == c;
    assert Iter(m, p, a + 1) == 0;
    if a < b {
      EndStays(m, p, a + 1, b);
    } else {
      IterAdds(m, p, b, a + 1 - b);
      if OnCycle(m, c) {
        CycleNeverEnds(m, c, a + 1 - b);
      }
      if Up(m, c) == 0 && b < a {
        EndStays(m, p, b + 1, a);
      }
    }
  }

  /** There is one owner at most. */
  lemma {:induction false} OwnerUnique(m: Links, p: Path, r: Path, s: Path)
    requires IsOwner(m, p, r) && IsOwner(m, p, s)
    ensures r == s
  {
    if Up(m, r) == 0 {
      EndExcludesCycle(m, p, r, s);
    } else if Up(m, s) == 0 {
      EndExcludesCycle(m, p, s, r);
    }
  }

  lemma {:induction false} ReachesStep(m: Links, p: Path, c: Path)
    ensures Reaches(m, p, c) <==> c == p || Reaches(m, Up(m, p), c)
  {
    assert Iter(m, p, 0) == p && Iter(m, p, 1) == Up(m, p);
    if Reaches(m, p, c) {
      var k: nat :| Iter(m, p, k) == c;
      if k > 0 {
        IterAdds(m, p, 1, k - 1);
      }
    }
    if Reaches(m, Up(m, p), c) {
      var k: nat :| Iter(m, Up(m, p), k) == c;
      IterAdds(m, p, 1, k);
    }
  }

  /** A path and the one it points to have the same owner. */
  lemma {:induction false} OwnerOfNext(m: Links, p: Path, r: Path)
    requires Up(m, p) != 0
    ensures IsOwner(m, p, r) <==> IsOwner(m, Up(m, p), r)
  {
    forall c | OnCycle(m, c) ensures Reaches(m, p, c) <==> Reaches(m, Up(m, p), c) {
      ReachesStep(m, p, c);
      if c == p {
        var k: nat :| k > 0 && Iter(m, c, k) == c;
        IterAdds(m, p, 1, k - 1);
        assert Iter(m, p, 1) == Up(m, p);
      }
    }
    ReachesStep(m, p, r);
  }

  /** An owner owns itself: resolving twice is resolving once. */
  lemma {:induction false} OwnerIdempotent(m: Links, p: Path, r: Path)
    requires IsOwner(m, p, r)
    ensures IsOwner(m, r, r)
  {
    assert Iter(m, r, 0) == r;
    var a: nat :| Iter(m, p, a) == r;
    forall c | Reaches(m, r, c) ensures Reaches(m, p, c) {
      var b: nat :| Iter(m, r, b) == c;
      IterAdds(m, p, a, b);
    }
  }

  /** Every member of a cycle is owned by the least one. */
  lemma {:induction false} CycleOwner(m: Links, p: Path, r: Path)
    requires OnCycle(m, p) && IsOwner(m, p, r)
    ensures OnCycle(m, r) && forall k: nat :: r <= Iter(m, p, k)
  {
    if Up(m, r) == 0 {
      assert Iter(m, p, 0) == p;
      EndExcludesCycle(m, p, r, p);
    }
    var n: nat :| n > 0 && Iter(m, p, n) == p;
    forall k: nat ensures r <= Iter(m, p, k) {
      CycleNeverEnds(m, p, k);
      IterAdds(m, p, n, k);
      IterAdds(m, p, k, n);
      var c := Iter(m, p, k);
      assert Iter(m, c, n) == c;
      assert OnCycle(m, c) && Reaches(m, p, c);
    }
  }

  method Least(paths: seq<Path>) returns (r: Path)
    requires paths != []
    ensures r in paths && forall i :: 0 <= i < |paths| ==> r <= paths[i]
  {
    r := paths[0];
    for i := 1 to |paths|
      invariant r in paths && forall k :: 0 <= k < i ==> r <= paths[k]
    {
      if paths[i] < r {
        r := paths[i];
      }
    }
  }

  /** From the first repeated place on, the walk stays in the cycle found. */
  lemma {:induction false} StaysInCycle(m: Links, p: Path, at: nat, n: nat, j: nat) returns (i: nat)
    requires at < n && Iter(m, p, n) == Iter(m, p, at) && at <= j
    ensures at <= i < n && Iter(m, p, i) == Iter(m, p, j)
  {
    if j < n {
      i := j;
    } else {
      IterAdds(m, p, n, j - n);
      IterAdds(m, p, at, j - n);
      i := StaysInCycle(m, p, at, n, j - (n - at));
    }
  }

  /** A member of a cycle is met again as far along as one likes. */
  lemma {:induction false} MetAgain(m: Links, p: Path, c: Path, n: nat) returns (j: nat)
    requires Reaches(m, p, c) && OnCycle(m, c)
    ensures j >= n && Iter(m, p, j) == c
  {
    var i: nat :| Iter(m, p, i) == c;
    var k: nat :| k > 0 && Iter(m, c, k) == c;
    AroundAgain(m, c, k, n);
    IterAdds(m, p, i, n * k);
    AtLeast(n, k);
    j := i + n * k;
  }

  lemma {:induction false} AtLeast(n: nat, k: nat)
    requires k > 0
    ensures n * k >= n
  {
  }

  /** The places passed so far, none of them twice. */
  ghost predicate Passed(m: Links, p: Path, chain: seq<Path>)
  {
    && Distinct(chain)
    && (forall i :: 0 <= i < |chain| ==> chain[i] == Iter(m, p, i) && chain[i] != 0)
  }

  lemma {:induction false} CycleFound(m: Links, p: Path, chain: seq<Path>, at: nat, a: nat)
    requires at <= a < |chain| && Iter(m, p, |chain|) == chain[at] && Passed(m, p, chain)
    requires forall i :: at <= i < |chain| ==> chain[a] <= chain[i]
    ensures IsOwner(m, p, chain[a])
  {
    var n, r := |chain|, chain[a];
    IterAdds(m, p, at, a - at);
    IterAdds(m, p, n, a - at);
    IterAdds(m, p, a, n - at);
    assert Iter(m, r, n - at) == r;
    assert OnCycle(m, r) && Reaches(m, p, r);
    forall c | Reaches(m, p, c) && OnCycle(m, c) ensures r <= c {
      var j := MetAgain(m, p, c, n);
      var i := StaysInCycle(m, p, at, n, j);
      assert chain[i] == c;
    }
  }

  lemma {:induction false} EndFound(m: Links, p: Path, n: nat)
    requires Iter(m, p, n) != 0 && Up(m, Iter(m, p, n)) == 0
    ensures IsOwner(m, p, Iter(m, p, n))
  {
  }

  /** resolveClaudeCopy: the source's walk, which remembers where it has been. */
  method Resolve(path: Path, copies: Links) returns (r: Path)
    requires path != 0 && 0 !in copies
    ensures IsOwner(copies, path, r)
  {
    var seen: map<Path, nat>, chain: seq<Path>, p := map[], [], path;
    while true
      invariant p == Iter(copies, path, |chain|) != 0
      invariant Passed(copies, path, chain)
      invariant forall q :: q in chain ==> q in seen && q in copies
      invariant forall q :: q in seen ==> seen[q] < |chain| && chain[seen[q]] == q
      decreases copies.Keys - seen.Keys
    {
      if p in seen {
        var cycle := chain[seen[p]..];
        r := Least(cycle);
        ghost var k :| 0 <= k < |cycle| && cycle[k] == r;
        CycleFound(copies, path, chain, seen[p], seen[p] + k);
        return;
      }
      var next := if p in copies then copies[p] else 0;
      if next == 0 {
        EndFound(copies, path, |chain|);
        return p;
      }
      assert p in copies.Keys - seen.Keys;
      seen := seen[p := |chain|];
      chain := chain + [p];
      p := next;
    }
  }

  // The list

  type Id = nat   // session ids; 0 is the empty one

  datatype Record = Record(file: Path, subagent: bool, session: Id, parent: Id)

  ghost predicate IsKept(copies: Links, rec: Record)
  {
    rec.subagent || rec.file !in copies || IsOwner(copies, rec.file, rec.file)
  }

  /** A main-thread transcript of the list. */
  ghost predicate Listed(recs: seq<Record>, p: Path)
  {
    exists i :: 0 <= i < |recs| && recs[i].file == p && !recs[i].subagent
  }

  /** Copies point to main-thread transcripts of the list. */
  ghost predicate WithinList(copies: Links, recs: seq<Record>)
  {
    && 0 !in copies
    && forall p :: p in copies ==> copies[p] != 0 && Listed(recs, copies[p])
  }

  /** The session of the transcript at this path; of several records, of the last one. */
  function SessionAt(recs: seq<Record>, p: Path): Id
  {
    if recs == [] then 0
    else if recs[|recs| - 1].file == p then recs[|recs| - 1].session
    else SessionAt(recs[..|recs| - 1], p)
  }

  lemma {:induction false} SessionAtIs(recs: seq<Record>, p: Path, k: nat)
    requires k < |recs| && recs[k].file == p && forall i :: k < i < |recs| ==> recs[i].file != p
    ensures SessionAt(recs, p) == recs[k].session
  {
    if k < |recs| - 1 {
      SessionAtIs(recs[..|recs| - 1], p, k);
    }
  }

  /** A transcript of one session is a copy, and owned by one of the other. */
  ghost predicate IsAlias(copies: Links, recs: seq<Record>, p: Path, from: Id, to: Id)
  {
    && p in copies && from == SessionAt(recs, p) != 0 && to != 0 && from != to
    && exists owner :: IsOwner(copies, p, owner) && owner != p && to == SessionAt(recs, owner)
  }

  /** The sessions of the copies, each with the session of an original. */
  ghost predicate AliasesOf(copies: Links, recs: seq<Record>, aliases: Links)
  {
    && (forall from :: from in aliases ==> exists p :: IsAlias(copies, recs, p, from, aliases[from]))
    && (forall p, from, to :: IsAlias(copies, recs, p, from, to) ==> from in aliases)
  }

  /** The aliases followed from an id, to one that has none or that was passed before. */
  function Follow(aliases: Links, id: Id, seen: set<Id>): Id
    decreases |aliases.Keys - seen|
  {
    if id !in aliases || aliases[id] == 0 || id in seen then id
    else
      assert aliases.Keys - (seen + {id}) == (aliases.Keys - seen) - {id};
      Follow(aliases, aliases[id], seen + {id})
  }

  /** The walk along the aliases stops here: there is none, or this one was passed before. */
  ghost predicate Stops(aliases: Links, id: Id, seen: set<Id>, k: nat)
  {
    var at := Iter(aliases, id, k);
    at !in aliases || aliases[at] == 0 || at in seen || exists j :: 0 <= j < k && Iter(aliases, id, j) == at
  }

  /** The aliases are followed to the first place where there is none, or that was passed before. */
  lemma {:induction false} FollowedUntil(aliases: Links, id: Id, seen: set<Id>, k: nat)
    requires 0 !in aliases && Stops(aliases, id, seen, k) && forall j: nat :: j < k ==> !Stops(aliases, id, seen, j)
    ensures Follow(aliases, id, seen) == Iter(aliases, id, k)
    decreases k
  {
    assert Iter(aliases, id, 0) == id;
    if k > 0 {
      assert !Stops(aliases, id, seen, 0);
      var next := aliases[id];
      assert Iter(aliases, id, 1) == next;
      forall j: nat ensures Iter(aliases, next, j) == Iter(aliases, id, j + 1) {
        IterAdds(aliases, id, 1, j);
      }
      forall j: nat ensures Stops(aliases, next, seen + {id}, j) <==> Stops(aliases, id, seen, j + 1) {
        StopsOn(aliases, id, seen, j);
      }
      FollowedUntil(aliases, next, seen + {id}, k - 1);
    }
  }

  lemma {:induction false} StopsOn(aliases: Links, id: Id, seen: set<Id>, k: nat)
    requires id in aliases && id != 0
    requires forall j: nat :: Iter(aliases, aliases[id], j) == Iter(aliases, id, j + 1)
    ensures Stops(aliases, aliases[id], seen + {id}, k) <==> Stops(aliases, id, seen, k + 1)
  {
    var at := Iter(aliases, id, k + 1);
    assert Iter(aliases, aliases[id], k) == at && Iter(aliases, id, 0) == id;
    if j :| 0 <= j < k && Iter(aliases, aliases[id], j) == at {
      assert Iter(aliases, id, j + 1) == at;
    }
    if j :| 0 <= j < k + 1 && Iter(aliases, id, j) == at {
      if j > 0 {
        assert Iter(aliases, aliases[id], j - 1) == at;
      }
    }
  }

  method ResolveSession(id: Id, aliases: Links) returns (r: Id)
    ensures r == Follow(aliases, id, {})
  {
    r := id;
    var seen: set<Id> := {};
    while r in aliases && aliases[r] != 0 && r !in seen
      invariant Follow(aliases, r, seen) == Follow(aliases, id, {})
      decreases |aliases.Keys - seen|
    {
      assert aliases.Keys - (seen + {r}) == (aliases.Keys - seen) - {r};
      seen, r := seen + {r}, aliases[r];
    }
  }

  /** A subagent of a copied session belongs to the original. */
  function Relinked(rec: Record, aliases: Links): Record
  {
    if rec.subagent then rec.(parent := Follow(aliases, rec.parent, {})) else rec
  }

  /** The records kept, in order. */
  ghost function Originals(copies: Links, recs: seq<Record>, aliases: Links): seq<Record>
  {
    if recs == [] then []
    else
      var rec := recs[|recs| - 1];
      Originals(copies, recs[..|recs| - 1], aliases) + if IsKept(copies, rec) then [Relinked(rec, aliases)] else []
  }

  /** Kept are the subagents, and the transcripts that are no copies or own themselves; only the parent of a subagent
      is another. */
  lemma {:induction false} OriginalsAre(copies: Links, recs: seq<Record>, aliases: Links, keep: Record -> bool)
    requires forall rec: Record ::
               keep(rec) <==> rec.subagent || rec.file !in copies || IsOwner(copies, rec.file, rec.file)
    ensures |Originals(copies, recs, aliases)| == |Filter(recs, keep)|
    ensures forall i :: 0 <= i < |Filter(recs, keep)| ==>
              var rec, out := Filter(recs, keep)[i], Originals(copies, recs, aliases)[i];
              && out.file == rec.file && out.subagent == rec.subagent && out.session == rec.session
              && out.parent == if rec.subagent then Follow(aliases, rec.parent, {}) else rec.parent
  {
    if recs != [] {
      OriginalsAre(copies, recs[..|recs| - 1], aliases, keep);
    }
  }

  method Aliases(recs: seq<Record>, copies: Links) returns (owners: map<Path, Path>, aliases: Links)
    requires 0 !in copies
    ensures owners.Keys == copies.Keys && forall p :: p in owners ==> IsOwner(copies, p, owners[p])
    ensures AliasesOf(copies, recs, aliases)
  {
    owners, aliases := map[], map[];
    var left := copies.Keys;
    while left != {}
      invariant left <= copies.Keys && owners.Keys == copies.Keys - left
      invariant forall p :: p in owners ==> IsOwner(copies, p, owners[p])
      invariant forall from :: from in aliases ==> exists p :: IsAlias(copies, recs, p, from, aliases[from])
      invariant forall p, from, to :: IsAlias(copies, recs, p, from, to) && p !in left ==> from in aliases
    {
      var p :| p in left;
      var owner := Resolve(p, copies);
      owners := owners[p := owner];
      forall other | IsOwner(copies, p, other) ensures other == owner {
        OwnerUnique(copies, p, other, owner);
      }
      if p != owner {
        var from, to := SessionAt(recs, p), SessionAt(recs, owner);
        if from != 0 && to != 0 && from != to {
          assert IsAlias(copies, recs, p, from, to);
          aliases := aliases[from := to];
        }
      }
      left := left - {p};
    }
  }

  /** The list, its copies left out, in order, and the subagents of copied sessions given to the originals. */
  method ListOriginals(recs: seq<Record>, copies: Links) returns (out: seq<Record>, aliases: Links)
    requires 0 !in copies
    ensures AliasesOf(copies, recs, aliases) && out == Originals(copies, recs, aliases)
  {
    var owners: map<Path, Path>;
    owners, aliases := Aliases(recs, copies);
    out := [];
    for i := 0 to |recs|
      invariant out == Originals(copies, recs[..i], aliases)
    {
      var rec := recs[i];
      assert recs[..i + 1][..i] == recs[..i];
      if rec.file in owners && owners[rec.file] != rec.file && !rec.subagent {
        if IsOwner(copies, rec.file, rec.file) {
          OwnerUnique(copies, rec.file, rec.file, owners[rec.file]);
        }
        continue;
      }
      if rec.subagent {
        var parent := ResolveSession(rec.parent, aliases);
        rec := rec.(parent := parent);
      }
      out := out + [rec];
    }
    assert recs[..|recs|] == recs;
  }

  lemma {:induction false} KeptIsThere(copies: Links, recs: seq<Record>, aliases: Links, i: nat)
    requires i < |recs| && IsKept(copies, recs[i])
    ensures Relinked(recs[i], aliases) in Originals(copies, recs, aliases)
  {
    if i < |recs| - 1 {
      KeptIsThere(copies, recs[..|recs| - 1], aliases, i);
    }
  }

  /** Every transcript left out has its owner in the list. */
  lemma {:induction false} OwnerIsListed(copies: Links, recs: seq<Record>, aliases: Links, i: nat, owner: Path)
    requires WithinList(copies, recs) && i < |recs| && !IsKept(copies, recs[i])
    requires IsOwner(copies, recs[i].file, owner)
    ensures Listed(Originals(copies, recs, aliases), owner)
  {
    OwnerListed(copies, recs, recs[i].file, owner);
    var k :| 0 <= k < |recs| && recs[k].file == owner && !recs[k].subagent;
    assert IsKept(copies, recs[k]);
    KeptIsThere(copies, recs, aliases, k);
    var list := Originals(copies, recs, aliases);
    var n :| 0 <= n < |list| && list[n] == Relinked(recs[k], aliases);
  }

  lemma {:induction false} OwnerListed(copies: Links, recs: seq<Record>, p: Path, owner: Path)
    requires WithinList(copies, recs) && p in copies && IsOwner(copies, p, owner)
    requires !IsOwner(copies, p, p)
    ensures Listed(recs, owner) && IsOwner(copies, owner, owner)
  {
    OwnerIdempotent(copies, p, owner);
    var k: nat :| Iter(copies, p, k) == owner;
    assert k > 0;
    var before := Iter(copies, p, k - 1);
    assert before in copies && copies[before] == owner;
  }
}
