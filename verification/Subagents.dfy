/** Subagents by their parent links: who descends from whom, and how deep each one sits. */
module Subagents {
  import opened Orbits
  import opened Options

  type Id = nat   // 0 is the empty id

  /** Unbounded descent along parent links, to the agent named. */
  ghost predicate Descends(agents: Links, parent: Id, agent: Id)
  {
    agent != 0 && Reaches(agents, parent, agent)
  }

  /** descendsFrom: the walk gives up after one hop more than there are agents. That is enough: it
      decides unbounded descent, cycles or not. */
  method DescendsFrom(parent: Id, agent: Id, agents: Links) returns (yes: bool)
    ensures yes <==> Descends(agents, parent, agent)
  {
    var p, hops := parent, 0;
    while p != 0 && hops <= |agents|
      invariant hops <= |agents| + 1
      invariant p == Iter(agents, parent, hops)
      invariant forall k: nat :: k < hops ==> Iter(agents, parent, k) != agent
      decreases |agents| + 1 - hops
    {
      if p == agent {
        return true;
      }
      if p !in agents {
        NotBeyond(agents, parent, agent, hops + 1);
        return false;
      }
      p := agents[p];
      hops := hops + 1;
    }
    NotBeyond(agents, parent, agent, hops);
    return false;
  }

  /** Where a walk has ended, or gone on for longer than the map is, there is nothing new to find. */
  lemma {:induction false} NotBeyond(agents: Links, parent: Id, agent: Id, hops: nat)
    requires forall k: nat :: k < hops ==> Iter(agents, parent, k) != agent
    requires Iter(agents, parent, hops) == 0 || hops > |agents|
    ensures !Descends(agents, parent, agent)
  {
    assert |agents| == |agents.Keys|;
    if Descends(agents, parent, agent) {
      var k: nat :| Iter(agents, parent, k) == agent;
      var j := ReachedSoon(agents, parent, k);
      if Iter(agents, parent, hops) == 0 {
        EndStays(agents, parent, hops, if j < hops then hops else j);
      }
    }
  }

  datatype Record = Record(subagent: bool, session: Id, parentSession: Id, parentAgent: Id)

  /** The index of the agent of this id that ran in this session; of several, the last listed. */
  function AgentAt(recs: seq<Record>, parentSession: Id, id: Id): (j: Option<nat>)
    ensures j.Some? ==> j.value < |recs|
  {
    if recs == [] then None
    else
      var last := recs[|recs| - 1];
      if last.subagent && last.parentSession == parentSession && last.session == id then Some(|recs| - 1)
      else AgentAt(recs[..|recs| - 1], parentSession, id)
  }

  /** This is the parent that the agent at i names: a subagent of the same session. */
  predicate NamesParent(recs: seq<Record>, i: nat, j: nat)
    requires i < |recs|
  {
    && j < |recs| && recs[j].subagent && recs[i].parentAgent != 0
    && recs[j].parentSession == recs[i].parentSession && recs[j].session == recs[i].parentAgent
  }

  lemma {:induction false} AgentAtIs(recs: seq<Record>, parentSession: Id, id: Id)
    ensures forall j: nat | j < |recs| && recs[j].subagent && recs[j].session == id ::
              recs[j].parentSession == parentSession ==>
                AgentAt(recs, parentSession, id).Some? && j <= AgentAt(recs, parentSession, id).value
    ensures AgentAt(recs, parentSession, id).Some? ==>
              var r := recs[AgentAt(recs, parentSession, id).value];
              r.subagent && r.parentSession == parentSession && r.session == id
  {
    if recs != [] {
      AgentAtIs(recs[..|recs| - 1], parentSession, id);
    }
  }

  /** A parent is the last subagent listed that is the one named. */
  lemma {:induction false} ParentIs(recs: seq<Record>, i: nat)
    requires i < |recs|
    ensures ParentOf(recs, i).None? <==> forall j: nat :: !NamesParent(recs, i, j)
    ensures ParentOf(recs, i).Some? ==>
              && NamesParent(recs, i, ParentOf(recs, i).value)
              && forall j: nat :: NamesParent(recs, i, j) ==> j <= ParentOf(recs, i).value
  {
    AgentAtIs(recs, recs[i].parentSession, recs[i].parentAgent);
    if ParentOf(recs, i).Some? {
      assert NamesParent(recs, i, ParentOf(recs, i).value);
    }
  }

  function ParentOf(recs: seq<Record>, i: nat): (j: Option<nat>)
    requires i < |recs|
    ensures j.Some? ==> j.value < |recs|
  {
    if recs[i].parentAgent == 0 then None else AgentAt(recs, recs[i].parentSession, recs[i].parentAgent)
  }

  /** The parent links by position, counted from 1. */
  function ParentLinks(recs: seq<Record>): Links
  {
    map i: nat | 0 <= i < |recs| && ParentOf(recs, i).Some? :: i + 1 := ParentOf(recs, i).value + 1
  }

  /** One more than the hops to the top, as far as the bound lets the walk go. */
  function Depth(m: Links, x: nat, bound: nat): nat
    decreases bound
  {
    if bound == 0 || Up(m, x) == 0 then 1 else 1 + Depth(m, Up(m, x), bound - 1)
  }

  /** The chain of parents from here comes to an end. */
  ghost predicate Ends(m: Links, x: nat)
  {
    Reaches(m, x, 0)
  }

  lemma {:induction false} EndsStep(m: Links, x: nat)
    requires x != 0
    ensures Ends(m, x) <==> Ends(m, Up(m, x))
  {
    assert Iter(m, x, 1) == Up(m, x);
    if Ends(m, x) {
      var k: nat :| Iter(m, x, k) == 0;
      IterAdds(m, x, 1, k - 1);
    }
    if Ends(m, Up(m, x)) {
      var k: nat :| Iter(m, Up(m, x), k) == 0;
      IterAdds(m, x, 1, k);
    }
  }

  /** A walk that the bound stops has made every hop it may. */
  lemma {:induction false} DepthHops(m: Links, x: nat, bound: nat)
    requires x != 0
    ensures Depth(m, x, bound) >= 1
    ensures Iter(m, x, Depth(m, x, bound) - 1) != 0
    ensures Depth(m, x, bound) <= bound + 1
    ensures Depth(m, x, bound) <= bound ==> Iter(m, x, Depth(m, x, bound)) == 0
    decreases bound
  {
    var up := Up(m, x);
    assert Iter(m, x, 0) == x && Iter(m, x, 1) == up;
    if bound > 0 && up != 0 {
      DepthHops(m, up, bound - 1);
      var d := Depth(m, up, bound - 1);
      IterAdds(m, x, 1, d - 1);
      IterAdds(m, x, 1, d);
    }
  }

  /** With room for as many hops as there are links, only a chain without end uses it all up. */
  lemma {:induction false} BoundNeverCuts(m: Links, x: nat, bound: nat)
    requires x != 0 && bound >= |m.Keys|
    ensures Ends(m, x) <==> Iter(m, x, Depth(m, x, bound)) == 0
    ensures !Ends(m, x) ==> Depth(m, x, bound) == bound + 1
  {
    DepthHops(m, x, bound);
    var d := Depth(m, x, bound);
    if Ends(m, x) && Iter(m, x, d) != 0 {
      if a, b :| 0 <= a < b < d && Iter(m, x, a) == Iter(m, x, b) {
        var k: nat :| Iter(m, x, k) == 0;
        var c := Iter(m, x, a);
        if c == 0 {
          EndStays(m, x, a, d);
        }
        IterAdds(m, x, a, b - a);
        RoundForEver(m, c, b - a, k);
        IterAdds(m, x, a, k);
        EndStays(m, x, k, a + k);
      } else {
        WalkFits(m, x, d);
      }
    }
  }

  /** A walk that has come back to where it was never ends. */
  lemma {:induction false} RoundForEver(m: Links, c: nat, around: nat, t: nat)
    requires around > 0 && Iter(m, c, around) == c != 0
    ensures Iter(m, c, t) != 0
    decreases t
  {
    if t < around {
      if Iter(m, c, t) == 0 {
        EndStays(m, c, t, around);
      }
    } else {
      IterAdds(m, c, around, t - around);
      RoundForEver(m, c, around, t - around);
    }
  }

  /** Each agent sits one below its parent exactly when its chain of parents ends; the bound never
      shortens such a chain. */
  lemma {:induction false} DepthBelowParent(m: Links, x: nat, bound: nat)
    requires x != 0 && Up(m, x) != 0 && bound >= |m.Keys|
    ensures Depth(m, x, bound) == Depth(m, Up(m, x), bound) + 1 <==> Ends(m, x)
  {
    var up := Up(m, x);
    BoundNeverCuts(m, x, bound);
    BoundNeverCuts(m, up, bound);
    EndsStep(m, x);
    DepthHops(m, x, bound);
    DepthHops(m, up, bound);
    assert Iter(m, x, 1) == up;
    if Ends(m, x) {
      var d, e := Depth(m, x, bound), Depth(m, up, bound);
      IterAdds(m, x, 1, e);
      IterAdds(m, x, 1, e - 1);
      if d < e + 1 {
        EndStays(m, x, d, e);
      } else if d > e + 1 {
        EndStays(m, x, e + 1, d - 1);
      }
    }
  }

  lemma {:induction false} LinksFit(recs: seq<Record>)
    ensures |ParentLinks(recs).Keys| <= |recs|
  {
    Fits(ParentLinks(recs).Keys, |recs|);
  }

  lemma {:induction false} Fits(s: set<nat>, n: nat)
    requires forall x :: x in s ==> 1 <= x <= n
    ensures |s| <= n
  {
    if n > 0 {
      Fits(s - {n}, n - 1);
    }
  }

  /** What AgentAt finds is what the index holds. */
  ghost predicate Finds(recs: seq<Record>, agents: map<(Id, Id), nat>)
  {
    forall s: Id, id: Id :: AgentAt(recs, s, id) == if (s, id) in agents then Some(agents[(s, id)]) else None
  }

  function DepthFrom(recs: seq<Record>, at: nat, bound: nat): nat
  {
    Depth(ParentLinks(recs), at + 1, bound)
  }

  /** What the loop's bound leaves true: an agent with no present parent is at depth one, and one with
      a present parent sits one below it exactly when its chain of parents comes to an end. */
  lemma {:induction false} OneBelowItsParent(recs: seq<Record>, i: nat)
    requires i < |recs| && recs[i].subagent
    ensures ParentOf(recs, i).None? ==> DepthFrom(recs, i, |recs|) == 1
    ensures ParentOf(recs, i).Some? ==>
              (DepthFrom(recs, i, |recs|) == DepthFrom(recs, ParentOf(recs, i).value, |recs|) + 1
               <==> Ends(ParentLinks(recs), i + 1))
  {
    LinkOf(recs, i);
    if ParentOf(recs, i).Some? {
      LinksFit(recs);
      DepthBelowParent(ParentLinks(recs), i + 1, |recs|);
    }
  }

  lemma {:induction false} LinkOf(recs: seq<Record>, i: nat)
    requires i < |recs|
    ensures Up(ParentLinks(recs), i + 1) == if ParentOf(recs, i).Some? then ParentOf(recs, i).value + 1 else 0
  {
  }

  /** How many subagents ran in this session. */
  function RanIn(recs: seq<Record>, session: Id): nat
  {
    if recs == [] then 0
    else
      var last := recs[|recs| - 1];
      RanIn(recs[..|recs| - 1], session) + if last.subagent && last.parentSession == session then 1 else 0
  }

  /** The subagents counted, by their places. */
  lemma {:induction false} RanInIs(recs: seq<Record>, session: Id, agents: set<nat>)
    requires forall i: nat :: i in agents <==> i < |recs| && recs[i].subagent && recs[i].parentSession == session
    ensures RanIn(recs, session) == |agents|
  {
    if recs == [] {
      assert agents == {};
    } else {
      var n := |recs| - 1;
      RanInIs(recs[..n], session, agents - {n});
      assert |agents| == |agents - {n}| + if n in agents then 1 else 0;
    }
  }

  ghost predicate Indexed(recs: seq<Record>, agents: map<(Id, Id), nat>, children: map<Id, nat>)
  {
    && Finds(recs, agents)
    && (forall s: Id :: RanIn(recs, s) == if s in children then children[s] else 0)
  }

  method Index(recs: seq<Record>) returns (agents: map<(Id, Id), nat>, children: map<Id, nat>)
    ensures Indexed(recs, agents, children)
  {
    agents, children := map[], map[];
    for i := 0 to |recs|
      invariant Indexed(recs[..i], agents, children)
    {
      assert recs[..i + 1][..i] == recs[..i];
      var r := recs[i];
      if r.subagent {
        agents := agents[(r.parentSession, r.session) := i];
        children := children[r.parentSession :=
                               1 + if r.parentSession in children then children[r.parentSession] else 0];
      }
    }
    assert recs[..|recs|] == recs;
  }

  lemma {:induction false} OneHop(m: Links, x: nat, bound: nat)
    ensures Depth(m, x, bound) == if bound == 0 || Up(m, x) == 0 then 1 else 1 + Depth(m, Up(m, x), bound - 1)
  {
  }

  lemma {:induction false} DepthUp(recs: seq<Record>, at: nat, bound: nat)
    requires at < |recs|
    ensures
      DepthFrom(recs, at, bound)
   == if bound == 0 || ParentOf(recs, at).None? then 1 else 1 + DepthFrom(recs, ParentOf(recs, at).value, bound - 1)
  {
    LinkOf(recs, at);
    OneHop(ParentLinks(recs), at + 1, bound);
  }

  lemma {:induction false} DepthStep(recs: seq<Record>, agents: map<(Id, Id), nat>, at: nat, bound: nat)
    requires at < |recs| && Finds(recs, agents)
    ensures
      var key := (recs[at].parentSession, recs[at].parentAgent);
      if recs[at].parentAgent == 0 || bound == 0 || key !in agents then DepthFrom(recs, at, bound) == 1
      else agents[key] < |recs| && DepthFrom(recs, at, bound) == 1 + DepthFrom(recs, agents[key], bound - 1)
  {
    DepthUp(recs, at, bound);
    var found := AgentAt(recs, recs[at].parentSession, recs[at].parentAgent);
    assert recs[at].parentAgent != 0 ==> ParentOf(recs, at) == found;
  }

  method AgentDepth(recs: seq<Record>, agents: map<(Id, Id), nat>, i: nat) returns (depth: nat)
    requires i < |recs| && Finds(recs, agents)
    ensures depth == DepthFrom(recs, i, |recs|)
  {
    depth := 1;
    var at, hops := i, 0;
    while recs[at].parentAgent != 0 && hops < |recs|
      invariant 0 <= at < |recs| && 0 <= hops <= |recs|
      invariant depth + DepthFrom(recs, at, |recs| - hops) == DepthFrom(recs, i, |recs|) + 1
      decreases |recs| - hops
    {
      var key := (recs[at].parentSession, recs[at].parentAgent);
      DepthStep(recs, agents, at, |recs| - hops);
      if key !in agents {
        return;
      }
      depth, at, hops := depth + 1, agents[key], hops + 1;
    }
    DepthStep(recs, agents, at, |recs| - hops);
  }

  datatype Family = Family(depth: nat, subagents: nat)

  function FamilyOf(recs: seq<Record>, i: nat): Family
    requires i < |recs|
  {
    if recs[i].subagent then Family(DepthFrom(recs, i, |recs|), 0) else Family(0, RanIn(recs, recs[i].session))
  }

  /** claudeLinkSubagents: each subagent's depth, and how many subagents ran in each other session. */
  method LinkSubagents(recs: seq<Record>) returns (out: seq<Family>)
    ensures |out| == |recs| && forall i :: 0 <= i < |recs| ==> out[i] == FamilyOf(recs, i)
    ensures forall i :: 0 <= i < |recs| ==>
              if recs[i].subagent then out[i].subagents == 0 && out[i].depth == DepthFrom(recs, i, |recs|)
              else out[i].depth == 0 && out[i].subagents == RanIn(recs, recs[i].session)
  {
    var agents, children := Index(recs);
    out := [];
    for i := 0 to |recs|
      invariant |out| == i && forall k :: 0 <= k < i ==> out[k] == FamilyOf(recs, k)
    {
      var family := Relate(recs, agents, children, i);
      out := out + [family];
    }
  }

  method Relate(recs: seq<Record>, agents: map<(Id, Id), nat>, children: map<Id, nat>, i: nat)
    returns (family: Family)
    requires i < |recs| && Indexed(recs, agents, children)
    ensures family == FamilyOf(recs, i)
  {
    var r := recs[i];
    if r.subagent {
      var depth := AgentDepth(recs, agents, i);
      return Family(depth, 0);
    }
    return Family(0, if r.session in children then children[r.session] else 0);
  }
}
