/** What a search searches as one result: a session together with the subagents that ran in it. */
module SearchUnits {
  import opened Options
  import opened Collections

  datatype Candidate = Candidate(source: nat, session: nat, parentSession: nat, subagent: bool)

  /** By their places in the selection. */
  datatype Unit = Unit(lead: nat, agents: seq<nat>)

  predicate Leads(c: Candidate, scoped: bool)
  {
    scoped || !c.subagent
  }

  /** The last of the first n candidates that leads a result of this session. */
  function Home(all: seq<Candidate>, scoped: bool, key: (nat, nat), n: nat): (at: Option<nat>)
    requires n <= |all|
    ensures at.Some? ==>
              at.value < n && Leads(all[at.value], scoped) && key == (all[at.value].source, all[at.value].session)
    ensures at.None? ==> forall k: nat :: k < n && Leads(all[k], scoped) ==> key != (all[k].source, all[k].session)
  {
    if n == 0 then None
    else if Leads(all[n - 1], scoped) && key == (all[n - 1].source, all[n - 1].session) then Some(n - 1)
    else Home(all, scoped, key, n - 1)
  }

  /** The session this candidate ran in, if that is in the selection. */
  function RanIn(all: seq<Candidate>, scoped: bool, k: nat): Option<nat>
    requires k < |all|
  {
    Home(all, scoped, (all[k].source, all[k].parentSession), |all|)
  }

  /** A candidate leads a result, or it is a subagent that stands alone, since its session is outside the
      selection, or one that ran in the session led by another. */
  datatype Part = Leader | Orphan | AgentOf(lead: nat)

  function PartOf(all: seq<Candidate>, scoped: bool, k: nat): Part
    requires k < |all|
  {
    if Leads(all[k], scoped) then Leader
    else
      match RanIn(all, scoped, k)
      case None => Orphan
      case Some(lead) => AgentOf(lead)
  }

  /** This candidate is the session that the one at k ran in. */
  predicate IsParent(all: seq<Candidate>, k: nat, lead: nat)
    requires k < |all|
  {
    && lead < |all| && !all[lead].subagent
    && all[lead].source == all[k].source && all[lead].session == all[k].parentSession
  }

  /** The three parts, told by the fields: within a scope everything leads; else a subagent belongs to the session
      it ran in, the last of several, and stands alone if there is none. */
  lemma {:induction false} PartIs(all: seq<Candidate>, scoped: bool, k: nat)
    requires k < |all|
    ensures PartOf(all, scoped, k) == Leader <==> scoped || !all[k].subagent
    ensures PartOf(all, scoped, k) == Orphan <==>
              !scoped && all[k].subagent && forall l: nat :: l < |all| ==> !IsParent(all, k, l)
    ensures forall l: nat ::
              PartOf(all, scoped, k) == AgentOf(l) <==>
                && !scoped && all[k].subagent && IsParent(all, k, l)
                && forall n: nat :: l < n < |all| ==> !IsParent(all, k, n)
  {
    var key := (all[k].source, all[k].parentSession);
    LastHome(all, scoped, key, |all|);
    forall l: nat | l < |all| && !scoped
      ensures IsParent(all, k, l) <==> Leads(all[l], scoped) && key == (all[l].source, all[l].session)
    {
    }
    if !scoped && all[k].subagent {
      var home := Home(all, scoped, key, |all|);
      assert home.Some? ==> IsParent(all, k, home.value);
    }
  }

  lemma {:induction false} LastHome(all: seq<Candidate>, scoped: bool, key: (nat, nat), n: nat)
    requires n <= |all|
    ensures Home(all, scoped, key, n).Some? ==>
              forall k: nat :: Home(all, scoped, key, n).value < k < n && Leads(all[k], scoped) ==>
                                 key != (all[k].source, all[k].session)
  {
    if n > 0 {
      LastHome(all, scoped, key, n - 1);
    }
  }

  /** Those of the first n candidates with this part, in order. */
  function Those(all: seq<Candidate>, scoped: bool, part: Part, n: nat): seq<nat>
    requires n <= |all|
  {
    if n == 0 then []
    else Those(all, scoped, part, n - 1) + if PartOf(all, scoped, n - 1) == part then [n - 1] else []
  }

  lemma {:induction false} ThoseAre(all: seq<Candidate>, scoped: bool, part: Part, n: nat)
    requires n <= |all|
    ensures forall k: nat :: k in Those(all, scoped, part, n) <==> k < n && PartOf(all, scoped, k) == part
    ensures Rising(Those(all, scoped, part, n))
  {
    if n > 0 {
      ThoseAre(all, scoped, part, n - 1);
      var before := Those(all, scoped, part, n - 1);
      forall i | 0 <= i < |before| ensures before[i] < n - 1 {
        assert before[i] in before;
      }
    }
  }

  function Leaders(all: seq<Candidate>, scoped: bool): seq<nat>
  {
    Those(all, scoped, Leader, |all|)
  }

  /** The results when the first n candidates have been placed. */
  function UnitsUpTo(all: seq<Candidate>, scoped: bool, n: nat): seq<Unit>
    requires n <= |all|
  {
    var leaders := Leaders(all, scoped);
    seq(|leaders|, u requires 0 <= u < |leaders| => Unit(leaders[u], Those(all, scoped, AgentOf(leaders[u]), n)))
    + Bare(Those(all, scoped, Orphan, n))
  }

  function Bare(leads: seq<nat>): seq<Unit>
  {
    seq(|leads|, u requires 0 <= u < |leads| => Unit(leads[u], []))
  }

  function Shown(u: Unit): seq<nat>
  {
    [u.lead] + u.agents
  }

  /** What is in a result: the session that leads it and the subagents that ran in it, or a subagent alone. */
  lemma {:induction false} InUnit(all: seq<Candidate>, scoped: bool, v: nat)
    requires v < |UnitsUpTo(all, scoped, |all|)|
    ensures
      var unit := UnitsUpTo(all, scoped, |all|)[v];
      && unit.lead < |all| && Rising(unit.agents)
      && PartOf(all, scoped, unit.lead) == (if v < |Leaders(all, scoped)| then Leader else Orphan)
      && forall k: nat :: k in unit.agents <==> k < |all| && PartOf(all, scoped, k) == AgentOf(unit.lead)
  {
    var leaders, orphans := Leaders(all, scoped), Those(all, scoped, Orphan, |all|);
    ThoseAre(all, scoped, Leader, |all|);
    ThoseAre(all, scoped, Orphan, |all|);
    if v < |leaders| {
      ThoseAre(all, scoped, AgentOf(leaders[v]), |all|);
      assert leaders[v] in leaders;
    } else {
      assert orphans[v - |leaders|] in orphans;
      forall k: nat | k < |all| ensures PartOf(all, scoped, k) != AgentOf(orphans[v - |leaders|]) {
      }
    }
  }

  lemma {:induction false} LeadsDiffer(all: seq<Candidate>, scoped: bool, u: nat, v: nat)
    requires u < v < |UnitsUpTo(all, scoped, |all|)|
    ensures UnitsUpTo(all, scoped, |all|)[u].lead != UnitsUpTo(all, scoped, |all|)[v].lead
  {
    InUnit(all, scoped, u);
    InUnit(all, scoped, v);
    ThoseAre(all, scoped, Leader, |all|);
    ThoseAre(all, scoped, Orphan, |all|);
  }

  lemma {:induction false} LeadAt(all: seq<Candidate>, scoped: bool, part: Part, lead: nat) returns (i: nat)
    requires lead < |all| && PartOf(all, scoped, lead) == part
    ensures i < |Those(all, scoped, part, |all|)| && Those(all, scoped, part, |all|)[i] == lead
  {
    ThoseAre(all, scoped, part, |all|);
    i :| 0 <= i < |Those(all, scoped, part, |all|)| && Those(all, scoped, part, |all|)[i] == lead;
  }

  /** Every candidate is in a result. */
  lemma {:induction false} EachInOne(all: seq<Candidate>, scoped: bool, k: nat) returns (u: nat)
    requires k < |all|
    ensures u < |UnitsUpTo(all, scoped, |all|)| && k in Shown(UnitsUpTo(all, scoped, |all|)[u])
  {
    var part := PartOf(all, scoped, k);
    if part == Orphan {
      var o := LeadAt(all, scoped, Orphan, k);
      u := |Leaders(all, scoped)| + o;
    } else {
      var lead := if part == Leader then k else part.lead;
      u := LeadAt(all, scoped, Leader, lead);
      InUnit(all, scoped, u);
    }
  }

  /** And in no second one, nor twice in the same. */
  lemma {:induction false} InNoOther(all: seq<Candidate>, scoped: bool, k: nat, u: nat, v: nat)
    requires u < |UnitsUpTo(all, scoped, |all|)| && v < |UnitsUpTo(all, scoped, |all|)|
    requires k in Shown(UnitsUpTo(all, scoped, |all|)[u]) && k in Shown(UnitsUpTo(all, scoped, |all|)[v])
    ensures u == v
    ensures var unit := UnitsUpTo(all, scoped, |all|)[u]; unit.lead !in unit.agents && Rising(unit.agents)
  {
    InUnit(all, scoped, u);
    InUnit(all, scoped, v);
    if u != v {
      LeadsDiffer(all, scoped, if u < v then u else v, if u < v then v else u);
    }
  }

  ghost predicate Leading(all: seq<Candidate>, scoped: bool, n: nat, lead: map<(nat, nat), nat>)
    requires n <= |all|
  {
    forall key: (nat, nat) ::
      match Home(all, scoped, key, n)
      case None => key !in lead
      case Some(at) =>
        var leaders := Those(all, scoped, Leader, n);
        key in lead && lead[key] < |leaders| && leaders[lead[key]] == at
  }

  lemma {:induction false} AgentsGrow(all: seq<Candidate>, scoped: bool, n: nat, i: nat, u: nat)
    requires n < |all| && i < |Leaders(all, scoped)| && u < |Leaders(all, scoped)|
    requires PartOf(all, scoped, n) == AgentOf(Leaders(all, scoped)[i])
    ensures
      var part := AgentOf(Leaders(all, scoped)[u]);
      Those(all, scoped, part, n + 1) == Those(all, scoped, part, n) + if u == i then [n] else []
  {
    ThoseAre(all, scoped, Leader, |all|);
  }

  lemma {:induction false} AgentJoins(all: seq<Candidate>, scoped: bool, n: nat, i: nat)
    requires n < |all| && i < |Leaders(all, scoped)|
    requires PartOf(all, scoped, n) == AgentOf(Leaders(all, scoped)[i])
    ensures
      var units := UnitsUpTo(all, scoped, n);
      i < |units| && UnitsUpTo(all, scoped, n + 1) == units[i := Unit(units[i].lead, units[i].agents + [n])]
  {
    var units, more := UnitsUpTo(all, scoped, n), UnitsUpTo(all, scoped, n + 1);
    assert Those(all, scoped, Orphan, n + 1) == Those(all, scoped, Orphan, n);
    forall u | 0 <= u < |units|
      ensures more[u] == if u == i then Unit(units[i].lead, units[i].agents + [n]) else units[u]
    {
      if u < |Leaders(all, scoped)| {
        AgentsGrow(all, scoped, n, i, u);
      }
    }
  }

  /** One that leads, or that stands alone. */
  lemma {:induction false} NotAnAgent(all: seq<Candidate>, scoped: bool, n: nat)
    requires n < |all| && !PartOf(all, scoped, n).AgentOf?
    ensures UnitsUpTo(all, scoped, n + 1)
         == UnitsUpTo(all, scoped, n) + if Leads(all[n], scoped) then [] else [Unit(n, [])]
  {
    var leaders := Leaders(all, scoped);
    forall u | 0 <= u < |leaders|
      ensures Those(all, scoped, AgentOf(leaders[u]), n + 1) == Those(all, scoped, AgentOf(leaders[u]), n)
    {
    }
  }

  method FindLeaders(all: seq<Candidate>, scoped: bool) returns (units: seq<Unit>, lead: map<(nat, nat), nat>)
    ensures units == Bare(Leaders(all, scoped)) && Leading(all, scoped, |all|, lead)
  {
    units, lead := [], map[];
    for n := 0 to |all|
      invariant units == Bare(Those(all, scoped, Leader, n))
      invariant Leading(all, scoped, n, lead)
    {
      if Leads(all[n], scoped) {
        lead := lead[(all[n].source, all[n].session) := |units|];
        units := units + [Unit(n, [])];
      }
    }
  }

  /** Each session's result, with the subagents that ran in it, and then the subagents that stand alone. */
  method GroupUnits(all: seq<Candidate>, scoped: bool) returns (units: seq<Unit>)
    ensures units == UnitsUpTo(all, scoped, |all|)
  {
    var lead: map<(nat, nat), nat>;
    units, lead := FindLeaders(all, scoped);
    assert units == UnitsUpTo(all, scoped, 0);
    for n := 0 to |all|
      invariant units == UnitsUpTo(all, scoped, n)
    {
      var key := (all[n].source, all[n].parentSession);
      if Leads(all[n], scoped) {
        NotAnAgent(all, scoped, n);
      } else if key in lead {
        var i := lead[key];
        AgentJoins(all, scoped, n, i);
        units := units[i := Unit(units[i].lead, units[i].agents + [n])];
      } else {
        NotAnAgent(all, scoped, n);
        units := units + [Unit(n, [])];
      }
    }
  }
}
