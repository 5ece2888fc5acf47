/** What a search page holds, given the hits each transcript's scan left behind. */
module SearchPage {
  import opened Collections

  type Hit = nat

  /** By session, then by transcript: the session's own first, its subagents' after it. */
  type Hits = seq<seq<seq<Hit>>>

  datatype Job = Job(unit: nat, member: nat)

  predicate Before(a: Job, b: Job)
  {
    a.unit < b.unit || (a.unit == b.unit && a.member < b.member)
  }

  predicate IsJob(h: Hits, j: Job)
  {
    j.unit < |h| && j.member < |h[j.unit]|
  }

  function HitsOf(h: Hits, j: Job): seq<Hit>
    requires IsJob(h, j)
  {
    h[j.unit][j.member]
  }

  function JobsOf(unit: nat, members: nat): seq<Job>
  {
    if members == 0 then [] else JobsOf(unit, members - 1) + [Job(unit, members - 1)]
  }

  /** The jobs of the first n sessions, in the order they are handed out. */
  function Order(h: Hits, n: nat): seq<Job>
    requires n <= |h|
  {
    if n == 0 then [] else Order(h, n - 1) + JobsOf(n - 1, |h[n - 1]|)
  }

  ghost predicate Ascending(jobs: seq<Job>)
  {
    forall i, j :: 0 <= i < j < |jobs| ==> Before(jobs[i], jobs[j])
  }

  lemma {:induction false} JobsOfAre(unit: nat, members: nat)
    ensures |JobsOf(unit, members)| == members
    ensures forall i :: 0 <= i < members ==> JobsOf(unit, members)[i] == Job(unit, i)
  {
    if members > 0 {
      JobsOfAre(unit, members - 1);
    }
  }

  /** Every transcript is a job, once, and the jobs go in order. */
  lemma {:induction false} OrderIsAll(h: Hits, n: nat)
    requires n <= |h|
    ensures Ascending(Order(h, n))
    ensures forall j :: j in Order(h, n) <==> IsJob(h, j) && j.unit < n
  {
    if n > 0 {
      OrderIsAll(h, n - 1);
      OrderGrows(h, n, Order(h, n - 1), JobsOf(n - 1, |h[n - 1]|));
    }
  }

  lemma {:induction false} OrderGrows(h: Hits, n: nat, a: seq<Job>, b: seq<Job>)
    requires 0 < n <= |h| && b == JobsOf(n - 1, |h[n - 1]|)
    requires Ascending(a) && forall j :: j in a <==> IsJob(h, j) && j.unit < n - 1
    ensures Ascending(a + b)
    ensures forall j :: j in a + b <==> IsJob(h, j) && j.unit < n
  {
    JobsOfAre(n - 1, |h[n - 1]|);
    AppendAscending(a, b);
    forall j | j in b ensures IsJob(h, j) && j.unit == n - 1 {
    }
    forall j | IsJob(h, j) && j.unit == n - 1 ensures j in b {
      assert b[j.member] == j;
    }
  }

  lemma {:induction false} AppendAscending(a: seq<Job>, b: seq<Job>)
    requires Ascending(a) && Ascending(b)
    requires forall x, y :: x in a && y in b ==> Before(x, y)
    ensures Ascending(a + b)
  {
    var c := a + b;
    forall i, j | 0 <= i < j < |c| ensures Before(c[i], c[j]) {
      if i < |a| <= j {
        assert a[i] in a && b[j - |a|] in b;
      }
    }
  }

  /** The nested loops that build it. */
  method BuildOrder(members: seq<nat>, h: Hits) returns (order: seq<Job>)
    requires |members| == |h| && forall u :: 0 <= u < |h| ==> members[u] == |h[u]|
    ensures order == Order(h, |h|)
  {
    order := [];
    for u := 0 to |members|
      invariant order == Order(h, u)
    {
      for m := 0 to members[u]
        invariant order == Order(h, u) + JobsOf(u, m)
      {
        order := order + [Job(u, m)];
      }
    }
  }

  // The page

  function Joined(parts: seq<seq<Hit>>): seq<Hit>
  {
    if parts == [] then [] else Joined(parts[..|parts| - 1]) + parts[|parts| - 1]
  }

  /** Which of the first n sessions have a hit. */
  function Matching(h: Hits, n: nat): (units: seq<nat>)
    requires n <= |h|
    ensures forall i :: 0 <= i < |units| ==> units[i] < n
  {
    if n == 0 then []
    else Matching(h, n - 1) + if Joined(h[n - 1]) == [] then [] else [n - 1]
  }

  function Cut<T>(s: seq<T>, most: int): seq<T>
  {
    if most < 0 then [] else if |s| <= most then s else s[..most]
  }

  datatype Item = Item(unit: nat, matches: seq<Hit>)

  function ItemOf(h: Hits, unit: nat, perSession: nat): Item
    requires unit < |h|
  {
    Item(unit, Cut(Joined(h[unit]), perSession))
  }

  function Items(h: Hits, units: seq<nat>, perSession: nat): (items: seq<Item>)
    requires forall i :: 0 <= i < |units| ==> units[i] < |h|
    ensures |items| == |units|
    ensures forall i :: 0 <= i < |units| ==> items[i] == ItemOf(h, units[i], perSession)
  {
    seq(|units|, i requires 0 <= i < |units| => ItemOf(h, units[i], perSession))
  }

  predicate Over(h: Hits, units: seq<nat>, perSession: nat)
    requires forall i :: 0 <= i < |units| ==> units[i] < |h|
  {
    exists i :: 0 <= i < |units| && |Joined(h[units[i]])| > perSession
  }

  datatype Page = Page(results: seq<Item>, matched: nat, hitsCut: bool, sessionsCut: bool)

  function PageOf(h: Hits, limit: int, perSession: nat, scanStopped: bool): Page
  {
    var all := Matching(h, |h|);
    var shown := Cut(all, limit);
    Page(Items(h, shown, perSession), |all|, Over(h, shown, perSession), |all| > |shown| || scanStopped)
  }

  ghost predicate SoFar(h: Hits, i: nat, limit: int, perSession: nat, results: seq<Item>, matched: nat, hitsCut: bool)
  {
    && i <= |h| && matched == |Matching(h, i)|
    && results == Items(h, Cut(Matching(h, i), limit), perSession)
    && hitsCut == Over(h, Cut(Matching(h, i), limit), perSession)
  }

  /** Assembling the page, session by session. */
  method Assemble(h: Hits, limit: int, perSession: nat, scanStopped: bool) returns (page: Page)
    ensures page == PageOf(h, limit, perSession, scanStopped)
  {
    var results: seq<Item>, matched, hitsCut := [], 0, false;
    for i := 0 to |h|
      invariant SoFar(h, i, limit, perSession, results, matched, hitsCut)
    {
      var matches := Collect(h[i]);
      if |matches| == 0 {
        ShownSkips(h, i, limit, perSession, results, matched, hitsCut);
        continue;
      }
      ShownNext(h, i, limit, perSession, results, matched, hitsCut);
      matched := matched + 1;
      if |results| >= limit {
        continue;
      }
      if |matches| > perSession {
        matches := matches[..perSession];
        hitsCut := true;
      }
      results := results + [Item(i, matches)];
    }
    ShownAll(h, limit, perSession, results, matched, hitsCut, scanStopped);
    page := Page(results, matched, hitsCut, matched > |results| || scanStopped);
  }

  lemma {:induction false} ShownSkips(h: Hits, i: nat, limit: int, perSession: nat, results: seq<Item>, matched: nat,
                                      hitsCut: bool)
    requires i < |h| && Joined(h[i]) == []
    requires SoFar(h, i, limit, perSession, results, matched, hitsCut)
    ensures SoFar(h, i + 1, limit, perSession, results, matched, hitsCut)
  {
    assert Matching(h, i + 1) == Matching(h, i);
  }

  lemma {:induction false} ShownAll(h: Hits, limit: int, perSession: nat, results: seq<Item>, matched: nat,
                                    hitsCut: bool, scanStopped: bool)
    requires SoFar(h, |h|, limit, perSession, results, matched, hitsCut)
    ensures Page(results, matched, hitsCut, matched > |results| || scanStopped)
         == PageOf(h, limit, perSession, scanStopped)
  {
  }

  method Collect(parts: seq<seq<Hit>>) returns (matches: seq<Hit>)
    ensures matches == Joined(parts)
  {
    matches := [];
    for p := 0 to |parts|
      invariant matches == Joined(parts[..p])
    {
      assert parts[..p + 1][..p] == parts[..p];
      matches := matches + parts[p];
    }
    assert parts[..|parts|] == parts;
  }

  /** One more session that matched: it goes on the page while there is room. */
  lemma {:induction false} ShownNext(h: Hits, i: nat, limit: int, perSession: nat, results: seq<Item>, matched: nat,
                                     hitsCut: bool)
    requires i < |h| && Joined(h[i]) != []
    requires SoFar(h, i, limit, perSession, results, matched, hitsCut)
    ensures |results| >= limit ==> SoFar(h, i + 1, limit, perSession, results, matched + 1, hitsCut)
    ensures |results| < limit ==>
              SoFar(h, i + 1, limit, perSession, results + [ItemOf(h, i, perSession)], matched + 1,
                    hitsCut || |Joined(h[i])| > perSession)
  {
    var was, now := Cut(Matching(h, i), limit), Cut(Matching(h, i + 1), limit);
    if |was| < limit {
      assert now == was + [i];
      if |Joined(h[i])| > perSession {
        assert now[|was|] == i;
      }
      if k :| 0 <= k < |was| && |Joined(h[was[k]])| > perSession {
        assert now[k] == was[k];
      }
    } else {
      assert now == was;
    }
  }

  lemma {:induction false} MatchingHas(h: Hits, n: nat, u: nat)
    requires n <= |h|
    ensures u in Matching(h, n) <==> u < n && Joined(h[u]) != []
  {
    if n > 0 {
      MatchingHas(h, n - 1, u);
      assert Matching(h, n) == Matching(h, n - 1) || Matching(h, n) == Matching(h, n - 1) + [n - 1];
    }
  }

  lemma {:induction false} MatchingRises(h: Hits, n: nat)
    requires n <= |h|
    ensures Rising(Matching(h, n))
  {
    if n > 0 {
      MatchingRises(h, n - 1);
      RisingOn(Matching(h, n - 1), n - 1);
    }
  }

  lemma {:induction false} CutAt(all: seq<nat>, limit: nat, k: nat)
    requires k < |all|
    ensures k < limit ==> all[k] in Cut(all, limit)
  {
    if k < limit {
      assert Cut(all, limit)[k] == all[k];
    }
  }

  function UnitsOf(items: seq<Item>): seq<nat>
  {
    seq(|items|, i requires 0 <= i < |items| => items[i].unit)
  }

  /** The first of them, as many as were asked for: what was left out comes after all of those. */
  lemma {:induction false} CutIsFirst(all: seq<nat>, limit: nat, u: nat)
    requires Rising(all)
    ensures Rising(Cut(all, limit)) && |Cut(all, limit)| == if |all| < limit then |all| else limit
    ensures u in Cut(all, limit) ==> u in all
    ensures u in all && u !in Cut(all, limit) ==>
              |Cut(all, limit)| == limit && forall i :: 0 <= i < limit ==> Cut(all, limit)[i] < u
  {
    var shown := Cut(all, limit);
    if u in all && u !in shown {
      var k :| 0 <= k < |all| && all[k] == u;
      CutAt(all, limit, k);
    }
  }

  /** The page holds the first of the sessions with a hit, as many as were asked for, in order; a session
      with a hit that is not on it comes after all of them. */
  lemma {:induction false} PageIsFirst(h: Hits, limit: nat, perSession: nat, scanStopped: bool, u: nat)
    requires u < |h|
    ensures
      var page := PageOf(h, limit, perSession, scanStopped);
      var units := UnitsOf(page.results);
      && |units| == (if page.matched < limit then page.matched else limit)
      && Rising(units)
      && (u in units ==> Joined(h[u]) != [])
      && (Joined(h[u]) != [] && u !in units ==> |units| == limit && forall i :: 0 <= i < limit ==> units[i] < u)
  {
    var shown := Cut(Matching(h, |h|), limit);
    MatchingHas(h, |h|, u);
    MatchingRises(h, |h|);
    CutIsFirst(Matching(h, |h|), limit, u);
    assert UnitsOf(Items(h, shown, perSession)) == shown;
  }

  /** The hits of a session are those of each of its transcripts, in their order. */
  lemma {:induction false} JoinedIs(parts: seq<seq<Hit>>, m: nat)
    requires m < |parts|
    ensures Joined(parts) == Joined(parts[..m]) + parts[m] + Joined(parts[m + 1..])
  {
    var n := |parts| - 1;
    if m < n {
      JoinedIs(parts[..n], m);
      JoinedLast(parts, m + 1);
    } else {
      assert parts[m + 1..] == [];
    }
  }

  lemma {:induction false} JoinedLast(parts: seq<seq<Hit>>, from: nat)
    requires from < |parts|
    ensures Joined(parts[from..]) == Joined(parts[..|parts| - 1][from..]) + parts[|parts| - 1]
    ensures from > 0 ==> parts[..|parts| - 1][..from - 1] == parts[..from - 1]
  {
    var rest := parts[from..];
    assert rest[..|rest| - 1] == parts[..|parts| - 1][from..];
  }

  /** What the page shows of each session on it, and what it says of the rest: the first hits of the session, as
      many as may be shown; whether any session on it has more; and whether there are more sessions. */
  lemma {:induction false} PageShows(h: Hits, limit: int, perSession: nat, scanStopped: bool, matching: set<nat>)
    requires forall u: nat :: u in matching <==> u < |h| && Joined(h[u]) != []
    ensures
      var page := PageOf(h, limit, perSession, scanStopped);
      && |page.results| == (if limit <= 0 then 0 else if |matching| < limit then |matching| else limit)
      && (forall i :: 0 <= i < |page.results| ==>
            var item := page.results[i];
            && item.unit < |h| && item.matches <= Joined(h[item.unit])
            && |item.matches| == if |Joined(h[item.unit])| < perSession then |Joined(h[item.unit])| else perSession)
      && (page.hitsCut <==> exists i :: 0 <= i < |page.results| &&
                              page.results[i].matches != Joined(h[page.results[i].unit]))
      && page.matched == |matching|
      && (page.sessionsCut <==> scanStopped || |matching| > |page.results|)
  {
    CountMatching(h, |h|, matching);
  }

  lemma {:induction false} CountMatching(h: Hits, n: nat, units: set<nat>)
    requires n <= |h|
    requires forall u: nat :: u in units <==> u < n && Joined(h[u]) != []
    ensures |units| == |Matching(h, n)|
  {
    if n == 0 {
      NoUnits(units);
    } else {
      var less := units - {n - 1};
      CountMatching(h, n - 1, less);
      assert |units| == |less| + if n - 1 in units then 1 else 0;
    }
  }

  lemma {:induction false} NoUnits(units: set<nat>)
    requires forall u: nat :: u !in units
    ensures |units| == 0
  {
    assert units == {};
  }

  // A scan that was stopped

  /** Every transcript up to this job was read, and none after it. */
  ghost predicate ReadTo(full: Hits, part: Hits, last: Job)
  {
    && |part| == |full|
    && (forall u :: 0 <= u < |full| ==> |part[u]| == |full[u]|)
    && (forall j :: IsJob(full, j) ==> HitsOf(part, j) == if Before(last, j) then [] else HitsOf(full, j))
  }

  lemma {:induction false} JoinedEmpty(parts: seq<seq<Hit>>)
    requires forall m :: 0 <= m < |parts| ==> parts[m] == []
    ensures Joined(parts) == []
  {
    if parts != [] {
      JoinedEmpty(parts[..|parts| - 1]);
    }
  }

  /** A session whose later transcripts were not read keeps the first of its hits. */
  lemma {:induction false} JoinedPrefix(part: seq<seq<Hit>>, full: seq<seq<Hit>>, read: nat)
    requires |part| == |full|
    requires forall m :: 0 <= m < |full| ==> part[m] == if m < read then full[m] else []
    ensures Joined(part) <= Joined(full)
    ensures read >= |full| ==> Joined(part) == Joined(full)
  {
    if full != [] {
      var n := |full| - 1;
      JoinedPrefix(part[..n], full[..n], read);
      if n < read {
        JoinedSame(part[..n], full[..n]);
      }
    }
  }

  lemma {:induction false} JoinedSame(a: seq<seq<Hit>>, b: seq<seq<Hit>>)
    requires |a| == |b| && forall m :: 0 <= m < |a| ==> a[m] == b[m]
    ensures Joined(a) == Joined(b)
  {
    assert a == b;
  }

  /** Before the last session everything was read, in it the first of its hits, after it nothing. */
  ghost predicate Partly(full: Hits, part: Hits, last: nat)
  {
    && |part| == |full|
    && (forall u :: 0 <= u < last && u < |full| ==> Joined(part[u]) == Joined(full[u]))
    && (last < |full| ==> Joined(part[last]) <= Joined(full[last]))
    && (forall u :: last < u < |full| ==> Joined(part[u]) == [])
  }

  lemma {:induction false} ReadPartly(full: Hits, part: Hits, last: Job)
    requires ReadTo(full, part, last)
    ensures Partly(full, part, last.unit)
  {
    forall u: nat | u < |full|
      ensures u < last.unit ==> Joined(part[u]) == Joined(full[u])
      ensures u == last.unit ==> Joined(part[u]) <= Joined(full[u])
      ensures u > last.unit ==> Joined(part[u]) == []
    {
      var read := if u < last.unit then |full[u]| else if u == last.unit then last.member + 1 else 0;
      forall m: nat | m < |full[u]| ensures part[u][m] == if m < read then full[u][m] else [] {
        assert IsJob(full, Job(u, m)) && HitsOf(part, Job(u, m)) == part[u][m];
      }
      JoinedPrefix(part[u], full[u], read);
      if u > last.unit {
        JoinedEmpty(part[u]);
      }
    }
  }

  /** The sessions found are the first of those a complete scan finds, in the same order. */
  lemma {:induction false} FoundFirst(full: Hits, part: Hits, last: nat, n: nat)
    requires Partly(full, part, last) && n <= |full|
    ensures Matching(part, n) <= Matching(full, n)
    ensures n <= last ==> Matching(part, n) == Matching(full, n)
    ensures n == last + 1 && Joined(part[last]) != [] ==> Matching(part, n) == Matching(full, n)
    ensures n > last ==> Matching(part, n) == Matching(part, last + 1)
  {
    if n > 0 {
      FoundFirst(full, part, last, n - 1);
    }
  }

  ghost predicate SamePage(part: Page, full: Page, last: int)
  {
    && |part.results| == |full.results|
    && (forall i :: 0 <= i < |part.results| ==>
          var p, f := part.results[i], full.results[i];
          && p.unit == f.unit
          && p.matches <= f.matches
          && (p.unit != last ==> p == f))
    && (part.hitsCut ==> full.hitsCut)
    && (full.hitsCut && !part.hitsCut ==> last in UnitsOf(full.results))
  }

  /** Stopped only once the page was full, a scan gives the page that reading everything would have. */
  lemma {:induction false} PageStands(full: Hits, part: Hits, last: nat, limit: int, perSession: nat)
    requires Partly(full, part, last)
    requires limit <= |Matching(part, |part|)|
    ensures SamePage(PageOf(part, limit, perSession, true), PageOf(full, limit, perSession, false), last)
  {
    var shown := SameShown(full, part, last, limit);
    ShownStands(full, part, last, shown, perSession);
    assert UnitsOf(Items(full, shown, perSession)) == shown;
  }

  lemma {:induction false} SameShown(full: Hits, part: Hits, last: nat, limit: int) returns (shown: seq<nat>)
    requires Partly(full, part, last)
    requires limit <= |Matching(part, |part|)|
    ensures shown == Cut(Matching(part, |part|), limit) == Cut(Matching(full, |full|), limit)
    ensures forall i :: 0 <= i < |shown| ==> shown[i] < |full| && shown[i] <= last
  {
    FoundFirst(full, part, last, |full|);
    shown := Cut(Matching(part, |part|), limit);
    forall i: nat | i < |shown| ensures shown[i] <= last {
      NoneAfter(full, part, last, |part|, i);
    }
  }

  lemma {:induction false} ShownStands(full: Hits, part: Hits, last: nat, shown: seq<nat>, perSession: nat)
    requires Partly(full, part, last)
    requires forall i :: 0 <= i < |shown| ==> shown[i] < |full| && shown[i] <= last
    ensures forall i :: 0 <= i < |shown| ==>
              && ItemOf(part, shown[i], perSession).matches <= ItemOf(full, shown[i], perSession).matches
              && (shown[i] != last ==> ItemOf(part, shown[i], perSession) == ItemOf(full, shown[i], perSession))
    ensures Over(part, shown, perSession) ==> Over(full, shown, perSession)
    ensures Over(full, shown, perSession) && !Over(part, shown, perSession) ==> last in shown
  {
    forall i | 0 <= i < |shown|
      ensures Joined(part[shown[i]]) <= Joined(full[shown[i]])
      ensures shown[i] != last ==> Joined(part[shown[i]]) == Joined(full[shown[i]])
    {
    }
  }

  lemma {:induction false} NoneAfter(full: Hits, part: Hits, last: nat, n: nat, i: nat)
    requires Partly(full, part, last) && n <= |part| && i < |Matching(part, n)|
    ensures Matching(part, n)[i] <= last
  {
    if i < |Matching(part, n - 1)| {
      NoneAfter(full, part, last, n - 1, i);
    }
  }
}
