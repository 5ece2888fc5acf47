/** When the page of a search that stopped can fail to say that hits were cut off: a condition on the query
    alone, both ways. */
module SearchHitsCut {
  import opened Collections
  import opened SearchPage
  import opened SearchRun
  import opened SearchResult

  /** The first transcript of a session that has a hit. */
  function FirstHit(parts: seq<seq<Hit>>): (m: nat)
    requires Joined(parts) != []
    ensures m < |parts|
  {
    var n := |parts| - 1;
    if Joined(parts[..n]) != [] then FirstHit(parts[..n]) else n
  }

  lemma {:induction false} FirstHitIs(parts: seq<seq<Hit>>)
    requires Joined(parts) != []
    ensures parts[FirstHit(parts)] != [] && forall k :: 0 <= k < FirstHit(parts) ==> parts[k] == []
  {
    var n := |parts| - 1;
    if Joined(parts[..n]) != [] {
      FirstHitIs(parts[..n]);
      assert forall k :: 0 <= k < n ==> parts[..n][k] == parts[k];
    } else {
      forall k: nat | k < n ensures parts[k] == [] {
        assert parts[..n][k] == parts[k];
        if parts[k] != [] {
          HasJoined(parts[..n], k);
        }
      }
    }
  }

  /** The last session on a full page alone has more hits than are shown of a session, and its first
      transcript with a hit has no more than that. */
  ghost predicate MayMiss(full: Hits, limit: int, perSession: nat)
  {
    var all := Matching(full, |full|);
    && 0 < limit <= |all|
    && (forall i :: 0 <= i < limit - 1 ==> |Joined(full[all[i]])| <= perSession)
    && LastMayMiss(full[all[limit - 1]], perSession)
  }

  ghost predicate LastMayMiss(parts: seq<seq<Hit>>, perSession: nat)
  {
    |Joined(parts)| > perSession && |parts[FirstHit(parts)]| <= perSession
  }

  /** A finished run whose page says other of hits cut off than a complete scan's page would. */
  ghost predicate Misses(q: Query, events: seq<Event>, s: State)
  {
    && Runs(q, Init(q), events, s) && Finished(q, s)
    && PageOf(s.board.hits, q.limit, q.perSession, s.stopped).hitsCut
       != PageOf(q.full, q.limit, q.perSession, false).hitsCut
  }

  // A miss has that shape

  lemma {:induction false} PartFits(parts: seq<seq<Hit>>, m: nat)
    requires m < |parts|
    ensures |parts[m]| <= |Joined(parts)|
  {
    if m < |parts| - 1 {
      PartFits(parts[..|parts| - 1], m);
    }
  }

  /** What was read of a session with a hit includes its first transcript with one. */
  lemma {:induction false} FirstHitRead(full: Hits, part: Hits, last: Job, u: nat)
    requires ReadTo(full, part, last) && u < |full| && Joined(part[u]) != []
    ensures Joined(full[u]) != [] && |full[u][FirstHit(full[u])]| <= |Joined(part[u])|
  {
    var m := JoinedHas(part[u]);
    assert IsJob(full, Job(u, m)) && HitsOf(part, Job(u, m)) == part[u][m];
    HasJoined(full[u], m);
    FirstHitIs(full[u]);
    var f := FirstHit(full[u]);
    assert IsJob(full, Job(u, f)) && HitsOf(part, Job(u, f)) == part[u][f];
    PartFits(part[u], f);
  }

  lemma {:induction false} NotOver(h: Hits, units: seq<nat>, perSession: nat, i: nat)
    requires (forall k :: 0 <= k < |units| ==> units[k] < |h|) && !Over(h, units, perSession) && i < |units|
    ensures |Joined(h[units[i]])| <= perSession
  {
  }

  lemma {:induction false} CutOfAll(all: seq<nat>, limit: nat, i: nat)
    requires limit <= |all| && i < limit
    ensures |Cut(all, limit)| == limit && Cut(all, limit)[i] == all[i]
  {
  }

  /** The sessions shown are the same, and the last one begun is the last of them. */
  lemma {:induction false} LastIsLast(full: Hits, part: Hits, last: nat, limit: nat, shown: seq<nat>)
    requires Partly(full, part, last) && 0 < limit <= |Matching(part, |part|)|
    requires shown == Cut(Matching(full, |full|), limit) && last in shown
    requires forall i :: 0 <= i < |shown| ==> shown[i] <= last
    ensures limit <= |Matching(full, |full|)| && |shown| == limit && shown[limit - 1] == last
    ensures forall i :: 0 <= i < limit ==> shown[i] == Matching(full, |full|)[i]
    ensures forall i :: 0 <= i < limit - 1 ==> shown[i] < last
  {
    FoundFirst(full, part, last, |full|);
    MatchingRises(full, |full|);
    var all := Matching(full, |full|);
    forall i: nat | i < limit ensures |shown| == limit && shown[i] == all[i] {
      CutOfAll(all, limit, i);
    }
    var k :| 0 <= k < |shown| && shown[k] == last;
    RisesTo(all, k, limit - 1);
  }

  lemma {:induction false} RisesTo(units: seq<nat>, a: nat, b: nat)
    requires Rising(units) && a <= b < |units|
    ensures units[a] <= units[b]
  {
  }

  lemma {:induction false} MissOfPart(full: Hits, part: Hits, last: Job, limit: nat, perSession: nat)
    requires ReadTo(full, part, last) && 0 < limit <= |Matching(part, |part|)|
    requires PageOf(part, limit, perSession, true).hitsCut != PageOf(full, limit, perSession, false).hitsCut
    ensures MayMiss(full, limit, perSession)
  {
    ReadPartly(full, part, last);
    var shown := SameShown(full, part, last.unit, limit);
    ShownStands(full, part, last.unit, shown, perSession);
    LastIsLast(full, part, last.unit, limit, shown);
    OnlyTheLast(full, part, last.unit, limit, perSession, shown);
    assert last.unit in Cut(Matching(part, |part|), limit);
    LastFits(full, part, last, perSession);
  }

  lemma {:induction false} LastFits(full: Hits, part: Hits, last: Job, perSession: nat)
    requires ReadTo(full, part, last) && last.unit < |full| && last.unit in Matching(part, |part|)
    requires |Joined(part[last.unit])| <= perSession < |Joined(full[last.unit])|
    ensures LastMayMiss(full[last.unit], perSession)
  {
    MatchingHas(part, |part|, last.unit);
    FirstHitRead(full, part, last, last.unit);
  }

  lemma {:induction false} OnlyTheLast(full: Hits, part: Hits, last: nat, limit: nat, perSession: nat, shown: seq<nat>)
    requires Partly(full, part, last) && last < |full| && |shown| == limit > 0 && shown[limit - 1] == last
    requires forall i :: 0 <= i < limit ==> shown[i] < |full|
    requires forall i :: 0 <= i < limit - 1 ==> shown[i] < last
    requires Over(full, shown, perSession) && !Over(part, shown, perSession)
    ensures forall i :: 0 <= i < limit - 1 ==> |Joined(full[shown[i]])| <= perSession
    ensures |Joined(part[last])| <= perSession < |Joined(full[last])|
  {
    forall i: nat | i < limit - 1 ensures |Joined(full[shown[i]])| <= perSession {
      NotOver(part, shown, perSession, i);
    }
    NotOver(part, shown, perSession, limit - 1);
    var k :| 0 <= k < |shown| && |Joined(full[shown[k]])| > perSession;
    assert k == limit - 1;
  }

  lemma {:induction false} MissMeans(q: Query, events: seq<Event>, s: State)
    requires Misses(q, events, s)
    ensures MayMiss(q.full, q.limit, q.perSession)
  {
    InitInv(q);
    EveryRunKeepsInv(q, Init(q), events, s);
    if s.stopped {
      StoppedRead(q, s);
      StoppedFound(q, s);
      MissOfPart(q.full, s.board.hits, Jobs(q)[s.sent - 1], q.limit, q.perSession);
    } else {
      ReadAll(q, s);
    }
  }

  // One transcript after another

  lemma {:induction false} RunsJoin(q: Query, s: State, a: seq<Event>, t: State, b: seq<Event>, u: State)
    requires Runs(q, s, a, t) && Runs(q, t, b, u)
    ensures Runs(q, s, a + b, u)
    decreases |a|
  {
    if a == [] {
      assert a + b == b;
    } else {
      assert (a + b)[1..] == a[1..] + b;
      RunsJoin(q, Next(q, s, a[0]), a[1..], t, b, u);
    }
  }

  lemma {:induction false} OneStep(q: Query, s: State, e: Event)
    requires Can(q, s, e)
    ensures Runs(q, s, [e], Next(q, s, e))
  {
    assert [e][1..] == [];
  }

  lemma {:induction false} TwoSteps(q: Query, s: State, e: Event, f: Event)
    requires Can(q, s, e) && Can(q, Next(q, s, e), f)
    ensures Runs(q, s, [e] + [f], Next(q, Next(q, s, e), f))
  {
    OneStep(q, s, e);
    OneStep(q, Next(q, s, e), f);
    RunsJoin(q, s, [e], Next(q, s, e), [f], Next(q, Next(q, s, e), f));
  }

  /** The dispatcher is about to look, and no worker has anything in hand. */
  ghost predicate Resting(q: Query, s: State)
  {
    Inv(q, s) && AtRest(q, s)
  }

  ghost predicate AtRest(q: Query, s: State)
  {
    Quiet(s) && s.door == Deciding && !s.stopped && s.idle == q.workers && s.gone == 0
  }

  /** All but one transcript and its worker are as they were. */
  ghost predicate Only(j: Job, phase: Phase, s: State, t: State)
  {
    && t.jobs == s.jobs[j := phase]
    && t.sent == s.sent && t.door == s.door && t.stopped == s.stopped && t.gone == s.gone
  }

  lemma {:induction false} ReadAndWritten(q: Query, s: State, j: Job) returns (t: State)
    requires At(s, j, Taken) && IsJob(q.full, j) && IsJob(s.board.hits, j)
    ensures Runs(q, s, [Count(j)] + [Write(j)], t)
    ensures Only(j, Written, s, t) && t.idle == s.idle
  {
    TwoSteps(q, s, Count(j), Write(j));
    t := Next(q, Next(q, s, Count(j)), Write(j));
    assert t.jobs == s.jobs[j := Written];
  }

  lemma {:induction false} MarkedAndCounted(q: Query, s: State, j: Job) returns (events: seq<Event>, t: State)
    requires At(s, j, Written) && IsJob(q.full, j)
    ensures Runs(q, s, events, t)
    ensures Only(j, Done, s, t) && t.idle == s.idle + 1
  {
    OneStep(q, s, Flag(j));
    events, t := [Flag(j)], Next(q, s, Flag(j));
    if At(t, j, Owing) {
      TwoSteps(q, s, Flag(j), Add(j));
      events, t := [Flag(j)] + [Add(j)], Next(q, t, Add(j));
      assert t.jobs == s.jobs[j := Done];
    }
  }

  /** A worker takes its transcript to the end. */
  lemma {:induction false} ReadThrough(q: Query, s: State, j: Job) returns (events: seq<Event>, t: State)
    requires At(s, j, Taken) && IsJob(q.full, j) && IsJob(s.board.hits, j)
    ensures Runs(q, s, events, t)
    ensures Only(j, Done, s, t) && t.idle == s.idle + 1
  {
    var u := ReadAndWritten(q, s, j);
    events, t := MarkedAndCounted(q, u, j);
    RunsJoin(q, s, [Count(j)] + [Write(j)], u, events, t);
    events := [Count(j)] + [Write(j)] + events;
    assert t.jobs == s.jobs[j := Done];
  }

  /** The next transcript is handed out. */
  lemma {:induction false} HandedOut(q: Query, s: State) returns (t: State)
    requires Resting(q, s) && s.sent < |Jobs(q)| && q.workers > 0
    requires q.limit <= 0 || s.board.found < q.limit
    ensures Runs(q, s, [Look] + [Hand], t)
    ensures t == s.(sent := s.sent + 1, idle := s.idle - 1, jobs := s.jobs[Jobs(q)[s.sent] := Taken])
  {
    TwoSteps(q, s, Look, Hand);
    t := Next(q, Next(q, s, Look), Hand);
  }

  /** And read. */
  lemma {:induction false} OneMore(q: Query, s: State) returns (events: seq<Event>, t: State)
    requires Resting(q, s) && s.sent < |Jobs(q)| && q.workers > 0
    requires q.limit <= 0 || s.board.found < q.limit
    ensures Runs(q, s, events, t) && Resting(q, t) && t.sent == s.sent + 1
  {
    var j := Jobs(q)[s.sent];
    FreshJob(q, s);
    var s1 := HandedOut(q, s);
    events, t := ReadThrough(q, s1, j);
    RunsJoin(q, s, [Look] + [Hand], s1, events, t);
    events := [Look] + [Hand] + events;
    EveryRunKeepsInv(q, s, events, t);
  }

  /** And so on, as long as too few sessions have matched. */
  lemma {:induction false} ReadUpTo(q: Query, k: nat) returns (events: seq<Event>, s: State)
    requires k <= |Jobs(q)| && q.workers > 0
    requires forall t :: Resting(q, t) && t.sent < k ==> q.limit <= 0 || t.board.found < q.limit
    ensures Runs(q, Init(q), events, s) && Resting(q, s) && s.sent == k
  {
    if k == 0 {
      InitInv(q);
      events, s := [], Init(q);
    } else {
      var first, t := ReadUpTo(q, k - 1);
      var rest;
      rest, s := OneMore(q, t);
      RunsJoin(q, Init(q), first, t, rest, s);
      events := first + rest;
    }
  }

  /** All workers leave. */
  lemma {:induction false} AllLeave(q: Query, s: State) returns (events: seq<Event>, t: State)
    requires s.door == Closed && s.idle + s.gone == q.workers
    ensures Runs(q, s, events, t) && Finished(q, t)
    ensures t.board == s.board && t.stopped == s.stopped
    decreases s.idle
  {
    if s.idle == 0 {
      events, t := [], s;
    } else {
      OneStep(q, s, Leave);
      var u := Next(q, s, Leave);
      events, t := AllLeave(q, u);
      RunsJoin(q, s, [Leave], u, events, t);
      events := [Leave] + events;
    }
  }

  /** The dispatcher looks, and stops. */
  lemma {:induction false} StopHere(q: Query, s: State) returns (events: seq<Event>, t: State)
    requires Resting(q, s) && s.sent < |Jobs(q)| && 0 < q.limit <= s.board.found
    ensures Runs(q, s, events, t) && Finished(q, t) && t.stopped && t.board == s.board
  {
    OneStep(q, s, Look);
    var u := Next(q, s, Look);
    events, t := AllLeave(q, u);
    RunsJoin(q, s, [Look], u, events, t);
    events := [Look] + events;
  }

  // A query of that shape is missed by a run that stops as early as it may

  lemma {:induction false} OnlyPart(parts: seq<seq<Hit>>, m: nat)
    requires m < |parts| && forall k :: 0 <= k < |parts| && k != m ==> parts[k] == []
    ensures Joined(parts) == parts[m]
  {
    var n := |parts| - 1;
    if m == n {
      JoinedEmpty(parts[..n]);
    } else {
      OnlyPart(parts[..n], m);
    }
  }

  /** The place in the order of the first transcript with a hit of the last session that is shown. */
  ghost predicate StopsAfter(q: Query, k: nat, unit: nat)
  {
    && MayMiss(q.full, q.limit, q.perSession)
    && unit == Matching(q.full, |q.full|)[q.limit - 1] && Joined(q.full[unit]) != []
    && k < |Jobs(q)| && Jobs(q)[k] == Job(unit, FirstHit(q.full[unit]))
  }

  lemma {:induction false} PlaceToStop(q: Query) returns (k: nat, unit: nat)
    requires MayMiss(q.full, q.limit, q.perSession)
    ensures StopsAfter(q, k, unit)
  {
    unit := Matching(q.full, |q.full|)[q.limit - 1];
    assert unit in Matching(q.full, |q.full|);
    MatchingHas(q.full, |q.full|, unit);
    OrderIsAll(q.full, |q.full|);
    var j := Job(unit, FirstHit(q.full[unit]));
    assert IsJob(q.full, j) && j in Jobs(q);
    k :| 0 <= k < |Jobs(q)| && Jobs(q)[k] == j;
  }

  lemma {:induction false} MoreToCome(q: Query, k: nat, unit: nat)
    requires StopsAfter(q, k, unit)
    ensures k + 1 < |Jobs(q)|
  {
    var parts, f := q.full[unit], FirstHit(q.full[unit]);
    FirstHitIs(parts);
    if forall m :: 0 <= m < |parts| && m != f ==> parts[m] == [] {
      OnlyPart(parts, f);
      assert false;
    }
    var m: int :| 0 <= m < |parts| && m != f && parts[m] != [];
    OrderIsAll(q.full, |q.full|);
    assert IsJob(q.full, Job(unit, m)) && Job(unit, m) in Jobs(q);
    var i :| 0 <= i < |Jobs(q)| && Jobs(q)[i] == Job(unit, m);
    InOrder(Jobs(q), k, i);
  }

  lemma {:induction false} InOrder(jobs: seq<Job>, a: nat, b: nat)
    requires Ascending(jobs) && a < |jobs| && b < |jobs| && Before(jobs[a], jobs[b])
    ensures a < b
  {
  }

  /** Until then nothing of that session has a hit, so fewer have matched than the page holds. */
  lemma {:induction false} UnitStillEmpty(q: Query, k: nat, unit: nat, part: Hits, sent: nat)
    requires StopsAfter(q, k, unit) && 0 < sent <= k && ReadTo(q.full, part, Jobs(q)[sent - 1])
    ensures Joined(part[unit]) == []
  {
    FirstHitIs(q.full[unit]);
    OrderIsAll(q.full, |q.full|);
    var last, f := Jobs(q)[sent - 1], FirstHit(q.full[unit]);
    assert Before(last, Jobs(q)[k]);
    forall m: nat | m < |part[unit]| ensures part[unit][m] == [] {
      assert IsJob(q.full, Job(unit, m)) && HitsOf(part, Job(unit, m)) == part[unit][m];
      assert m >= f ==> Before(last, Job(unit, m));
    }
    JoinedEmpty(part[unit]);
  }

  lemma {:induction false} FewerThan(full: Hits, part: Hits, last: nat, limit: nat)
    requires Partly(full, part, last) && 0 < limit <= |Matching(full, |full|)|
    requires Joined(part[Matching(full, |full|)[limit - 1]]) == []
    ensures |Matching(part, |part|)| < limit
  {
    FoundFirst(full, part, last, |full|);
    var unit := Matching(full, |full|)[limit - 1];
    MatchingHas(part, |part|, unit);
    ShorterThan(Matching(part, |part|), Matching(full, |full|), limit);
  }

  lemma {:induction false} ShorterThan(a: seq<nat>, b: seq<nat>, n: nat)
    requires a <= b && 0 < n <= |b| && b[n - 1] !in a
    ensures |a| < n
  {
  }

  lemma {:induction false} TooFewYet(q: Query, k: nat, unit: nat, s: State)
    requires StopsAfter(q, k, unit) && Resting(q, s) && s.sent <= k
    ensures s.board.found < q.limit
  {
    if s.sent == 0 {
      NoneFound(q, s);
    } else {
      RestingRead(q, s);
      FewerBefore(q, k, unit, s.board.hits, s.sent);
    }
  }

  lemma {:induction false} FewerBefore(q: Query, k: nat, unit: nat, part: Hits, sent: nat)
    requires StopsAfter(q, k, unit) && 0 < sent <= k && ReadTo(q.full, part, Jobs(q)[sent - 1])
    ensures |Matching(part, |part|)| < q.limit
  {
    ReadPartly(q.full, part, Jobs(q)[sent - 1]);
    UnitStillEmpty(q, k, unit, part, sent);
    FewerThan(q.full, part, Jobs(q)[sent - 1].unit, q.limit);
  }

  /** After it there are enough. */
  lemma {:induction false} NowEnough(full: Hits, part: Hits, last: nat, limit: nat)
    requires Partly(full, part, last) && 0 < limit <= |Matching(full, |full|)|
    requires Matching(full, |full|)[limit - 1] == last && Joined(part[last]) != []
    ensures |Matching(part, |part|)| >= limit
  {
    FoundFirst(full, part, last, |full|);
    MatchingRises(full, |full|);
    MatchingHas(part, |part|, last);
    var i :| 0 <= i < |Matching(part, |part|)| && Matching(part, |part|)[i] == last;
    if i < limit - 1 {
      RisingStrictly(Matching(full, |full|), i, limit - 1);
    }
  }

  lemma {:induction false} RisingStrictly(units: seq<nat>, a: nat, b: nat)
    requires Rising(units) && a < b < |units|
    ensures units[a] < units[b]
  {
  }

  /** And of the last session only the hits of that transcript are there. */
  lemma {:induction false} OnlyFirstRead(full: Hits, part: Hits, unit: nat)
    requires unit < |full| && Joined(full[unit]) != [] && ReadTo(full, part, Job(unit, FirstHit(full[unit])))
    ensures Joined(part[unit]) == full[unit][FirstHit(full[unit])] != []
  {
    FirstHitIs(full[unit]);
    var f := FirstHit(full[unit]);
    forall m: nat | m < |part[unit]| ensures part[unit][m] == if m == f then full[unit][f] else [] {
      assert IsJob(full, Job(unit, m)) && HitsOf(part, Job(unit, m)) == part[unit][m];
    }
    OnlyPart(part[unit], f);
  }

  /** So the page shows no session whose hits were cut, though the complete one would. */
  lemma {:induction false} NothingCut(full: Hits, part: Hits, unit: nat, limit: nat, perSession: nat)
    requires MayMiss(full, limit, perSession) && unit == Matching(full, |full|)[limit - 1]
    requires Partly(full, part, unit) && limit <= |Matching(part, |part|)|
    requires |Joined(part[unit])| <= perSession
    ensures !PageOf(part, limit, perSession, true).hitsCut && PageOf(full, limit, perSession, false).hitsCut
  {
    var shown := SameShown(full, part, unit, limit);
    var all := Matching(full, |full|);
    forall i | 0 <= i < |shown| ensures |Joined(part[shown[i]])| <= perSession {
      CutOfAll(all, limit, i);
    }
    CutOfAll(all, limit, limit - 1);
    assert |Joined(full[shown[limit - 1]])| > perSession;
  }

  /** What there is when the first transcript with a hit of the last session has just been read. */
  lemma {:induction false} ReadToFirst(q: Query, k: nat, unit: nat, part: Hits)
    requires StopsAfter(q, k, unit) && ReadTo(q.full, part, Jobs(q)[k])
    ensures Partly(q.full, part, unit) && q.limit <= |Matching(part, |part|)| && |Joined(part[unit])| <= q.perSession
  {
    ReadPartly(q.full, part, Jobs(q)[k]);
    OnlyFirstRead(q.full, part, unit);
    NowEnough(q.full, part, unit, q.limit);
  }

  lemma {:induction false} RestingRead(q: Query, s: State)
    requires Resting(q, s) && s.sent > 0
    ensures s.sent <= |Jobs(q)| && ReadTo(q.full, s.board.hits, Jobs(q)[s.sent - 1])
    ensures s.board.found == |Matching(s.board.hits, |s.board.hits|)|
  {
    FoundCounts(q, s);
    ReadToLast(q, s);
  }

  lemma {:induction false} CutNotSeen(q: Query) returns (events: seq<Event>, s: State)
    requires MayMiss(q.full, q.limit, q.perSession) && q.workers > 0
    ensures Misses(q, events, s) && s.stopped && !PageOf(s.board.hits, q.limit, q.perSession, true).hitsCut
  {
    var k, unit := PlaceToStop(q);
    MoreToCome(q, k, unit);
    forall t | Resting(q, t) && t.sent < k + 1 ensures q.limit <= 0 || t.board.found < q.limit {
      TooFewYet(q, k, unit, t);
    }
    var first, t := ReadUpTo(q, k + 1);
    RestingRead(q, t);
    ReadToFirst(q, k, unit, t.board.hits);
    var last;
    last, s := StopHere(q, t);
    RunsJoin(q, Init(q), first, t, last, s);
    events := first + last;
    NothingCut(q.full, s.board.hits, unit, q.limit, q.perSession);
  }

  /** Some run of the search misses what a complete scan would report if and only if the query is of that
      shape. */
  lemma {:induction false} HitsCutExactly(q: Query)
    requires q.workers > 0
    ensures (exists events, s :: Misses(q, events, s)) <==> MayMiss(q.full, q.limit, q.perSession)
  {
    if events, s :| Misses(q, events, s) {
      MissMeans(q, events, s);
    }
    if MayMiss(q.full, q.limit, q.perSession) {
      var events, s := CutNotSeen(q);
    }
  }

  /** There are such queries: a session with a hit of its own and one in a subagent's transcript, of which
      one is to be shown. */
  lemma {:induction false} SuchAQuery()
    ensures MayMiss([[[1], [2]]], 1, 1)
  {
    var parts: seq<seq<Hit>> := [[1], [2]];
    assert parts[..1] == [[1]] && [[1]][..0] == [];
    assert Joined([[1]]) == [1] && Joined(parts) == [1, 2];
    assert FirstHit([[1]]) == 0 && FirstHit(parts) == 0;
    assert Matching([parts], 1) == [0];
  }
}
