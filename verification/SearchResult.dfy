/** What a search that has run to its end answers, and that it does run to its end. */
module SearchResult {
  import opened Collections
  import opened SearchPage
  import opened SearchRun

  /** A session has at least its own transcript. */
  ghost predicate Proper(q: Query)
  {
    forall u :: 0 <= u < |q.full| ==> |q.full[u]| > 0
  }

  /** No worker has a transcript in hand. */
  ghost predicate Quiet(s: State)
  {
    forall j :: j in s.jobs ==> s.jobs[j] == Done
  }

  lemma {:induction false} AllThrough(q: Query, s: State)
    requires Inv(q, s) && Finished(q, s)
    ensures Quiet(s)
  {
    assert |Busy(s)| == 0;
    forall j | j in s.jobs ensures s.jobs[j] == Done {
      assert j !in Busy(s);
    }
  }

  /** The transcripts handed out are those up to the last one. */
  lemma {:induction false} SentIsUpTo(q: Query, s: State, j: Job)
    requires Handed(q, s) && s.sent > 0 && IsJob(q.full, j)
    ensures j in s.jobs <==> !Before(Jobs(q)[s.sent - 1], j)
  {
    OrderIsAll(q.full, |q.full|);
    var jobs := Jobs(q);
    var k :| 0 <= k < |jobs| && jobs[k] == j;
    if k < s.sent {
      assert jobs[..s.sent][k] == j;
    }
  }

  lemma {:induction false} ReadToLast(q: Query, s: State)
    requires Handed(q, s) && Wrote(q, s) && Quiet(s) && s.sent > 0
    ensures ReadTo(q.full, s.board.hits, Jobs(q)[s.sent - 1])
  {
    forall j | IsJob(q.full, j) ensures HasWritten(s, j) <==> !Before(Jobs(q)[s.sent - 1], j) {
      SentIsUpTo(q, s, j);
    }
  }

  /** With nothing left to hand out, nothing is missing. */
  lemma {:induction false} ReadAll(q: Query, s: State)
    requires Inv(q, s) && Finished(q, s) && s.sent == |Jobs(q)|
    ensures s.board.hits == q.full
  {
    AllThrough(q, s);
    OrderIsAll(q.full, |q.full|);
    var h := s.board.hits;
    forall u, m | 0 <= u < |h| && 0 <= m < |h[u]| ensures h[u][m] == q.full[u][m] {
      var j := Job(u, m);
      assert IsJob(q.full, j) && j in Jobs(q)[..s.sent];
      assert HitsOf(h, j) == HitsOf(q.full, j);
    }
    forall u | 0 <= u < |h| ensures h[u] == q.full[u] {
    }
  }

  // Counting the sessions that matched

  lemma {:induction false} HasJoined(parts: seq<seq<Hit>>, m: nat)
    requires m < |parts| && parts[m] != []
    ensures Joined(parts) != []
  {
    if m < |parts| - 1 {
      HasJoined(parts[..|parts| - 1], m);
    }
  }

  lemma {:induction false} JoinedHas(parts: seq<seq<Hit>>) returns (m: nat)
    requires Joined(parts) != []
    ensures m < |parts| && parts[m] != []
  {
    var n := |parts| - 1;
    m := n;
    if parts[n] == [] {
      m := JoinedHas(parts[..n]);
    }
  }

  lemma {:induction false} MatchedHasHit(q: Query, s: State, u: nat)
    requires Inv(q, s) && Quiet(s)
    ensures u in s.board.matched <==> u < |q.full| && Joined(s.board.hits[u]) != []
  {
    var h := s.board.hits;
    if u < |h| && Joined(h[u]) != [] {
      var m := JoinedHas(h[u]);
      WasFlagged(q, s, Job(u, m));
    }
    if u in s.board.matched {
      var j :| HasFlagged(q, s, j) && j.unit == u;
      assert HitsOf(h, j) != [];
      HasJoined(h[u], j.member);
    }
  }

  /** found counts each matched session once. */
  lemma {:induction false} FoundCounts(q: Query, s: State)
    requires Inv(q, s) && Quiet(s)
    ensures s.board.found == |Matching(s.board.hits, |s.board.hits|)|
  {
    assert In(s, Owing) == {};
    forall u: nat ensures u in s.board.matched <==> u < |s.board.hits| && Joined(s.board.hits[u]) != [] {
      MatchedHasHit(q, s, u);
    }
    CountMatching(s.board.hits, |s.board.hits|, s.board.matched);
  }

  lemma {:induction false} WasFlagged(q: Query, s: State, j: Job)
    requires Inv(q, s) && IsJob(q.full, j) && HitsOf(s.board.hits, j) != [] && Quiet(s)
    ensures j.unit in s.board.matched
  {
    assert HasFlagged(q, s, j);
  }

  lemma {:induction false} FirstTranscripts(read: set<Job>, n: nat)
    requires forall j :: j in read <==> j.member == 0 && j.unit < n
    ensures |read| == n
  {
    if n == 0 {
      assert read == {};
    } else {
      FirstTranscripts(read - {Job(n - 1, 0)}, n - 1);
    }
  }

  /** How many sessions were begun. */
  function Begun(q: Query, s: State): nat
    requires s.sent <= |Jobs(q)|
  {
    if s.sent == 0 then 0 else Jobs(q)[s.sent - 1].unit + 1
  }

  lemma {:induction false} ReadAre(q: Query, s: State, last: Job)
    requires Proper(q) && (forall j :: j in s.jobs ==> IsJob(q.full, j) && s.jobs[j] == Done)
    requires IsJob(q.full, last) && forall j :: IsJob(q.full, j) ==> (j in s.jobs <==> !Before(last, j))
    ensures |Read(s)| == last.unit + 1
  {
    forall j: Job | j.member == 0 && j.unit <= last.unit ensures j in Read(s) {
      assert IsJob(q.full, j);
    }
    FirstTranscripts(Read(s), last.unit + 1);
  }

  /** scanned counts the sessions up to the last one handed out. */
  lemma {:induction false} ScannedCounts(q: Query, s: State)
    requires Inv(q, s) && Finished(q, s) && Proper(q)
    ensures s.board.scanned == Begun(q, s)
  {
    if s.sent > 0 {
      AllThrough(q, s);
      OrderIsAll(q.full, |q.full|);
      var last := Jobs(q)[s.sent - 1];
      assert last in Jobs(q);
      forall j | IsJob(q.full, j) ensures j in s.jobs <==> !Before(last, j) {
        SentIsUpTo(q, s, j);
      }
      ReadAre(q, s, last);
    } else {
      assert Read(s) == {};
    }
  }

  lemma {:induction false} AllBegun(q: Query, s: State)
    requires Handed(q, s) && s.sent == |Jobs(q)| && Proper(q)
    ensures Begun(q, s) == |q.full|
  {
    OrderIsAll(q.full, |q.full|);
    if |q.full| > 0 {
      var end := Job(|q.full| - 1, |q.full[|q.full| - 1]| - 1);
      assert IsJob(q.full, end) && end in Jobs(q);
      SentIsUpTo(q, s, end);
    }
    if s.sent > 0 {
      assert Jobs(q)[s.sent - 1] in Jobs(q);
    }
  }

  /** The page against the one of a complete scan. */
  ghost predicate RightPage(part: Hits, full: Hits, last: int, limit: int, perSession: nat, stopped: bool)
  {
    var page, whole := PageOf(part, limit, perSession, stopped), PageOf(full, limit, perSession, false);
    && Matching(part, |part|) <= Matching(full, |full|)
    && SamePage(page, whole, last)
    && (!stopped ==> page == whole)
    && (stopped ==> |page.results| == limit && page.matched <= whole.matched)
    && (!page.sessionsCut ==> |page.results| == whole.matched)
  }

  lemma {:induction false} StoppedPage(full: Hits, part: Hits, last: nat, limit: int, perSession: nat, stopped: bool)
    requires stopped && Partly(full, part, last)
    requires 0 < limit <= |Matching(part, |part|)|
    ensures RightPage(part, full, last, limit, perSession, stopped)
  {
    PageStands(full, part, last, limit, perSession);
    FoundFirst(full, part, last, |full|);
  }

  lemma {:induction false} WholePage(full: Hits, part: Hits, last: int, limit: int, perSession: nat, stopped: bool)
    requires part == full && !stopped
    ensures RightPage(part, full, last, limit, perSession, stopped)
  {
  }

  lemma {:induction false} NoneFound(q: Query, s: State)
    requires Inv(q, s) && s.sent == 0
    ensures s.board.found == 0
  {
    assert s.board.matched == {};
  }

  lemma {:induction false} StoppedRead(q: Query, s: State)
    requires Inv(q, s) && Finished(q, s) && s.stopped
    ensures s.sent > 0 && ReadTo(q.full, s.board.hits, Jobs(q)[s.sent - 1])
  {
    AllThrough(q, s);
    if s.sent == 0 {
      NoneFound(q, s);
      assert false;
    }
    ReadToLast(q, s);
  }

  lemma {:induction false} StoppedFound(q: Query, s: State)
    requires Inv(q, s) && Finished(q, s) && s.stopped
    ensures 0 < q.limit <= |Matching(s.board.hits, |s.board.hits|)|
  {
    AllThrough(q, s);
    FoundCounts(q, s);
  }

  lemma {:induction false} BegunPartly(q: Query, s: State)
    requires 0 < s.sent <= |Jobs(q)| && ReadTo(q.full, s.board.hits, Jobs(q)[s.sent - 1])
    ensures Partly(q.full, s.board.hits, Begun(q, s) - 1)
  {
    ReadPartly(q.full, s.board.hits, Jobs(q)[s.sent - 1]);
  }

  lemma {:induction false} InvAtTheEnd(q: Query, events: seq<Event>, s: State)
    requires Runs(q, Init(q), events, s)
    ensures Inv(q, s)
  {
    InitInv(q);
    EveryRunKeepsInv(q, Init(q), events, s);
  }

  /** What a run to the end has left on the board: all of it, or the first of it and a full page. */
  lemma {:induction false} AtTheEnd(q: Query, events: seq<Event>, s: State)
    requires Runs(q, Init(q), events, s) && Finished(q, s)
    ensures Handed(q, s)
    ensures s.stopped ==> s.sent > 0 && Partly(q.full, s.board.hits, Begun(q, s) - 1)
    ensures s.stopped ==> 0 < q.limit <= |Matching(s.board.hits, |s.board.hits|)|
    ensures !s.stopped ==> s.board.hits == q.full
  {
    InvAtTheEnd(q, events, s);
    if s.stopped {
      StoppedRead(q, s);
      StoppedFound(q, s);
      BegunPartly(q, s);
    } else {
      ReadAll(q, s);
    }
  }

  /** Whatever the interleaving, the page is the one a scan of everything would give. The counts are
      exact unless the scan was stopped, and then a lower bound. */
  lemma {:induction false} PageIsRight(q: Query, events: seq<Event>, s: State)
    requires Runs(q, Init(q), events, s) && Finished(q, s)
    ensures Handed(q, s)
    ensures RightPage(s.board.hits, q.full, Begun(q, s) - 1, q.limit, q.perSession, s.stopped)
  {
    AtTheEnd(q, events, s);
    if s.stopped {
      StoppedPage(q.full, s.board.hits, Begun(q, s) - 1, q.limit, q.perSession, s.stopped);
    } else {
      WholePage(q.full, s.board.hits, Begun(q, s) - 1, q.limit, q.perSession, s.stopped);
    }
  }

  lemma {:induction false} CountsAreRight(q: Query, events: seq<Event>, s: State)
    requires Runs(q, Init(q), events, s) && Finished(q, s) && Proper(q)
    ensures s.board.found == |Matching(s.board.hits, |s.board.hits|)|
    ensures Handed(q, s) && s.board.scanned == Begun(q, s)
    ensures !s.stopped ==> s.board.scanned == |q.full|
  {
    InitInv(q);
    EveryRunKeepsInv(q, Init(q), events, s);
    AllThrough(q, s);
    FoundCounts(q, s);
    ScannedCounts(q, s);
    if !s.stopped {
      AllBegun(q, s);
    }
  }

  // Every search ends

  function OfPhase(s: State, j: Job): Event
    requires j in s.jobs && s.jobs[j] != Done
  {
    match s.jobs[j]
    case Taken => Count(j)
    case Counted => Write(j)
    case Written => Flag(j)
    case Owing => Add(j)
  }

  lemma {:induction false} BusyCanStep(q: Query, s: State, j: Job)
    requires Handed(q, s) && Wrote(q, s) && j in s.jobs && s.jobs[j] != Done
    ensures Can(q, s, OfPhase(s, j))
  {
    OrderIsAll(q.full, |q.full|);
    assert j in Jobs(q)[..s.sent];
    assert IsJob(q.full, j);
  }

  lemma {:induction false} SomeoneBusy(q: Query, s: State) returns (j: Job)
    requires Counts(q, s) && s.idle + s.gone < q.workers
    ensures j in s.jobs && s.jobs[j] != Done
  {
    assert |Busy(s)| > 0;
    j :| j in Busy(s);
  }

  lemma {:induction false} NeverStuck(q: Query, s: State) returns (e: Event)
    requires Inv(q, s) && !Finished(q, s) && q.workers > 0
    ensures Can(q, s, e)
  {
    if s.door == Deciding {
      e := Look;
    } else if s.idle > 0 {
      e := if s.door == Sending then Hand else Leave;
    } else {
      var j := SomeoneBusy(q, s);
      BusyCanStep(q, s, j);
      e := OfPhase(s, j);
    }
  }

  function JobStepsLeft(s: State): nat
  {
    5 * |In(s, Taken)| + 4 * |In(s, Counted)| + 3 * |In(s, Written)| + 2 * |In(s, Owing)|
  }

  function Weight(phase: Phase): nat
  {
    match phase case Taken => 5 case Counted => 4 case Written => 3 case Owing => 2 case Done => 0
  }

  /** The steps that are left at most. */
  function StepsLeft(q: Query, s: State): nat
    requires s.sent <= |Jobs(q)|
  {
    6 * (|Jobs(q)| - s.sent) + (if s.door == Deciding then 2 else if s.door == Sending then 1 else 0) + s.idle
    + JobStepsLeft(s)
  }

  lemma {:induction false} PhasesMoved(s: State, t: State, j: Job, phase: Phase, p: Phase)
    requires t.jobs == s.jobs[j := phase]
    ensures |In(t, p)| == |In(s, p)| + (if p == phase then 1 else 0) - (if At(s, j, p) then 1 else 0)
  {
    OneApart(In(s, p), In(t, p), j);
  }

  lemma {:induction false} JobCosts(s: State, t: State, j: Job, phase: Phase)
    requires t.jobs == s.jobs[j := phase]
    ensures JobStepsLeft(t) == JobStepsLeft(s) + Weight(phase) - if j in s.jobs then Weight(s.jobs[j]) else 0
  {
    PhasesMoved(s, t, j, phase, Taken);
    PhasesMoved(s, t, j, phase, Counted);
    PhasesMoved(s, t, j, phase, Written);
    PhasesMoved(s, t, j, phase, Owing);
  }

  lemma {:induction false} StepCosts(q: Query, s: State, e: Event)
    requires Handed(q, s) && Ended(q, s) && Can(q, s, e)
    ensures Handed(q, Next(q, s, e))
    ensures StepsLeft(q, Next(q, s, e)) < StepsLeft(q, s)
  {
    var t := Next(q, s, e);
    KeepsHanded(q, s, e);
    if e.Look? || e.Leave? {
      SamePhases(s, t);
    } else if e.Hand? {
      FreshJob(q, s);
      JobCosts(s, t, Jobs(q)[s.sent], Taken);
    } else {
      JobCosts(s, t, e.job, t.jobs[e.job]);
    }
  }

  lemma {:induction false} SamePhases(s: State, t: State)
    requires s.jobs == t.jobs
    ensures JobStepsLeft(s) == JobStepsLeft(t)
  {
    assert forall p :: In(t, p) == In(s, p);
  }

  /** No run is longer than this, and one that cannot go on is over. */
  lemma {:induction false} RunsEnd(q: Query, s: State, events: seq<Event>, t: State)
    requires Inv(q, s) && Runs(q, s, events, t) && q.workers > 0
    ensures |events| <= StepsLeft(q, s)
    ensures (forall e :: !Can(q, t, e)) ==> Finished(q, t)
    decreases |events|
  {
    if events == [] {
      if !Finished(q, t) {
        var e := NeverStuck(q, t);
      }
    } else {
      StepKeepsInv(q, s, events[0]);
      StepCosts(q, s, events[0]);
      RunsEnd(q, Next(q, s, events[0]), events[1..], t);
    }
  }
}
