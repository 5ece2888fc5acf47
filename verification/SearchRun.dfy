/** The parallel search that stops early: one dispatcher hands the transcripts out in order, and workers
    read them and mark which sessions have matched. Every shared access is a step of its own, and the
    steps of the dispatcher and of all the workers may come in any order. */
module SearchRun {
  import opened Collections
  import opened SearchPage

  /** What a scan of each transcript yields, and what was asked; a limit of 0 asks for the count alone. */
  datatype Query = Query(full: Hits, limit: int, perSession: nat, workers: nat)

  /** Where a transcript that was handed out stands: its worker has it, has counted its session as
      scanned, has written its hits, has marked its session and has yet to count it, is through. */
  datatype Phase = Taken | Counted | Written | Owing | Done

  datatype Door = Deciding | Sending | Closed

  datatype Board = Board(hits: Hits, matched: set<nat>, found: nat, scanned: nat)

  datatype State = State(sent: nat, door: Door, stopped: bool, idle: nat, gone: nat, jobs: map<Job, Phase>,
                         board: Board)

  datatype Event = Look | Hand | Count(job: Job) | Write(job: Job) | Flag(job: Job) | Add(job: Job) | Leave

  function Jobs(q: Query): seq<Job>
  {
    Order(q.full, |q.full|)
  }

  function NoHits(h: Hits): Hits
  {
    seq(|h|, u requires 0 <= u < |h| => seq(|h[u]|, m => []))
  }

  function Init(q: Query): State
  {
    State(0, Deciding, false, q.workers, 0, map[], Board(NoHits(q.full), {}, 0, 0))
  }

  predicate At(s: State, job: Job, phase: Phase)
  {
    job in s.jobs && s.jobs[job] == phase
  }

  predicate Can(q: Query, s: State, e: Event)
  {
    match e
    case Look => s.door == Deciding
    case Hand => s.door == Sending && s.idle > 0 && s.sent < |Jobs(q)|
    case Count(j) => At(s, j, Taken)
    case Write(j) => At(s, j, Counted) && IsJob(q.full, j) && IsJob(s.board.hits, j)
    case Flag(j) => At(s, j, Written) && IsJob(q.full, j)
    case Add(j) => At(s, j, Owing)
    case Leave => s.door == Closed && s.idle > 0
  }

  function Next(q: Query, s: State, e: Event): State
    requires Can(q, s, e)
  {
    match e
    case Look =>
      if s.sent == |Jobs(q)| then s.(door := Closed)
      else if q.limit > 0 && s.board.found >= q.limit then s.(door := Closed, stopped := true)
      else s.(door := Sending)
    case Hand =>
      s.(door := Deciding, sent := s.sent + 1, idle := s.idle - 1, jobs := s.jobs[Jobs(q)[s.sent] := Taken])
    case Count(j) =>
      s.(jobs := s.jobs[j := Counted],
         board := s.board.(scanned := s.board.scanned + if j.member == 0 then 1 else 0))
    case Write(j) =>
      s.(jobs := s.jobs[j := Written], board := s.board.(hits := Put(s.board.hits, j, HitsOf(q.full, j))))
    case Flag(j) =>
      if HitsOf(q.full, j) != [] && j.unit !in s.board.matched then
        s.(jobs := s.jobs[j := Owing], board := s.board.(matched := s.board.matched + {j.unit}))
      else s.(jobs := s.jobs[j := Done], idle := s.idle + 1)
    case Add(j) =>
      s.(jobs := s.jobs[j := Done], idle := s.idle + 1, board := s.board.(found := s.board.found + 1))
    case Leave => s.(idle := s.idle - 1, gone := s.gone + 1)
  }

  function Put(h: Hits, j: Job, hits: seq<Hit>): Hits
    requires IsJob(h, j)
  {
    h[j.unit := h[j.unit][j.member := hits]]
  }

  // What every step keeps

  /** The transcripts handed out are a prefix of the order. */
  ghost predicate Handed(q: Query, s: State)
  {
    && s.sent <= |Jobs(q)|
    && (s.door == Sending ==> s.sent < |Jobs(q)|)
    && (forall j :: j in s.jobs <==> j in Jobs(q)[..s.sent])
  }

  /** The dispatcher stops short only once as many sessions have matched as the page may hold. */
  ghost predicate Ended(q: Query, s: State)
  {
    && (s.stopped ==> s.door == Closed && 0 < q.limit <= s.board.found)
    && (s.door == Closed && !s.stopped ==> s.sent == |Jobs(q)|)
  }

  predicate HasWritten(s: State, j: Job)
  {
    j in s.jobs && s.jobs[j] != Taken && s.jobs[j] != Counted
  }

  ghost predicate Wrote(q: Query, s: State)
  {
    && |s.board.hits| == |q.full|
    && (forall u :: 0 <= u < |q.full| ==> |s.board.hits[u]| == |q.full[u]|)
    && (forall j :: IsJob(q.full, j) ==> HitsOf(s.board.hits, j) == if HasWritten(s, j) then HitsOf(q.full, j) else [])
  }

  predicate HasFlagged(q: Query, s: State, j: Job)
  {
    j in s.jobs && (s.jobs[j] == Owing || s.jobs[j] == Done) && IsJob(q.full, j) && HitsOf(q.full, j) != []
  }

  /** The sessions marked are exactly those with a hit that a worker has got past marking. */
  ghost predicate Marked(q: Query, s: State)
  {
    && (forall j :: HasFlagged(q, s, j) ==> j.unit in s.board.matched)
    && (forall u :: u in s.board.matched ==> exists j :: HasFlagged(q, s, j) && j.unit == u)
  }

  function In(s: State, phase: Phase): set<Job>
  {
    set j | j in s.jobs && s.jobs[j] == phase
  }

  function Read(s: State): set<Job>
  {
    set j | j in s.jobs && s.jobs[j] != Taken && j.member == 0
  }

  function Busy(s: State): set<Job>
  {
    set j | j in s.jobs && s.jobs[j] != Done
  }

  ghost predicate Counts(q: Query, s: State)
  {
    && s.board.found + |In(s, Owing)| == |s.board.matched|
    && s.board.scanned == |Read(s)|
    && s.idle + s.gone + |Busy(s)| == q.workers
    && (s.door != Closed ==> s.gone == 0)
  }

  ghost predicate Inv(q: Query, s: State)
  {
    Handed(q, s) && Ended(q, s) && Wrote(q, s) && Marked(q, s) && Counts(q, s)
  }

  lemma {:induction false} InitInv(q: Query)
    ensures Inv(q, Init(q))
  {
    var s := Init(q);
    assert In(s, Owing) == {} && Read(s) == {} && Busy(s) == {};
  }

  lemma {:induction false} KeepsHanded(q: Query, s: State, e: Event)
    requires Handed(q, s) && Ended(q, s) && Can(q, s, e)
    ensures Handed(q, Next(q, s, e)) && Ended(q, Next(q, s, e))
  {
    var t := Next(q, s, e);
    if e.Hand? {
      assert Jobs(q)[..t.sent] == Jobs(q)[..s.sent] + [Jobs(q)[s.sent]];
    }
  }

  /** The job about to be handed out was not handed out before. */
  lemma {:induction false} FreshJob(q: Query, s: State)
    requires Handed(q, s) && s.sent < |Jobs(q)|
    ensures Jobs(q)[s.sent] !in s.jobs && IsJob(q.full, Jobs(q)[s.sent])
  {
    OrderIsAll(q.full, |q.full|);
    assert Jobs(q)[s.sent] in Jobs(q);
  }

  lemma {:induction false} WritesOne(q: Query, s: State, j: Job)
    requires Wrote(q, s) && Can(q, s, Write(j))
    ensures Wrote(q, Next(q, s, Write(j)))
  {
  }

  /** No other step writes hits, nor takes any back. */
  lemma {:induction false} WrittenAlready(q: Query, s: State, e: Event)
    requires Handed(q, s) && Can(q, s, e) && !e.Write?
    ensures forall j :: IsJob(q.full, j) ==> (HasWritten(s, j) <==> HasWritten(Next(q, s, e), j))
  {
    if e.Hand? {
      FreshJob(q, s);
    }
  }

  lemma {:induction false} KeepsWrote(q: Query, s: State, e: Event)
    requires Handed(q, s) && Wrote(q, s) && Can(q, s, e)
    ensures Wrote(q, Next(q, s, e))
  {
    if e.Write? {
      WritesOne(q, s, e.job);
    } else {
      WrittenAlready(q, s, e);
    }
  }

  /** One step is past marking for one transcript more, or for none. */
  lemma {:induction false} FlaggedAfter(q: Query, s: State, e: Event)
    requires Handed(q, s) && Can(q, s, e)
    ensures forall j :: HasFlagged(q, s, j) ==> HasFlagged(q, Next(q, s, e), j)
    ensures forall j :: HasFlagged(q, Next(q, s, e), j) && !HasFlagged(q, s, j) ==> e == Flag(j)
  {
    if e.Hand? {
      FreshJob(q, s);
    }
  }

  lemma {:induction false} KeepsMarked(q: Query, s: State, e: Event)
    requires Handed(q, s) && Marked(q, s) && Can(q, s, e)
    ensures Marked(q, Next(q, s, e))
  {
    var t := Next(q, s, e);
    FlaggedAfter(q, s, e);
    forall u | u in t.board.matched ensures exists j :: HasFlagged(q, t, j) && j.unit == u {
      if u in s.board.matched {
        var j :| HasFlagged(q, s, j) && j.unit == u;
        assert HasFlagged(q, t, j);
      } else {
        assert HasFlagged(q, t, e.job);
      }
    }
  }

  /** One transcript changes its phase: what that does to the three counts. */
  lemma {:induction false} Moved(s: State, t: State, j: Job, phase: Phase)
    requires t.jobs == s.jobs[j := phase]
    ensures |In(t, Owing)| == |In(s, Owing)| + (if phase == Owing then 1 else 0) - (if At(s, j, Owing) then 1 else 0)
    ensures |Busy(t)| == |Busy(s)| + (if phase != Done then 1 else 0) - (if j in Busy(s) then 1 else 0)
    ensures |Read(t)|
         == |Read(s)| + (if phase != Taken && j.member == 0 then 1 else 0) - (if j in Read(s) then 1 else 0)
  {
    OneApart(In(s, Owing), In(t, Owing), j);
    OneApart(Busy(s), Busy(t), j);
    OneApart(Read(s), Read(t), j);
  }

  lemma {:induction false} KeepsCounts(q: Query, s: State, e: Event)
    requires Handed(q, s) && Counts(q, s) && Can(q, s, e)
    ensures Counts(q, Next(q, s, e))
  {
    var t := Next(q, s, e);
    if e.Look? || e.Leave? {
      assert In(t, Owing) == In(s, Owing) && Read(t) == Read(s) && Busy(t) == Busy(s);
    } else if e.Hand? {
      FreshJob(q, s);
      Moved(s, t, Jobs(q)[s.sent], Taken);
    } else {
      Moved(s, t, e.job, t.jobs[e.job]);
    }
  }

  lemma {:induction false} StepKeepsInv(q: Query, s: State, e: Event)
    requires Inv(q, s) && Can(q, s, e)
    ensures Inv(q, Next(q, s, e))
  {
    KeepsHanded(q, s, e);
    KeepsWrote(q, s, e);
    KeepsMarked(q, s, e);
    KeepsCounts(q, s, e);
  }

  // Whole runs

  ghost predicate Runs(q: Query, s: State, events: seq<Event>, t: State)
    decreases |events|
  {
    if events == [] then t == s
    else Can(q, s, events[0]) && Runs(q, Next(q, s, events[0]), events[1..], t)
  }

  lemma {:induction false} EveryRunKeepsInv(q: Query, s: State, events: seq<Event>, t: State)
    requires Inv(q, s) && Runs(q, s, events, t)
    ensures Inv(q, t)
    decreases |events|
  {
    if events != [] {
      StepKeepsInv(q, s, events[0]);
      EveryRunKeepsInv(q, Next(q, s, events[0]), events[1..], t);
    }
  }

  /** The dispatcher is through and every worker has gone: what the page is made from. */
  ghost predicate Finished(q: Query, s: State)
  {
    s.door == Closed && s.gone == q.workers
  }
}
