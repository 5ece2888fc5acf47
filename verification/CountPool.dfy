/** The background count: a queue and a set of paths under one lock, and a bounded pool of workers.
    The class holds the lock's critical sections, each one step; the lemmas are about every
    interleaving of such steps with the writers of the files. */
module CountPool {
  import opened ByteStrings
  import opened Lines
  import opened Options
  import opened Collections
  import opened CountStable

  type Path = nat

  const MAX_COUNT_WORKERS := 4

  /** What the lock guards. */
  datatype Pool = Pool(counts: map<Path, CountEntry>, counting: set<Path>, queue: seq<Path>, working: nat)

  function Limit(procs: nat): (limit: nat)
  {
    if procs < MAX_COUNT_WORKERS then procs else MAX_COUNT_WORKERS
  }

  /** queueCount: the banked count when it is of this very version, else the path is queued unless
      it is queued or in flight already, and the old count is answered meanwhile. */
  function Queued(p: Pool, path: Path, mod: int, size: nat): Pool
  {
    if path in p.counts && p.counts[path].size == size && p.counts[path].mod == mod then p
    else if path in p.counting then p
    else p.(counting := p.counting + {path}, queue := p.queue + [path])
  }

  function Answer(p: Pool, path: Path): Option<nat>
  {
    if path in p.counts then Some(p.counts[path].n) else None
  }

  /** startCounting: workers are added up to the limit, but no more than the queue is long. */
  function Started(p: Pool, limit: nat): Pool
  {
    var want := if limit < |p.queue| then limit else |p.queue|;
    p.(working := if p.working < want then want else p.working)
  }

  function Taken(p: Pool): Pool
    requires p.queue != []
  {
    p.(queue := p.queue[1..])
  }

  function Banked(p: Pool, path: Path, entry: Option<CountEntry>): Pool
  {
    p.(counting := p.counting - {path},
       counts := if entry.Some? then p.counts[path := entry.value] else p.counts)
  }

  function Kept(p: Pool, paths: set<Path>): Pool
  {
    p.(counts := map path | path in p.counts && path in paths :: p.counts[path])
  }

  /** The cache's count fields. Every method is one critical section of the lock. */
  class FileRecordCache {
    var counts: map<Path, CountEntry>
    var counting: set<Path>
    var queue: seq<Path>
    var working: nat

    function View(): Pool
      reads this
    {
      Pool(counts, counting, queue, working)
    }

    constructor ()
      ensures View() == Pool(map[], {}, [], 0)
    {
      counts, counting, queue, working := map[], {}, [], 0;
    }

    method QueueCount(path: Path, mod: int, size: nat) returns (n: Option<nat>)
      modifies this
      ensures View() == Queued(old(View()), path, mod, size)
      ensures n == Answer(old(View()), path)
    {
      if path in counts && counts[path].size == size && counts[path].mod == mod {
        return Some(counts[path].n);
      }
      if path !in counting {
        counting := counting + {path};
        queue := queue + [path];
      }
      n := if path in counts then Some(counts[path].n) else None;
    }

    /** Answers how many workers it started. */
    method StartCounting(procs: nat) returns (started: nat)
      modifies this
      ensures View() == Started(old(View()), Limit(procs))
      ensures working == old(working) + started
      ensures working >= old(working) && (started > 0 ==> working <= 4 && working <= procs && working <= |queue|)
      ensures working >= 4 || working >= procs || working >= |queue|
    {
      var limit := if procs < MAX_COUNT_WORKERS then procs else MAX_COUNT_WORKERS;
      started := 0;
      while working < limit && working < |queue|
        invariant working == old(working) + started
        invariant started > 0 ==> working <= limit && working <= |queue|
        invariant counts == old(counts) && counting == old(counting) && queue == old(queue)
        decreases limit - working
      {
        working := working + 1;
        started := started + 1;
      }
    }

    /** A worker comes for work, and leaves for good when there is none. */
    method Take() returns (path: Option<Path>)
      requires working > 0
      modifies this
      ensures path.None? <==> old(queue) == []
      ensures path.None? ==> View() == old(View()).(working := old(working) - 1)
      ensures path.Some? ==> path.value == old(queue)[0] && View() == Taken(old(View()))
    {
      if |queue| == 0 {
        working := working - 1;
        return None;
      }
      path := Some(queue[0]);
      queue := queue[1..];
    }

    method Bank(path: Path, entry: Option<CountEntry>)
      modifies this
      ensures View() == Banked(old(View()), path, entry)
    {
      counting := counting - {path};
      if entry.Some? {
        counts := counts[path := entry.value];
      }
    }

    method KeepCounts(paths: set<Path>)
      modifies this
      ensures View() == Kept(old(View()), paths)
      ensures counts.Keys == old(counts).Keys * paths
      ensures forall path :: path in counts ==> counts[path] == old(counts)[path]
      ensures counting == old(counting) && queue == old(queue) && working == old(working)
    {
      counts := map path | path in counts && path in paths :: counts[path];
    }
  }

  /** A file, which its writer may append to at any moment. */
  datatype File = File(content: Bytes, mod: int)

  /** How far the scan of one path has come: not begun, the file's time and size known, the banked entry
      read too, reading on from a place when the file was `at` bytes, a number in hand, an entry to bank or
      none. */
  datatype Scan =
    | Fresh
    | Statted(mod: int, size: nat)
    | Informed(mod: int, size: nat, prev: Option<CountEntry>)
    | Scanning(mod: int, size: nat, from: nat, base: nat, at: nat)
    | Counted(mod: int, size: nat, n: nat)
    | Over(entry: Option<CountEntry>)

  datatype Step = Stat | ReadBanked | BeginScan(resume: bool) | EndScan(n: nat) | StatAgain(tail: Print)
                | GiveUp(failed: bool)

  /** The tests of a resume. A fingerprint that could not be taken tells nothing. */
  ghost predicate ResumeFrom(prev: Option<CountEntry>, size: nat, content: Bytes)
  {
    && prev.Some? && prev.value.size < size && prev.value.size <= |content|
    && (prev.value.size > 0 ==> content[prev.value.size - 1] == NEWLINE)
    && (prev.value.tail == NoPrint || prev.value.tail == TailPrint(content, prev.value.size))
  }

  /** One step of countStable. A scan that the writer overlapped may end with any number. */
  ghost predicate ScanNext(s: Scan, step: Step, s': Scan, banked: Option<CountEntry>, file: File, counter: Counter)
  {
    match step
    case Stat => s.Fresh? && s' == Statted(file.mod, |file.content|)
    case ReadBanked => s.Statted? && s' == Informed(s.mod, s.size, banked)
    case BeginScan(resume) =>
      && s.Informed? && (resume ==> ResumeFrom(s.prev, s.size, file.content))
      && s' == Scanning(s.mod, s.size, if resume then s.prev.value.size else 0, if resume then s.prev.value.n else 0,
                        |file.content|)
    case EndScan(n) =>
      && s.Scanning? && s' == Counted(s.mod, s.size, n)
      && (|file.content| == s.at && s.from <= s.at ==>
            n == ScanCount(counter, file.content, s.from, s.base) || HasLong(file.content))
    case StatAgain(tail) =>
      // the time and the size are what they were: only then is the number worth anything
      && s.Counted? && file.mod == s.mod && |file.content| == s.size
      && (tail == NoPrint || tail == TailPrint(file.content, s.size))
      && s' == Over(Some(CountEntry(s.mod, s.size, s.n, tail)))
    case GiveUp(failed) =>
      // a stat failed, or the second one found a changed file
      && (s.Fresh? || s.Counted?) && s' == Over(None)
      && (!failed ==> s.Counted? && (file.mod != s.mod || |file.content| != s.size))
  }

  /** The whole system: the pool, its workers (each with a path, or about to look for one), the scans under
      way, the callers between queueing and starting workers, and the files. */
  datatype World = World(
    pool: Pool,
    workers: map<nat, Option<Path>>,
    scans: map<nat, Scan>,
    callers: nat,
    files: map<Path, File>)

  datatype Event =
    | Enter                                                   // a caller is about to queue paths
    | Queue(path: Path, mod: int, size: nat)
    | Start(ids: set<nat>)                                    // that caller starts workers
    | Take(worker: nat)
    | Leave(worker: nat)
    | Count(worker: nat, step: Step)
    | Bank(worker: nat)
    | Keep(paths: set<Path>)
    | Append(path: Path, more: Bytes, time: int)

  function FileOf(w: World, path: Path): File
  {
    if path in w.files then w.files[path] else File([], 0)
  }

  function BankedFor(w: World, path: Path): Option<CountEntry>
  {
    if path in w.pool.counts then Some(w.pool.counts[path]) else None
  }

  ghost predicate Next(w: World, e: Event, w': World, limit: nat, counter: Counter)
  {
    match e
    case Enter => w' == w.(callers := w.callers + 1)
    case Queue(path, mod, size) =>
      w.callers > 0 && w' == w.(pool := Queued(w.pool, path, mod, size))
    case Start(ids) =>
      && w.callers > 0 && ids !! w.workers.Keys
      && |ids| == Started(w.pool, limit).working - w.pool.working
      && w' == w.(pool := Started(w.pool, limit), callers := w.callers - 1,
                  workers := w.workers + map id | id in ids :: None)
    case Take(id) =>
      && id in w.workers && w.workers[id].None? && w.pool.queue != []
      && w' == w.(pool := Taken(w.pool), workers := w.workers[id := Some(w.pool.queue[0])],
                  scans := w.scans[id := Fresh])
    case Leave(id) =>
      && id in w.workers && w.workers[id].None? && w.pool.queue == []
      && w.pool.working > 0
      && w' == w.(pool := w.pool.(working := w.pool.working - 1), workers := w.workers - {id})
    case Count(id, step) =>
      && id in w.scans && id in w.workers && w.workers[id].Some? && id in w'.scans
      && ScanNext(w.scans[id], step, w'.scans[id], BankedFor(w, w.workers[id].value), FileOf(w, w.workers[id].value),
                  counter)
      && w' == w.(scans := w.scans[id := w'.scans[id]])
    case Bank(id) =>
      && id in w.scans && w.scans[id].Over? && id in w.workers && w.workers[id].Some?
      && w' == w.(pool := Banked(w.pool, w.workers[id].value, w.scans[id].entry), workers := w.workers[id := None],
                  scans := w.scans - {id})
    case Keep(paths) => w' == w.(pool := Kept(w.pool, paths))
    case Append(path, more, time) => w' == w.(files := w.files[path := File(FileOf(w, path).content + more, time)])
  }

  ghost predicate InFlight(w: World, path: Path)
  {
    exists id :: id in w.workers && w.workers[id] == Some(path)
  }

  /** counting is exactly what is queued or in flight, each path once. */
  ghost predicate Accounted(w: World)
  {
    && (forall path :: path in w.pool.counting <==> path in w.pool.queue || InFlight(w, path))
    && (forall path :: path in w.pool.queue ==> !InFlight(w, path))
    && (forall i, j :: 0 <= i < j < |w.pool.queue| ==> w.pool.queue[i] != w.pool.queue[j])
    && (forall a, b :: a in w.workers && b in w.workers && a != b && w.workers[a].Some? ==>
          w.workers[a] != w.workers[b])
  }

  function Min(a: nat, b: nat): nat { if a < b then a else b }

  /** The counter of workers is their number, and the queue always has the workers it may have. */
  ghost predicate Staffed(w: World, limit: nat)
  {
    && w.pool.working == |w.workers.Keys|
    && w.pool.working <= limit
    && (w.callers == 0 ==> w.pool.working >= Min(limit, |w.pool.queue|))
  }

  ghost predicate CountsGood(w: World, counter: Counter)
  {
    forall path :: path in w.pool.counts ==> Good(w.pool.counts[path], counter, FileOf(w, path).content)
  }

  /** What a scan under way may rely on, of a file that is only appended to. */
  ghost predicate ScanGood(s: Scan, counter: Counter, content: Bytes)
  {
    match s
    case Fresh => true
    case Statted(_, size) => size <= |content|
    case Informed(_, size, prev) => size <= |content| && (prev.Some? ==> Good(prev.value, counter, content))
    case Scanning(_, size, from, base, at) =>
      && size <= at <= |content| && from <= size
      && (from > 0 ==>
            && content[from - 1] == NEWLINE
            && (base == FullCount(counter, content[..from]) || HasLong(content[..from])))
    case Counted(_, size, n) =>
      && size <= |content|
      && (size == |content| ==> n == FullCount(counter, content) || HasLong(content))
    case Over(entry) => entry.Some? ==> Good(entry.value, counter, content)
  }

  /** Every path in flight is being scanned, and nothing else; and the scans are sound. */
  ghost predicate ScansGood(w: World, counter: Counter)
  {
    && (forall id :: id in w.scans <==> id in w.workers && w.workers[id].Some?)
    && (forall id :: id in w.scans && id in w.workers && w.workers[id].Some? ==>
          ScanGood(w.scans[id], counter, FileOf(w, w.workers[id].value).content))
  }

  ghost predicate Inv(w: World, limit: nat, counter: Counter)
  {
    Accounted(w) && Staffed(w, limit) && CountsGood(w, counter) && ScansGood(w, counter)
  }

  ghost predicate Init(w: World)
  {
    w.pool == Pool(map[], {}, [], 0) && w.workers == map[] && w.scans == map[] && w.callers == 0
  }

  /** How one step changes what is in flight. */
  lemma {:induction false} FlightAfter(w: World, e: Event, w': World, limit: nat, counter: Counter, path: Path)
    requires Accounted(w) && Next(w, e, w', limit, counter)
    ensures InFlight(w', path)
       <==> match e
            case Take(_) => InFlight(w, path) || path == w.pool.queue[0]
            case Bank(id) => InFlight(w, path) && w.workers[id] != Some(path)
            case _ => InFlight(w, path)
  {
    if InFlight(w, path) {
      var id :| id in w.workers && w.workers[id] == Some(path);
      assert id in w'.workers || e.Leave?;
      assert !(e.Bank? && e.worker == id) ==> id in w'.workers && w'.workers[id] == Some(path);
    }
    if InFlight(w', path) {
      var id :| id in w'.workers && w'.workers[id] == Some(path);
      assert !(e.Take? && e.worker == id) ==> id in w.workers && w.workers[id] == Some(path);
    }
    if e.Take? {
      assert w'.workers[e.worker] == Some(w.pool.queue[0]);
    }
  }

  lemma {:induction false} StepKeepsAccounts(w: World, e: Event, w': World, limit: nat, counter: Counter)
    requires Accounted(w) && Next(w, e, w', limit, counter)
    ensures Accounted(w')
  {
    forall path
      ensures path in w'.pool.counting <==> path in w'.pool.queue || InFlight(w', path)
      ensures path in w'.pool.queue ==> !InFlight(w', path)
    {
      FlightAfter(w, e, w', limit, counter, path);
      if e.Take? {
        assert w.pool.queue == [w.pool.queue[0]] + w'.pool.queue;
        assert InFlight(w, w.pool.queue[0]) ==> false;
      }
    }
    if e.Take? {
      forall a | a in w.workers && w.workers[a].Some? ensures w.workers[a] != Some(w.pool.queue[0]) {
        assert w.workers[a] == Some(w.pool.queue[0]) ==> InFlight(w, w.pool.queue[0]);
      }
    }
  }

  lemma {:induction false} WorkersStayCounted(w: World, e: Event, w': World, limit: nat, counter: Counter)
    requires w.pool.working == |w.workers.Keys| && Next(w, e, w', limit, counter)
    ensures w'.pool.working == |w'.workers.Keys|
  {
    if e.Start? {
      MoreWorkers(w, e, w', limit, counter);
    } else if e.Leave? {
      FewerWorkers(w, e, w', limit, counter);
    } else {
      SameWorkers(w, e, w', limit, counter);
    }
  }

  lemma {:induction false} MoreWorkers(w: World, e: Event, w': World, limit: nat, counter: Counter)
    requires Next(w, e, w', limit, counter) && e.Start?
    ensures |w'.workers.Keys| - |w.workers.Keys| == w'.pool.working - w.pool.working
  {
    KeysAdded(w.workers, e.ids, w'.workers);
  }

  lemma {:induction false} KeysAdded(workers: map<nat, Option<Path>>, ids: set<nat>, more: map<nat, Option<Path>>)
    requires ids !! workers.Keys && more == workers + map id | id in ids :: None
    ensures |more.Keys| == |workers.Keys| + |ids|
  {
    assert more.Keys == workers.Keys + ids;
  }

  lemma {:induction false} FewerWorkers(w: World, e: Event, w': World, limit: nat, counter: Counter)
    requires Next(w, e, w', limit, counter) && e.Leave?
    ensures |w'.workers.Keys| - |w.workers.Keys| == w'.pool.working - w.pool.working
  {
    assert w'.workers.Keys == w.workers.Keys - {e.worker};
  }

  lemma {:induction false} SameWorkers(w: World, e: Event, w': World, limit: nat, counter: Counter)
    requires Next(w, e, w', limit, counter) && !e.Start? && !e.Leave?
    ensures w'.workers.Keys == w.workers.Keys && w'.pool.working == w.pool.working
  {
  }

  lemma {:induction false} StepKeepsStaff(w: World, e: Event, w': World, limit: nat, counter: Counter)
    requires Staffed(w, limit) && Next(w, e, w', limit, counter)
    ensures Staffed(w', limit)
  {
    WorkersStayCounted(w, e, w', limit, counter);
  }

  /** What an append leaves of that. */
  lemma {:induction false} ScanStays(s: Scan, counter: Counter, content: Bytes, later: Bytes)
    requires ScanGood(s, counter, content) && content <= later
    ensures ScanGood(s, counter, later)
  {
    if s.Informed? && s.prev.Some? {
      GoodStays(s.prev.value, counter, content, later);
    } else if s.Over? && s.entry.Some? {
      GoodStays(s.entry.value, counter, content, later);
    } else if s.Scanning? && s.from > 0 {
      assert content[..s.from] == later[..s.from];
    } else if s.Counted? && s.size == |later| {
      assert content == later;
    }
  }

  lemma {:induction false} ScanStepGood(s: Scan, step: Step, s': Scan, banked: Option<CountEntry>, file: File,
                                        counter: Counter)
    requires counter.Valid() && ScanNext(s, step, s', banked, file, counter)
    requires ScanGood(s, counter, file.content)
    requires banked.Some? ==> Good(banked.value, counter, file.content)
    ensures ScanGood(s', counter, file.content)
  {
    if step.EndScan? {
      if s.size == |file.content| {
        QuietScan(counter, file.content, s.from, s.base);
      }
    } else if step.StatAgain? {
      assert file.content[..s.size] == file.content;
    }
  }

  lemma {:induction false} StepKeepsScans(w: World, e: Event, w': World, limit: nat, counter: Counter)
    requires ScansGood(w, counter) && CountsGood(w, counter) && counter.Valid() && Next(w, e, w', limit, counter)
    ensures ScansGood(w', counter)
  {
    forall id | id in w'.scans && id in w'.workers && w'.workers[id].Some?
      ensures ScanGood(w'.scans[id], counter, FileOf(w', w'.workers[id].value).content)
    {
      ScanAfter(w, e, w', limit, counter, id);
    }
  }

  lemma {:induction false} ScanAfter(w: World, e: Event, w': World, limit: nat, counter: Counter, id: nat)
    requires ScansGood(w, counter) && CountsGood(w, counter) && counter.Valid() && Next(w, e, w', limit, counter)
    requires id in w'.scans && id in w'.workers && w'.workers[id].Some?
    ensures ScanGood(w'.scans[id], counter, FileOf(w', w'.workers[id].value).content)
  {
    if e.Count? && e.worker == id {
      var path := w.workers[id].value;
      ScanStepGood(w.scans[id], e.step, w'.scans[id], BankedFor(w, path), FileOf(w, path), counter);
    } else if e.Append? {
      var path := w.workers[id].value;
      ScanStays(w.scans[id], counter, FileOf(w, path).content, FileOf(w', path).content);
    }
  }

  lemma {:induction false} CountAfter(w: World, e: Event, w': World, limit: nat, counter: Counter, path: Path)
    requires ScansGood(w, counter) && Next(w, e, w', limit, counter) && path in w'.pool.counts
    requires path in w.pool.counts ==> Good(w.pool.counts[path], counter, FileOf(w, path).content)
    ensures Good(w'.pool.counts[path], counter, FileOf(w', path).content)
  {
    if path in w.pool.counts && w.pool.counts[path] == w'.pool.counts[path] {
      GoodStays(w.pool.counts[path], counter, FileOf(w, path).content, FileOf(w', path).content);
    }
  }

  /** What is banked is true of its file. */
  lemma {:induction false} StepKeepsCounts(w: World, e: Event, w': World, limit: nat, counter: Counter)
    requires CountsGood(w, counter) && ScansGood(w, counter) && Next(w, e, w', limit, counter)
    ensures CountsGood(w', counter)
  {
    forall path | path in w'.pool.counts ensures Good(w'.pool.counts[path], counter, FileOf(w', path).content) {
      CountAfter(w, e, w', limit, counter, path);
    }
  }

  /** A run: states and the events between them, in any interleaving. */
  ghost predicate Run(ws: seq<World>, es: seq<Event>, limit: nat, counter: Counter)
  {
    && |ws| == |es| + 1 && Init(ws[0]) && counter.Valid()
    && (forall k :: 0 <= k < |es| ==> Next(ws[k], es[k], ws[k + 1], limit, counter))
  }

  lemma {:induction false} EveryRunKeepsInv(ws: seq<World>, es: seq<Event>, limit: nat, counter: Counter, k: nat)
    requires Run(ws, es, limit, counter) && k < |ws|
    ensures Inv(ws[k], limit, counter)
  {
    if k > 0 {
      EveryRunKeepsInv(ws, es, limit, counter, k - 1);
      StepKeepsAccounts(ws[k - 1], es[k - 1], ws[k], limit, counter);
      StepKeepsStaff(ws[k - 1], es[k - 1], ws[k], limit, counter);
      StepKeepsCounts(ws[k - 1], es[k - 1], ws[k], limit, counter);
      StepKeepsScans(ws[k - 1], es[k - 1], ws[k], limit, counter);
    } else {
      assert ws[0].workers.Keys == {};
    }
  }

  /** In every reachable state no path is scanned twice at once, nor scanned while it is queued, and
      the pool stays within its limit. */
  lemma {:induction false} NoPathScannedTwice(ws: seq<World>, es: seq<Event>, limit: nat, counter: Counter, k: nat,
                                              a: nat, b: nat)
    requires Run(ws, es, limit, counter) && k < |ws|
    requires a in ws[k].workers && b in ws[k].workers && ws[k].workers[a].Some?
    ensures a != b ==> ws[k].workers[a] != ws[k].workers[b]
    ensures ws[k].workers[a].value !in ws[k].pool.queue && ws[k].workers[a].value in ws[k].pool.counting
    ensures |ws[k].workers.Keys| <= limit
  {
    EveryRunKeepsInv(ws, es, limit, counter, k);
    assert InFlight(ws[k], ws[k].workers[a].value);
  }

  /** No wakeup is lost: with no caller between queueing and starting workers, queued work has a
      worker, and once the last worker has left nothing is queued or marked as being counted. */
  lemma {:induction false} NoLostWakeup(ws: seq<World>, es: seq<Event>, limit: nat, counter: Counter, k: nat)
    requires Run(ws, es, limit, counter) && k < |ws|
    requires limit > 0 && ws[k].callers == 0
    ensures ws[k].pool.queue != [] ==> ws[k].workers.Keys != {}
    ensures ws[k].workers.Keys == {} ==> ws[k].pool.queue == [] && ws[k].pool.counting == {}
  {
    var w := ws[k];
    EveryRunKeepsInv(ws, es, limit, counter, k);
    if w.workers.Keys == {} {
      forall path ensures path !in w.pool.counting {
        assert !InFlight(w, path);
      }
    }
  }

  ghost function Busy(w: World): set<nat>
  {
    set id | id in w.workers && w.workers[id].Some?
  }

  function StepsLeft(s: Scan): nat
  {
    match s
    case Fresh => 5
    case Statted(_, _) => 4
    case Informed(_, _, _) => 3
    case Scanning(_, _, _, _, _) => 2
    case Counted(_, _, _) => 1
    case Over(_) => 0
  }

  /** The scans with at least k steps to go. */
  ghost function Ahead(w: World, k: nat): set<nat>
  {
    set id | id in w.scans && StepsLeft(w.scans[id]) >= k
  }

  ghost function ScanLeft(w: World): nat
  {
    |Ahead(w, 1)| + |Ahead(w, 2)| + |Ahead(w, 3)| + |Ahead(w, 4)| + |Ahead(w, 5)|
  }

  ghost function WorkLeft(w: World): nat
  {
    8 * |w.pool.queue| + |w.workers.Keys| + |Busy(w)| + ScanLeft(w)
  }

  ghost predicate WorkerStep(e: Event)
  {
    e.Take? || e.Leave? || e.Count? || e.Bank?
  }

  lemma {:induction false} AheadAfter(w: World, w': World, id: nat, k: nat)
    requires w'.scans - {id} == w.scans - {id}
    ensures |Ahead(w', k)|
         == |Ahead(w, k)| + (if id in Ahead(w', k) then 1 else 0) - (if id in Ahead(w, k) then 1 else 0)
  {
    forall i ensures i in Ahead(w, k) - {id} <==> i in Ahead(w', k) - {id} {
      assert i in (w.scans - {id}) <==> i in w.scans && i != id;
      if i in w.scans && i != id {
        assert (w.scans - {id})[i] == w.scans[i] && (w'.scans - {id})[i] == w'.scans[i];
      }
    }
    OneApart(Ahead(w, k), Ahead(w', k), id);
  }

  function ToGo(w: World, id: nat): nat
  {
    if id in w.scans then StepsLeft(w.scans[id]) else 0
  }

  /** One scan moved on, came or went: what that does to the steps to go. */
  lemma {:induction false} ScanLeftAfter(w: World, w': World, id: nat)
    requires w'.scans - {id} == w.scans - {id}
    ensures ScanLeft(w') == ScanLeft(w) + ToGo(w', id) - ToGo(w, id)
  {
    AheadAfter(w, w', id, 1);
    AheadAfter(w, w', id, 2);
    AheadAfter(w, w', id, 3);
    AheadAfter(w, w', id, 4);
    AheadAfter(w, w', id, 5);
  }

  lemma {:induction false} OneScanMoves(w: World, e: Event, w': World, limit: nat, counter: Counter)
    requires ScansGood(w, counter) && Next(w, e, w', limit, counter) && WorkerStep(e)
    ensures w'.scans - {e.worker} == w.scans - {e.worker}
    ensures e.Take? ==> ToGo(w', e.worker) == 5
    ensures e.Count? ==> ToGo(w', e.worker) < ToGo(w, e.worker)
    ensures !e.Take? ==> ToGo(w', e.worker) <= ToGo(w, e.worker)
  {
  }

  lemma {:induction false} QueueAfter(w: World, e: Event, w': World, limit: nat, counter: Counter)
    requires Next(w, e, w', limit, counter) && WorkerStep(e)
    ensures |w.pool.queue| == |w'.pool.queue| + if e.Take? then 1 else 0
  {
  }

  lemma {:induction false} BusyAfter(w: World, e: Event, w': World, limit: nat, counter: Counter)
    requires Next(w, e, w', limit, counter) && WorkerStep(e)
    ensures |Busy(w')| == |Busy(w)| + (if e.Take? then 1 else 0) - (if e.Bank? then 1 else 0)
  {
    OneApart(Busy(w), Busy(w'), e.worker);
  }

  lemma {:induction false} WorkersAfter(w: World, e: Event, w': World, limit: nat, counter: Counter)
    requires Next(w, e, w', limit, counter) && WorkerStep(e)
    ensures |w'.workers.Keys| == |w.workers.Keys| - if e.Leave? then 1 else 0
  {
    OneApart(w.workers.Keys, w'.workers.Keys, e.worker);
  }

  /** Left to themselves the workers finish: each of their steps uses up work, and a worker can
      always take one. */
  lemma {:induction false} WorkersFinish(w: World, e: Event, w': World, limit: nat, counter: Counter)
    requires ScansGood(w, counter) && Next(w, e, w', limit, counter) && WorkerStep(e)
    ensures WorkLeft(w') < WorkLeft(w)
  {
    OneScanMoves(w, e, w', limit, counter);
    QueueAfter(w, e, w', limit, counter);
    BusyAfter(w, e, w', limit, counter);
    WorkersAfter(w, e, w', limit, counter);
    ScanLeftAfter(w, w', e.worker);
  }

  /** A scan always has a next step, and it is to give up only when the file has changed. */
  lemma {:induction false} ScanGoesOn(s: Scan, banked: Option<CountEntry>, file: File, counter: Counter)
    returns (step: Step, after: Scan)
    requires !s.Over?
    ensures ScanNext(s, step, after, banked, file, counter) && step != GiveUp(true)
    ensures s.Informed? && s.prev.Some? && 0 < s.prev.value.size < s.size <= |file.content|
            && file.content[s.prev.value.size - 1] == NEWLINE
            && s.prev.value.tail == TailPrint(file.content, s.prev.value.size) ==>
              after.Scanning? && after.from == s.prev.value.size && after.base == s.prev.value.n
    ensures s.Counted? && file.mod == s.mod && |file.content| == s.size ==>
              after == Over(Some(CountEntry(s.mod, s.size, s.n, TailPrint(file.content, s.size))))
  {
    match s
    case Fresh => step, after := Stat, Statted(file.mod, |file.content|);
    case Statted(mod, size) => step, after := ReadBanked, Informed(mod, size, banked);
    case Informed(mod, size, prev) =>
      if ResumeFrom(prev, size, file.content) {
        step, after := BeginScan(true), Scanning(mod, size, prev.value.size, prev.value.n, |file.content|);
      } else {
        step, after := BeginScan(false), Scanning(mod, size, 0, 0, |file.content|);
      }
    case Scanning(mod, size, from, base, at) =>
      var n := if from <= |file.content| then ScanCount(counter, file.content, from, base) else 0;
      step, after := EndScan(n), Counted(mod, size, n);
    case Counted(mod, size, n) =>
      if file.mod == mod && |file.content| == size {
        var tail := TailPrint(file.content, size);
        step, after := StatAgain(tail), Over(Some(CountEntry(mod, size, n, tail)));
      } else {
        step, after := GiveUp(false), Over(None);
      }
  }

  /** A scan given up because its file could not be looked at. */
  predicate StatFails(e: Event)
  {
    e.Count? && e.step == GiveUp(true)
  }

  /** A worker always has a step to take, without any stat failing. */
  lemma {:induction false} WorkerNeverStuck(w: World, limit: nat, counter: Counter, id: nat)
    requires Staffed(w, limit) && ScansGood(w, counter) && id in w.workers
    ensures exists e: Event, w': World ::
              WorkerStep(e) && e.worker == id && !StatFails(e) && Next(w, e, w', limit, counter)
  {
    assert w.workers.Keys != {};
    if w.workers[id].Some? {
      assert id in w.scans;
      if w.scans[id].Over? {
        var w' := w.(pool := Banked(w.pool, w.workers[id].value, w.scans[id].entry), workers := w.workers[id := None],
                     scans := w.scans - {id});
        assert Next(w, Bank(id), w', limit, counter);
      } else {
        var path := w.workers[id].value;
        var step, after := ScanGoesOn(w.scans[id], BankedFor(w, path), FileOf(w, path), counter);
        var w' := w.(scans := w.scans[id := after]);
        assert Next(w, Count(id, step), w', limit, counter);
      }
    } else if w.pool.queue != [] {
      var w' := w.(pool := Taken(w.pool), workers := w.workers[id := Some(w.pool.queue[0])],
                   scans := w.scans[id := Fresh]);
      assert Next(w, Take(id), w', limit, counter);
    } else {
      var w' := w.(pool := w.pool.(working := w.pool.working - 1), workers := w.workers - {id});
      assert Next(w, Leave(id), w', limit, counter);
    }
  }

  /** A count answered for the file's present size is the count of the file as it is. */
  lemma {:induction false} AnswerForPresentSize(ws: seq<World>, es: seq<Event>, limit: nat, counter: Counter, k: nat,
                                                path: Path)
    requires Run(ws, es, limit, counter) && k < |ws|
    requires path in ws[k].pool.counts && ws[k].pool.counts[path].size == |FileOf(ws[k], path).content|
    ensures var file := FileOf(ws[k], path).content;
            Answer(ws[k].pool, path) == Some(FullCount(counter, file)) || HasLong(file)
  {
    EveryRunKeepsInv(ws, es, limit, counter, k);
    var file := FileOf(ws[k], path).content;
    assert file[..|file|] == file;
  }

  // What is queued is counted

  /** An entry or a scan of the file as it is. */
  predicate OfVersion(mod: int, size: nat, file: File)
  {
    mod == file.mod && size == |file.content|
  }

  predicate ScanOf(s: Scan, file: File)
  {
    match s
    case Fresh => true
    case Statted(mod, size) => OfVersion(mod, size, file)
    case Informed(mod, size, _) => OfVersion(mod, size, file)
    case Scanning(mod, size, _, _, _) => OfVersion(mod, size, file)
    case Counted(mod, size, _) => OfVersion(mod, size, file)
    case Over(entry) => entry.Some? && OfVersion(entry.value.mod, entry.value.size, file)
  }

  /** A worker scans the file as it is. */
  ghost predicate ScannedBy(w: World, id: nat, path: Path)
  {
    id in w.workers && w.workers[id] == Some(path) && id in w.scans && ScanOf(w.scans[id], FileOf(w, path))
  }

  /** The count of the file as it is has been banked. */
  predicate IsBanked(w: World, path: Path)
  {
    && path in w.pool.counts
    && OfVersion(w.pool.counts[path].mod, w.pool.counts[path].size, FileOf(w, path))
  }

  /** The file is queued, or is being scanned as it is, or has been counted as it is. */
  ghost predicate Underway(w: World, path: Path)
  {
    || path in w.pool.queue
    || (exists id :: ScannedBy(w, id, path))
    || (path !in w.pool.counting && IsBanked(w, path))
  }

  /** The file is not written to, its count not dropped, and it can be looked at. */
  ghost predicate LeftAlone(w: World, e: Event, path: Path)
  {
    && (e.Append? ==> e.path != path)
    && (e.Keep? ==> path in e.paths)
    && (StatFails(e) ==> e.worker in w.workers && w.workers[e.worker] != Some(path))
  }

  lemma {:induction false} QueuedOn(w: World, e: Event, w': World, limit: nat, counter: Counter, path: Path)
    requires Next(w, e, w', limit, counter) && path in w.pool.queue
    ensures Underway(w', path)
  {
    if e.Take? {
      assert w.pool.queue == [w.pool.queue[0]] + w'.pool.queue;
      assert path == w.pool.queue[0] ==> ScannedBy(w', e.worker, path);
    }
  }

  lemma {:induction false} ScanOn(s: Scan, step: Step, s': Scan, banked: Option<CountEntry>, file: File,
                                  counter: Counter)
    requires ScanNext(s, step, s', banked, file, counter) && ScanOf(s, file) && step != GiveUp(true)
    ensures ScanOf(s', file)
  {
  }

  lemma {:induction false} ScannedOn(w: World, e: Event, w': World, limit: nat, counter: Counter, path: Path, id: nat)
    requires Next(w, e, w', limit, counter) && LeftAlone(w, e, path) && ScannedBy(w, id, path)
    ensures Underway(w', path)
  {
    if e.Count? && e.worker == id {
      ScanOn(w.scans[id], e.step, w'.scans[id], BankedFor(w, path), FileOf(w, path), counter);
      assert ScannedBy(w', id, path);
    } else if e.Bank? && e.worker == id {
      assert path !in w'.pool.counting && IsBanked(w', path);
    } else {
      assert ScannedBy(w', id, path);
    }
  }

  lemma {:induction false} BankedOn(w: World, e: Event, w': World, limit: nat, counter: Counter, path: Path)
    requires Accounted(w) && Next(w, e, w', limit, counter) && LeftAlone(w, e, path)
    requires path !in w.pool.counting && IsBanked(w, path)
    ensures Underway(w', path)
  {
    if e.Bank? {
      assert InFlight(w, w.workers[e.worker].value);
    }
  }

  lemma {:induction false} StaysUnderway(w: World, e: Event, w': World, limit: nat, counter: Counter, path: Path)
    requires Accounted(w) && Next(w, e, w', limit, counter) && LeftAlone(w, e, path) && Underway(w, path)
    ensures Underway(w', path)
  {
    if path in w.pool.queue {
      QueuedOn(w, e, w', limit, counter, path);
    } else if id :| ScannedBy(w, id, path) {
      ScannedOn(w, e, w', limit, counter, path, id);
    } else {
      BankedOn(w, e, w', limit, counter, path);
    }
  }

  lemma {:induction false} UnderwayNext(ws: seq<World>, es: seq<Event>, limit: nat, counter: Counter, k: nat,
                                        path: Path)
    requires Run(ws, es, limit, counter) && k < |es| && LeftAlone(ws[k], es[k], path) && Underway(ws[k], path)
    ensures Underway(ws[k + 1], path)
  {
    EveryRunKeepsInv(ws, es, limit, counter, k);
    StaysUnderway(ws[k], es[k], ws[k + 1], limit, counter, path);
  }

  lemma {:induction false} UnderwayTo(ws: seq<World>, es: seq<Event>, limit: nat, counter: Counter, j: nat, k: nat,
                                      path: Path)
    requires Run(ws, es, limit, counter) && j <= k < |ws| && Underway(ws[j], path)
    requires forall i :: j <= i < k ==> LeftAlone(ws[i], es[i], path)
    ensures Underway(ws[k], path)
  {
    if j < k {
      UnderwayTo(ws, es, limit, counter, j, k - 1, path);
      UnderwayNext(ws, es, limit, counter, k - 1, path);
    }
  }

  lemma {:induction false} UnderwayNoMore(w: World, path: Path)
    requires Accounted(w) && Underway(w, path) && path !in w.pool.counting
    ensures IsBanked(w, path)
  {
    assert forall id :: ScannedBy(w, id, path) ==> InFlight(w, path);
  }

  lemma {:induction false} UnderwayIsCounted(ws: seq<World>, es: seq<Event>, limit: nat, counter: Counter, j: nat,
                                             k: nat, path: Path)
    requires Run(ws, es, limit, counter) && j <= k < |ws| && Underway(ws[j], path)
    requires forall i :: j <= i < k ==> LeftAlone(ws[i], es[i], path)
    ensures (limit > 0 && ws[k].callers == 0 && ws[k].workers.Keys == {}) ==> path !in ws[k].pool.counting
    ensures path !in ws[k].pool.counting ==>
              && IsBanked(ws[k], path)
              && (Answer(ws[k].pool, path) == Some(FullCount(counter, FileOf(ws[k], path).content))
                  || HasLong(FileOf(ws[k], path).content))
  {
    if limit > 0 && ws[k].callers == 0 {
      NoLostWakeup(ws, es, limit, counter, k);
    }
    UnderwayTo(ws, es, limit, counter, j, k, path);
    EveryRunKeepsInv(ws, es, limit, counter, k);
    if path !in ws[k].pool.counting {
      UnderwayNoMore(ws[k], path);
      AnswerForPresentSize(ws, es, limit, counter, k, path);
    }
  }

  /** A file that was queued and has been left alone since is, once it is no longer being counted, counted as
      it is; and so it is when the last worker has left. */
  lemma {:induction false} QueuedIsCounted(ws: seq<World>, es: seq<Event>, limit: nat, counter: Counter, j: nat,
                                           k: nat, path: Path)
    requires Run(ws, es, limit, counter) && j <= k < |ws| && path in ws[j].pool.queue
    requires forall i :: j <= i < k ==> LeftAlone(ws[i], es[i], path)
    ensures (limit > 0 && ws[k].callers == 0 && ws[k].workers.Keys == {}) ==> path !in ws[k].pool.counting
    ensures path !in ws[k].pool.counting ==>
              && IsBanked(ws[k], path)
              && (Answer(ws[k].pool, path) == Some(FullCount(counter, FileOf(ws[k], path).content))
                  || HasLong(FileOf(ws[k], path).content))
  {
    UnderwayIsCounted(ws, es, limit, counter, j, k, path);
  }

  /** So what is asked for as it stands gets counted as it stands. A scan already going on may be of an older
      version; it is then dropped, and the path is queued when it is next asked for. */
  lemma {:induction false} AskedIsCounted(ws: seq<World>, es: seq<Event>, limit: nat, counter: Counter, j: nat,
                                          k: nat, path: Path)
    requires Run(ws, es, limit, counter) && j < k < |ws|
    requires es[j] == Queue(path, FileOf(ws[j], path).mod, |FileOf(ws[j], path).content|)
    requires InFlight(ws[j], path) ==> exists id :: ScannedBy(ws[j], id, path)
    requires forall i :: j < i < k ==> LeftAlone(ws[i], es[i], path)
    ensures path in ws[j + 1].pool.counting || IsBanked(ws[j + 1], path)
    ensures (limit > 0 && ws[k].callers == 0 && ws[k].workers.Keys == {}) ==> path !in ws[k].pool.counting
    ensures path !in ws[k].pool.counting ==>
              && IsBanked(ws[k], path)
              && (Answer(ws[k].pool, path) == Some(FullCount(counter, FileOf(ws[k], path).content))
                  || HasLong(FileOf(ws[k], path).content))
  {
    EveryRunKeepsInv(ws, es, limit, counter, j);
    assert Next(ws[j], es[j], ws[j + 1], limit, counter);
    AskedIsUnderway(ws[j], ws[j + 1], path);
    UnderwayIsCounted(ws, es, limit, counter, j + 1, k, path);
  }

  lemma {:induction false} AskedIsUnderway(w: World, w': World, path: Path)
    requires Accounted(w)
    requires w' == w.(pool := Queued(w.pool, path, FileOf(w, path).mod, |FileOf(w, path).content|))
    requires InFlight(w, path) ==> exists id :: ScannedBy(w, id, path)
    ensures Underway(w', path)
    ensures path in w'.pool.counting || IsBanked(w', path)
  {
    if InFlight(w, path) {
      var id :| ScannedBy(w, id, path);
      assert ScannedBy(w', id, path);
    }
  }

  /** The list asks for a path as it stands. */
  ghost predicate AsksAsItIs(w: World, e: Event, path: Path)
  {
    e.Queue? && e.path == path ==> OfVersion(e.mod, e.size, FileOf(w, path))
  }

  /** The file is counted as it is, by this entry, and is not being counted. */
  predicate Rests(w: World, path: Path, entry: CountEntry)
  {
    path !in w.pool.counting && IsBanked(w, path) && w.pool.counts[path] == entry
  }

  lemma {:induction false} RestsOn(w: World, e: Event, w': World, limit: nat, counter: Counter, path: Path,
                                   entry: CountEntry)
    requires Accounted(w) && Next(w, e, w', limit, counter) && LeftAlone(w, e, path) && AsksAsItIs(w, e, path)
    requires Rests(w, path, entry)
    ensures Rests(w', path, entry)
  {
    if e.Bank? {
      assert InFlight(w, w.workers[e.worker].value);
    }
  }

  lemma {:induction false} RestsNext(ws: seq<World>, es: seq<Event>, limit: nat, counter: Counter, k: nat,
                                     path: Path, entry: CountEntry)
    requires Run(ws, es, limit, counter) && k < |es| && Rests(ws[k], path, entry)
    requires LeftAlone(ws[k], es[k], path) && AsksAsItIs(ws[k], es[k], path)
    ensures Rests(ws[k + 1], path, entry)
  {
    EveryRunKeepsInv(ws, es, limit, counter, k);
    RestsOn(ws[k], es[k], ws[k + 1], limit, counter, path, entry);
  }

  /** And what is counted as it stands is not counted again while it does, however often it is asked for. */
  lemma {:induction false} NotCountedAgain(ws: seq<World>, es: seq<Event>, limit: nat, counter: Counter, j: nat,
                                           k: nat, path: Path, entry: CountEntry)
    requires Run(ws, es, limit, counter) && j <= k < |ws| && Rests(ws[j], path, entry)
    requires forall i :: j <= i < k ==> LeftAlone(ws[i], es[i], path) && AsksAsItIs(ws[i], es[i], path)
    ensures Rests(ws[k], path, entry)
  {
    if j < k {
      NotCountedAgain(ws, es, limit, counter, j, k - 1, path, entry);
      RestsNext(ws, es, limit, counter, k - 1, path, entry);
    }
  }
}
