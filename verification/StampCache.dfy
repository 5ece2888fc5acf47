/** Caches that answer while the stamp of some files is unchanged: the stamp is taken before the read,
    file by file, and loads and writes run at the same time. */
module StampCache {
  import opened Options

  /** One number for each file, which every write to it raises: the stamp a file shows is never shown
      again after a change. */
  type Stamp = seq<nat>

  /** The right answer for the files as they stood at one stamp, or whatever a read that a write
      overlapped may have come to. */
  datatype Value = Of(stamp: Stamp) | Torn(what: nat)

  /** `ended`: how the files stood when the read of the value ended. */
  datatype Entry = Entry(value: Value, ended: Stamp)

  /** How far one load has come. `begun`: how the files stood when it began; `quiet`: no write since its
      read began; `ended`: how they stood when its read ended. */
  datatype Load =
    | Stamping(begun: Stamp, part: Stamp)
    | Stamped(begun: Stamp, stamp: Stamp)
    | Reading(begun: Stamp, stamp: Stamp, quiet: bool)
    | Got(begun: Stamp, stamp: Stamp, value: Value, ended: Stamp)
    | Answered(value: Value)

  datatype State = State(now: Stamp, entries: map<Stamp, Entry>, loads: map<nat, Load>)

  datatype Event =
    | Write(to: Stamp)
    | Begin(id: nat)
    | StampOne(id: nat)
    | Look(id: nat)
    | EndRead(id: nat, torn: nat)
    | Bank(id: nat, keep: set<Stamp>)
    | GiveUp(id: nat)

  predicate AtMost(a: Stamp, b: Stamp)
  {
    |a| == |b| && forall i :: 0 <= i < |a| ==> a[i] <= b[i]
  }

  /** Taken at least in part before a write that has landed since. */
  predicate Behind(a: Stamp, b: Stamp)
  {
    AtMost(a, b) && a != b
  }

  predicate Can(s: State, e: Event)
  {
    match e
    case Write(to) => Behind(s.now, to)
    case Begin(id) => id !in s.loads
    case StampOne(id) => id in s.loads && s.loads[id].Stamping?
    case Look(id) => id in s.loads && s.loads[id].Stamped?
    case EndRead(id, _) => id in s.loads && s.loads[id].Reading?
    case Bank(id, keep) => id in s.loads && s.loads[id].Got? && keep <= s.entries.Keys
    case GiveUp(id) => id in s.loads
  }

  function Overlapped(l: Load): Load
  {
    if l.Reading? then l.(quiet := false) else l
  }

  function AfterStat(now: Stamp, l: Load): Load
    requires l.Stamping?
  {
    if |l.part| < |now| then Stamping(l.begun, l.part + [now[|l.part|]]) else Stamped(l.begun, l.part)
  }

  function AfterLook(s: State, l: Load): Load
    requires l.Stamped?
  {
    if l.stamp in s.entries then Answered(s.entries[l.stamp].value) else Reading(l.begun, l.stamp, true)
  }

  function Next(s: State, e: Event): State
    requires Can(s, e)
  {
    match e
    case Write(to) => State(to, s.entries, map id | id in s.loads :: Overlapped(s.loads[id]))
    case Begin(id) => s.(loads := s.loads[id := Stamping(s.now, [])])
    case StampOne(id) => s.(loads := s.loads[id := AfterStat(s.now, s.loads[id])])
    case Look(id) => s.(loads := s.loads[id := AfterLook(s, s.loads[id])])
    case EndRead(id, torn) =>
      var l := s.loads[id];
      s.(loads := s.loads[id := Got(l.begun, l.stamp, if l.quiet then Of(s.now) else Torn(torn), s.now)])
    case Bank(id, keep) =>
      var l := s.loads[id];
      State(s.now, Kept(s.entries, keep)[l.stamp := Entry(l.value, l.ended)], s.loads[id := Answered(l.value)])
    case GiveUp(id) => s.(loads := s.loads - {id})
  }

  function Kept(entries: map<Stamp, Entry>, keep: set<Stamp>): map<Stamp, Entry>
  {
    map k | k in entries && k in keep :: entries[k]
  }

  // What every step keeps

  /** A value is right for the stamp it goes under exactly when the files still stood at that stamp as its
      read ended. */
  ghost predicate RightIff(stamp: Stamp, value: Value, ended: Stamp, now: Stamp)
  {
    && AtMost(stamp, ended) && AtMost(ended, now)
    && (value == Of(stamp) <==> ended == stamp)
  }

  ghost predicate Spans(begun: Stamp, stamp: Stamp, now: Stamp)
  {
    AtMost(begun, stamp) && AtMost(stamp, now)
  }

  ghost predicate LoadOk(l: Load, now: Stamp)
  {
    match l
    case Stamping(begun, part) =>
      && AtMost(begun, now) && |part| <= |now|
      && forall i :: 0 <= i < |part| ==> begun[i] <= part[i] <= now[i]
    case Stamped(begun, stamp) => Spans(begun, stamp, now)
    case Reading(begun, stamp, quiet) => Spans(begun, stamp, now) && (!quiet ==> Behind(stamp, now))
    case Got(begun, stamp, value, ended) => Spans(begun, stamp, now) && RightIff(stamp, value, ended, now)
    case Answered(value) => true
  }

  ghost predicate Inv(s: State)
  {
    && (forall k :: k in s.entries ==> RightIff(k, s.entries[k].value, s.entries[k].ended, s.now))
    && (forall id :: id in s.loads ==> LoadOk(s.loads[id], s.now))
  }

  lemma {:induction false} WriteKeepsLoad(l: Load, was: Stamp, now: Stamp)
    requires LoadOk(l, was) && Behind(was, now)
    ensures LoadOk(Overlapped(l), now)
  {
    if !l.Answered? && !l.Stamping? {
      BehindAfter(l.stamp, was, now);
    }
  }

  /** Nothing that a write has left behind is ever current again. */
  lemma {:induction false} BehindAfter(a: Stamp, was: Stamp, now: Stamp)
    requires AtMost(a, was) && Behind(was, now)
    ensures Behind(a, now)
  {
    var i :| 0 <= i < |was| && was[i] != now[i];
    assert a[i] <= was[i] < now[i];
  }

  lemma {:induction false} LoadStepOk(s: State, e: Event, id: nat)
    requires Inv(s) && Can(s, e) && !e.Write? && id in Next(s, e).loads
    ensures LoadOk(Next(s, e).loads[id], s.now)
  {
  }

  lemma {:induction false} StepKeepsInv(s: State, e: Event)
    requires Inv(s) && Can(s, e)
    ensures Inv(Next(s, e))
  {
    var t := Next(s, e);
    forall id | id in t.loads ensures LoadOk(t.loads[id], t.now) {
      if e.Write? {
        WriteKeepsLoad(s.loads[id], s.now, t.now);
      } else {
        LoadStepOk(s, e, id);
      }
    }
  }

  ghost predicate Runs(s: State, events: seq<Event>, t: State)
    decreases |events|
  {
    if events == [] then t == s
    else Can(s, events[0]) && Runs(Next(s, events[0]), events[1..], t)
  }

  lemma {:induction false} EveryRunKeepsInv(s: State, events: seq<Event>, t: State)
    requires Inv(s) && Runs(s, events, t)
    ensures Inv(t)
    decreases |events|
  {
    if events != [] {
      StepKeepsInv(s, events[0]);
      EveryRunKeepsInv(Next(s, events[0]), events[1..], t);
    }
  }

  function Init(files: Stamp): State
  {
    State(files, map[], map[])
  }

  /** A load about to look, whose stamp the cache knows. */
  ghost predicate Hits(s: State, id: nat)
  {
    id in s.loads && s.loads[id].Stamped? && s.loads[id].stamp in s.entries
  }

  /** What such a load will answer. */
  function Served(s: State, id: nat): Entry
    requires Hits(s, id)
  {
    s.entries[s.loads[id].stamp]
  }

  lemma {:induction false} Between(a: Stamp, b: Stamp, c: Stamp)
    requires AtMost(a, b) && AtMost(b, c) && AtMost(c, a)
    ensures a == b == c
  {
    assert forall i :: 0 <= i < |a| ==> a[i] == b[i] == c[i];
  }

  /** What a hit answers is right for the stamp that was asked under if and only if the files still stood
      at that stamp when the entry's read ended. They did when they still do, and when that read ended
      before the asking load began. */
  lemma {:induction false} HitIsRight(files: Stamp, events: seq<Event>, s: State, id: nat)
    requires Runs(Init(files), events, s) && Hits(s, id)
    ensures var l, e := s.loads[id], Served(s, id);
      && Next(s, Look(id)).loads[id] == Answered(e.value)
      && (e.value == Of(l.stamp) <==> e.ended == l.stamp)
      && (l.stamp == s.now ==> e.ended == l.stamp)
      && (AtMost(e.ended, l.begun) ==> e.ended == l.stamp == l.begun)
  {
    EveryRunKeepsInv(Init(files), events, s);
    var l, e := s.loads[id], Served(s, id);
    assert LoadOk(l, s.now) && RightIff(l.stamp, e.value, e.ended, s.now);
    if l.stamp == s.now {
      Between(l.stamp, e.ended, s.now);
    }
    if AtMost(e.ended, l.begun) {
      Between(l.begun, l.stamp, e.ended);
    }
  }

  /** With no write while the load was under way, then, it answers with what the files hold. */
  lemma {:induction false} QuietHitIsCurrent(files: Stamp, events: seq<Event>, s: State, id: nat)
    requires Runs(Init(files), events, s) && Hits(s, id) && s.loads[id].begun == s.now
    ensures Next(s, Look(id)).loads[id] == Answered(Of(s.now))
  {
    EveryRunKeepsInv(Init(files), events, s);
    var l := s.loads[id];
    assert LoadOk(l, s.now);
    assert forall i :: 0 <= i < |s.now| ==> l.stamp[i] == s.now[i];
    assert l.stamp == s.now;
    HitIsRight(files, events, s, id);
  }

  /** Nor is it otherwise with a load that missed: what it enters and answers is right for its
      stamp if and only if the files still stood at it when its own read ended; and with no write while it was
      under way it answers with what the files hold. */
  lemma {:induction false} MissIsRight(files: Stamp, events: seq<Event>, s: State, id: nat, keep: set<Stamp>)
    requires Runs(Init(files), events, s) && Can(s, Bank(id, keep))
    ensures
      var l, after := s.loads[id], Next(s, Bank(id, keep));
      && l.stamp in after.entries && after.loads[id] == Answered(after.entries[l.stamp].value)
      && (after.loads[id] == Answered(Of(l.stamp)) <==> l.ended == l.stamp)
      && (l.begun == s.now ==> after.loads[id] == Answered(Of(s.now)))
      && (forall k :: k in after.entries && k != l.stamp ==> k in keep && after.entries[k] == s.entries[k])
  {
    EveryRunKeepsInv(Init(files), events, s);
    var l := s.loads[id];
    assert LoadOk(l, s.now);
    if l.begun == s.now {
      Between(l.begun, l.stamp, s.now);
      Between(l.stamp, l.ended, s.now);
    }
  }

  // Stamping again after the read

  /** A stamp taken after the read, file by file, can be any that the files passed through since. A load
      that enters only under a stamp that came out as the first one did. */
  ghost predicate SameStampAgain(l: Load, now: Stamp)
  {
    l.Got? && exists again: Stamp :: AtMost(l.ended, again) && AtMost(again, now) && again == l.stamp
  }

  /** A run in which every load that enters has stamped again. */
  ghost predicate CarefulRuns(s: State, events: seq<Event>, t: State)
    decreases |events|
  {
    if events == [] then t == s
    else
      && Can(s, events[0])
      && (events[0].Bank? ==> SameStampAgain(s.loads[events[0].id], s.now))
      && CarefulRuns(Next(s, events[0]), events[1..], t)
  }

  ghost predicate NoneTorn(s: State)
  {
    forall k :: k in s.entries ==> s.entries[k].ended == k
  }

  lemma {:induction false} CarefulRunKeeps(s: State, events: seq<Event>, t: State)
    requires Inv(s) && NoneTorn(s) && CarefulRuns(s, events, t)
    ensures Inv(t) && NoneTorn(t)
    decreases |events|
  {
    if events != [] {
      StepKeepsInv(s, events[0]);
      if events[0].Bank? {
        var l := s.loads[events[0].id];
        assert LoadOk(l, s.now);
        Between(l.stamp, l.ended, l.stamp);
      }
      CarefulRunKeeps(Next(s, events[0]), events[1..], t);
    }
  }

  /** Then every hit is right for its stamp, whatever is written and whoever loads meanwhile: no torn value
      is ever served. */
  lemma {:induction false} StampingAgainIsEnough(files: Stamp, events: seq<Event>, s: State, id: nat)
    requires CarefulRuns(Init(files), events, s) && Hits(s, id)
    ensures Next(s, Look(id)).loads[id] == Answered(Of(s.loads[id].stamp))
  {
    CarefulRunKeeps(Init(files), events, s);
    var l, e := s.loads[id], Served(s, id);
    assert RightIff(l.stamp, e.value, e.ended, s.now);
  }

  lemma {:induction false} RunsJoin(s: State, a: seq<Event>, t: State, b: seq<Event>, u: State)
    requires Runs(s, a, t) && Runs(t, b, u)
    ensures Runs(s, a + b, u)
    decreases |a|
  {
    if a == [] {
      assert a + b == b;
    } else {
      assert (a + b)[1..] == a[1..] + b;
      RunsJoin(Next(s, a[0]), a[1..], t, b, u);
    }
  }

  function OneReads(): seq<Event>
  {
    [Begin(1), StampOne(1), StampOne(1), Look(1)]
  }

  /** A second load is stamped, a write lands, and only then does the first one end its read. */
  function OneBanks(): seq<Event>
  {
    [Begin(2), StampOne(2), StampOne(2), Write([1]), EndRead(1, 7), Bank(1, {})]
  }

  lemma {:induction false} FirstReads() returns (s: State)
    ensures Runs(Init([0]), OneReads(), s)
    ensures s == State([0], map[], map[1 := Reading([0], [0], true)])
  {
    var s1 := Next(Init([0]), Begin(1));
    var s2 := Next(s1, StampOne(1));
    var s3 := Next(s2, StampOne(1));
    s := Next(s3, Look(1));
    assert s2.loads[1].part == [0];
    assert s.loads == map[1 := Reading([0], [0], true)];
  }

  /** Not otherwise: the second load is answered with what a read came to that a write had overlapped. */
  lemma {:induction false} TornValueServed() returns (s: State)
    ensures Runs(Init([0]), OneReads() + OneBanks(), s)
    ensures Hits(s, 2) && Next(s, Look(2)).loads[2] == Answered(Torn(7))
  {
    var s4 := FirstReads();
    var s5 := Next(s4, Begin(2));
    var s6 := Next(s5, StampOne(2));
    var s7 := Next(s6, StampOne(2));
    var s8 := Next(s7, Write([1]));
    var s9 := Next(s8, EndRead(1, 7));
    s := Next(s9, Bank(1, {}));
    RunsJoin(Init([0]), OneReads(), s4, OneBanks(), s);
  }

  // The two caches

  const MAX: nat := 4096

  /** finalCache: one entry for each stamp, and all of them dropped when there are too many. */
  class FinalCache {
    var entries: map<Stamp, Value>

    constructor ()
      ensures entries == map[]
    {
      entries := map[];
    }

    method Find(stamp: Stamp) returns (value: Option<Value>)
      ensures value == if stamp in entries then Some(entries[stamp]) else None
    {
      return if stamp in entries then Some(entries[stamp]) else None;
    }

    method Enter(stamp: Stamp, value: Value)
      requires |entries| <= MAX
      modifies this
      ensures |entries| <= MAX
      ensures entries == (if |old(entries)| >= MAX then map[] else old(entries))[stamp := value]
      ensures exists keep :: keep <= old(entries).Keys && entries == Only(old(entries), keep)[stamp := value]
    {
      ghost var was := entries;
      if |entries| >= MAX {
        entries := map[];
      }
      assert entries == Only(was, entries.Keys);
      assert stamp !in entries ==> |entries[stamp := value]| == |entries| + 1;
      entries := entries[stamp := value];
    }
  }

  function Only(entries: map<Stamp, Value>, keep: set<Stamp>): map<Stamp, Value>
  {
    map k | k in entries && k in keep :: entries[k]
  }

  type Path = nat

  /** dbSnapshotCache: one entry for each database. */
  class SnapshotCache {
    var entries: map<Path, (Stamp, Value)>

    constructor ()
      ensures entries == map[]
    {
      entries := map[];
    }

    /** The entries of one database, by stamp: at most one. */
    function ByStamp(path: Path): map<Stamp, Value>
      reads this
    {
      if path in entries then map[entries[path].0 := entries[path].1] else map[]
    }

    method Find(path: Path, stamp: Stamp) returns (value: Option<Value>)
      ensures value == if stamp in ByStamp(path) then Some(ByStamp(path)[stamp]) else None
    {
      return if path in entries && entries[path].0 == stamp then Some(entries[path].1) else None;
    }

    method Enter(path: Path, stamp: Stamp, value: Value)
      modifies this
      ensures ByStamp(path) == Only(old(ByStamp(path)), {})[stamp := value]
      ensures forall p :: p != path ==> ByStamp(p) == old(ByStamp(p))
    {
      entries := entries[path := (stamp, value)];
    }
  }
}
