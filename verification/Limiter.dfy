/** The connection limiter: an accept loop, a bounded queue of waiting goroutines, a hand-over
    channel without a buffer, and connections that give their permit back when they close. */
module Limiter {
  import opened Collections

  type Conn = nat

  const MIN_ACCEPT_QUEUE := 32
  const AUTO_ACCEPT_QUEUE_FACTOR := 2

  function Capacity(maxConnections: int): nat
  {
    if maxConnections < 1 then 1 else maxConnections
  }

  function QueueDepth(maxConnections: nat, queue: int): nat
  {
    if queue > 0 then queue
    else if maxConnections * AUTO_ACCEPT_QUEUE_FACTOR < MIN_ACCEPT_QUEUE then MIN_ACCEPT_QUEUE
    else maxConnections * AUTO_ACCEPT_QUEUE_FACTOR
  }

  /** Where an accepted connection is. */
  datatype Place =
    | Deciding      // in the accept loop, before its select
    | Denying       // in the accept loop, being told that there is no room
    | Handing       // in the accept loop, with a permit, blocked on the hand-over
    | Queued        // in a queue goroutine, without a permit
    | Refusing      // in a queue goroutine, being told that its time is up
    | Parked        // in a queue goroutine, with a permit, blocked on the hand-over
    | Open          // the server has it
    | Closing       // closed underneath; its permit is not given back yet
    | Closed
    | Rejected
  {
    /** It is wrapped, and its permit has not been given back. */
    predicate Holds() { Handing? || Parked? || Open? || Closing? }

    predicate InLoop() { Deciding? || Denying? || Handing? }

    predicate InQueue() { Queued? || Refusing? || Parked? }

    predicate Over() { Closed? || Rejected? }
  }

  /** sem and waiting say how full the two counting channels are; slots are the live queue
      goroutines, each named by its connection. */
  datatype State = State(
    sem: nat,
    waiting: nat,
    slots: set<Conn>,
    place: map<Conn, Place>,
    stopped: bool,   // the accept loop is gone
    failed: bool,    // its error is in the channel
    erred: bool)     // the server took the error and accepts no more

  datatype Event =
    | Arrive(conn: Conn) | AcceptFails | ServerSeesError
    | Admit(conn: Conn) | Enqueue(conn: Conn) | Refuse(conn: Conn)   // the loop's select
    | Permit(conn: Conn) | Timeout(conn: Conn)                       // a queue goroutine's select
    | HandOver(conn: Conn)
    | Hangup(conn: Conn)                                             // the refusal is written, the socket closed
    | SlotFreed(conn: Conn)
    | CloseUnder(conn: Conn) | ReleaseOnce(conn: Conn)               // the two halves of Close

  predicate At(s: State, c: Conn, p: Place)
  {
    c in s.place && s.place[c] == p
  }

  ghost predicate LoopIdle(s: State)
  {
    !s.stopped && forall c :: c in s.place ==> !s.place[c].InLoop()
  }

  ghost predicate Next(s: State, e: Event, s': State, cap: nat, depth: nat)
  {
    match e
    case Arrive(c) =>
      LoopIdle(s) && c !in s.place && s' == s.(place := s.place[c := Deciding])
    case AcceptFails =>
      LoopIdle(s) && s' == s.(stopped := true, failed := true)
    case ServerSeesError =>
      s.failed && s' == s.(failed := false, erred := true)
    case Admit(c) =>
      At(s, c, Deciding) && s.sem < cap && s' == s.(sem := s.sem + 1, place := s.place[c := Handing])
    case Enqueue(c) =>
      && At(s, c, Deciding) && s.waiting < depth
      && s' == s.(waiting := s.waiting + 1, slots := s.slots + {c}, place := s.place[c := Queued])
    case Refuse(c) =>
      At(s, c, Deciding) && s.sem == cap && s.waiting == depth && s' == s.(place := s.place[c := Denying])
    case Permit(c) =>
      At(s, c, Queued) && s.sem < cap && s' == s.(sem := s.sem + 1, place := s.place[c := Parked])
    case Timeout(c) =>
      At(s, c, Queued) && s' == s.(place := s.place[c := Refusing])
    case Hangup(c) =>
      (At(s, c, Denying) || At(s, c, Refusing)) && s' == s.(place := s.place[c := Rejected])
    case HandOver(c) =>
      (At(s, c, Handing) || At(s, c, Parked)) && !s.erred && s' == s.(place := s.place[c := Open])
    case SlotFreed(c) =>
      // a goroutine's deferred receive, once its connection is served or refused
      && c in s.slots && c in s.place && !s.place[c].InQueue() && s.waiting > 0
      && s' == s.(waiting := s.waiting - 1, slots := s.slots - {c})
    case CloseUnder(c) =>
      if At(s, c, Open) then s' == s.(place := s.place[c := Closing])
      else (At(s, c, Closing) || At(s, c, Closed)) && s' == s
    case ReleaseOnce(c) =>
      // only the first Close to get here receives from the permits
      if At(s, c, Closing) then s.sem > 0 && s' == s.(sem := s.sem - 1, place := s.place[c := Closed])
      else At(s, c, Closed) && s' == s
  }

  ghost predicate Init(s: State)
  {
    s == State(0, 0, {}, map[], false, false, false)
  }

  /** The connections wrapped with a permit that has not been given back. */
  ghost function Holders(s: State): set<Conn>
  {
    set c | c in s.place && s.place[c].Holds()
  }

  /** Accepted, and neither closed nor refused. */
  ghost function Live(s: State): set<Conn>
  {
    set c | c in s.place && !s.place[c].Over()
  }

  /** Permits are held by the wrapped connections, one each. */
  ghost predicate PermitsMatch(s: State, cap: nat)
  {
    s.sem == |Holders(s)| && s.sem <= cap
  }

  /** Queue slots are held by the queue goroutines, one each. */
  ghost predicate SlotsMatch(s: State, depth: nat)
  {
    s.waiting == |s.slots| && s.waiting <= depth
  }

  /** A queued connection's goroutine is live; it outlives the queueing only to free its slot. */
  ghost predicate SlotsOwned(s: State)
  {
    && (forall c :: c in s.place && s.place[c].InQueue() ==> c in s.slots)
    && (forall c :: c in s.slots ==> c in s.place && !s.place[c].InLoop())
  }

  /** The accept loop deals with one connection at a time. */
  ghost predicate OneInLoop(s: State)
  {
    && (forall a, b :: a in s.place && b in s.place && s.place[a].InLoop() && s.place[b].InLoop() ==> a == b)
    && (s.stopped ==> forall c :: c in s.place ==> !s.place[c].InLoop())
    && (s.failed || s.erred ==> s.stopped)
  }

  ghost predicate Inv(s: State, cap: nat, depth: nat)
  {
    PermitsMatch(s, cap) && SlotsMatch(s, depth) && SlotsOwned(s) && OneInLoop(s)
  }

  /** A move of one connection changes the holders by that one. */
  lemma {:induction false} HoldersAfter(s: State, s': State, c: Conn, p: Place)
    requires s'.place == s.place[c := p]
    ensures c in Holders(s) <==> c in s.place && s.place[c].Holds()
    ensures p.Holds() ==> Holders(s') == Holders(s) + {c}
    ensures !p.Holds() ==> Holders(s') == Holders(s) - {c}
  {
  }

  lemma {:induction false} StepKeepsPermits(s: State, e: Event, s': State, cap: nat, depth: nat)
    requires PermitsMatch(s, cap) && Next(s, e, s', cap, depth)
    ensures PermitsMatch(s', cap)
  {
    if s'.place == s.place {
      assert Holders(s') == Holders(s);
    } else {
      OneMoves(s, e, s', cap, depth);
      HoldersAfter(s, s', e.conn, s'.place[e.conn]);
    }
  }

  /** A step that changes a place changes the one of its own connection, and takes or gives back a permit
      exactly when that one comes to hold it or lets it go. */
  lemma {:induction false} OneMoves(s: State, e: Event, s': State, cap: nat, depth: nat)
    requires Next(s, e, s', cap, depth) && s'.place != s.place
    ensures !e.AcceptFails? && !e.ServerSeesError?
    ensures e.conn in s'.place && s'.place == s.place[e.conn := s'.place[e.conn]]
    ensures s'.sem == s.sem + (if s'.place[e.conn].Holds() then 1 else 0)
                            - (if e.conn in s.place && s.place[e.conn].Holds() then 1 else 0)
    ensures s'.sem <= s.sem || s'.sem <= cap
  {
  }

  lemma {:induction false} StepKeepsSlots(s: State, e: Event, s': State, cap: nat, depth: nat)
    requires SlotsOwned(s) && Next(s, e, s', cap, depth)
    ensures SlotsOwned(s')
  {
    QueuedHaveSlots(s, e, s', cap, depth);
    SlotsHaveConnections(s, e, s', cap, depth);
  }

  lemma {:induction false} QueuedHaveSlots(s: State, e: Event, s': State, cap: nat, depth: nat)
    requires SlotsOwned(s) && Next(s, e, s', cap, depth)
    ensures forall c :: c in s'.place && s'.place[c].InQueue() ==> c in s'.slots
  {
  }

  lemma {:induction false} SlotsHaveConnections(s: State, e: Event, s': State, cap: nat, depth: nat)
    requires SlotsOwned(s) && Next(s, e, s', cap, depth)
    ensures forall c :: c in s'.slots ==> c in s'.place && !s'.place[c].InLoop()
  {
  }

  lemma {:induction false} StepKeepsSlotCount(s: State, e: Event, s': State, cap: nat, depth: nat)
    requires SlotsOwned(s) && SlotsMatch(s, depth) && Next(s, e, s', cap, depth)
    ensures SlotsMatch(s', depth)
  {
  }

  lemma {:induction false} StepKeepsLoop(s: State, e: Event, s': State, cap: nat, depth: nat)
    requires OneInLoop(s) && Next(s, e, s', cap, depth)
    ensures OneInLoop(s')
  {
  }

  lemma {:induction false} StepKeepsInv(s: State, e: Event, s': State, cap: nat, depth: nat)
    requires Inv(s, cap, depth) && Next(s, e, s', cap, depth)
    ensures Inv(s', cap, depth)
  {
    StepKeepsPermits(s, e, s', cap, depth);
    StepKeepsSlots(s, e, s', cap, depth);
    StepKeepsSlotCount(s, e, s', cap, depth);
    StepKeepsLoop(s, e, s', cap, depth);
  }

  /** A run: any interleaving of arrivals, permits, timeouts, hand-overs and closes. */
  ghost predicate Run(ss: seq<State>, es: seq<Event>, cap: nat, depth: nat)
  {
    && |ss| == |es| + 1 && Init(ss[0])
    && (forall k :: 0 <= k < |es| ==> Next(ss[k], es[k], ss[k + 1], cap, depth))
  }

  lemma {:induction false} EveryRunKeepsInv(ss: seq<State>, es: seq<Event>, cap: nat, depth: nat, k: nat)
    requires Run(ss, es, cap, depth) && k < |ss|
    ensures Inv(ss[k], cap, depth)
  {
    if k > 0 {
      EveryRunKeepsInv(ss, es, cap, depth, k - 1);
      StepKeepsInv(ss[k - 1], es[k - 1], ss[k], cap, depth);
    } else {
      assert Holders(ss[0]) == {};
    }
  }

  /** In every reachable state: the permits taken are the connections wrapped and not released, the
      server never has more than the cap, the slots taken are the live queue goroutines, and no
      more than cap + depth + 1 connections are open at once. */
  lemma {:induction false} Bounded(ss: seq<State>, es: seq<Event>, cap: nat, depth: nat, k: nat)
    requires Run(ss, es, cap, depth) && k < |ss|
    ensures ss[k].sem == |Holders(ss[k])| <= cap
    ensures ss[k].waiting == |ss[k].slots| <= depth
    ensures |Live(ss[k])| <= cap + depth + 1
  {
    var s := ss[k];
    EveryRunKeepsInv(ss, es, cap, depth, k);
    var deciding := set c | c in s.place && (s.place[c].Deciding? || s.place[c].Denying?);
    AtMostOne(deciding);
    assert Live(s) <= deciding + Holders(s) + s.slots;
    Fits(Live(s), deciding + Holders(s) + s.slots);
    assert |deciding + Holders(s) + s.slots| <= |deciding| + |Holders(s)| + |s.slots|;
  }

  /** In terms of the two settings: with the queue left to itself, three connections for each one allowed,
      or 33 more; and none is refused at the door while there is less than that. */
  lemma {:induction false} ConfiguredBound(ss: seq<State>, es: seq<Event>, k: nat, maxConnections: int, queue: int)
    requires Run(ss, es, Capacity(maxConnections), QueueDepth(Capacity(maxConnections), queue)) && k < |ss|
    ensures var cap := if maxConnections < 1 then 1 else maxConnections;
      && |Holders(ss[k])| <= cap
      && (queue > 0 ==> |Live(ss[k])| <= cap + queue + 1)
      && (queue <= 0 ==> |Live(ss[k])| <= 3 * cap + 1 || |Live(ss[k])| <= cap + 33)
      && forall c :: k < |es| && At(ss[k + 1], c, Denying) && !At(ss[k], c, Denying) ==>
           && |Holders(ss[k])| == cap
           && |ss[k].slots| == if queue > 0 then queue else if cap <= 16 then 32 else 2 * cap
  {
    var cap, depth := Capacity(maxConnections), QueueDepth(Capacity(maxConnections), queue);
    Bounded(ss, es, cap, depth, k);
    forall c | k < |es| && At(ss[k + 1], c, Denying) && !At(ss[k], c, Denying)
      ensures |Holders(ss[k])| == cap && |ss[k].slots| == depth
    {
      RefusedOnlyWhenFull(ss, es, cap, depth, k, c);
    }
  }

  /** A connection is refused at the door only when every permit is held and every slot taken. */
  lemma {:induction false} RefusedOnlyWhenFull(ss: seq<State>, es: seq<Event>, cap: nat, depth: nat, k: nat, c: Conn)
    requires Run(ss, es, cap, depth) && k < |es|
    requires At(ss[k + 1], c, Denying) && !At(ss[k], c, Denying)
    ensures |Holders(ss[k])| == cap && |ss[k].slots| == depth
  {
    EveryRunKeepsInv(ss, es, cap, depth, k);
    assert Next(ss[k], es[k], ss[k + 1], cap, depth);
  }

  /** What can be done with a connection at the door, and with one in the queue, as permits and slots stand. */
  lemma {:induction false} ChoiceIs(ss: seq<State>, es: seq<Event>, cap: nat, depth: nat, k: nat, c: Conn)
    requires Run(ss, es, cap, depth) && k < |ss|
    ensures At(ss[k], c, Deciding) ==>
              && ((exists s' :: Next(ss[k], Admit(c), s', cap, depth)) <==> |Holders(ss[k])| < cap)
              && ((exists s' :: Next(ss[k], Enqueue(c), s', cap, depth)) <==> |ss[k].slots| < depth)
              && ((exists s' :: Next(ss[k], Refuse(c), s', cap, depth))
                  <==> |Holders(ss[k])| == cap && |ss[k].slots| == depth)
    ensures At(ss[k], c, Queued) ==>
              && ((exists s' :: Next(ss[k], Permit(c), s', cap, depth)) <==> |Holders(ss[k])| < cap)
              && (exists s' :: Next(ss[k], Timeout(c), s', cap, depth))
  {
    EveryRunKeepsInv(ss, es, cap, depth, k);
    var s := ss[k];
    if At(s, c, Deciding) {
      assert s.sem < cap ==>
               Next(s, Admit(c), s.(sem := s.sem + 1, place := s.place[c := Handing]), cap, depth);
      assert s.waiting < depth ==>
               Next(s, Enqueue(c), s.(waiting := s.waiting + 1, slots := s.slots + {c}, place := s.place[c := Queued]),
                    cap, depth);
      assert s.sem == cap && s.waiting == depth ==>
               Next(s, Refuse(c), s.(place := s.place[c := Denying]), cap, depth);
    } else if At(s, c, Queued) {
      assert s.sem < cap ==>
               Next(s, Permit(c), s.(sem := s.sem + 1, place := s.place[c := Parked]), cap, depth);
      assert Next(s, Timeout(c), s.(place := s.place[c := Refusing]), cap, depth);
    }
  }

  /** Closing a connection that the server has gives its permit back, and no other. */
  lemma {:induction false} CloseGivesBack(ss: seq<State>, es: seq<Event>, cap: nat, depth: nat, k: nat, c: Conn)
    returns (mid: State, end: State)
    requires Run(ss, es, cap, depth) && k < |ss| && At(ss[k], c, Open)
    ensures Next(ss[k], CloseUnder(c), mid, cap, depth) && Next(mid, ReleaseOnce(c), end, cap, depth)
    ensures At(end, c, Closed) && Holders(end) == Holders(ss[k]) - {c} && end.sem == ss[k].sem - 1
  {
    EveryRunKeepsInv(ss, es, cap, depth, k);
    var s := ss[k];
    assert c in Holders(s);
    mid := s.(place := s.place[c := Closing]);
    end := mid.(sem := s.sem - 1, place := mid.place[c := Closed]);
  }

  lemma {:induction false} AtMostOne(cs: set<Conn>)
    requires forall a, b :: a in cs && b in cs ==> a == b
    ensures |cs| <= 1
  {
    if cs != {} {
      var a :| a in cs;
      assert cs == {a};
    }
  }

  /** Nothing is lost: once every connection is closed or refused and the queue goroutines are
      through, both channels are empty, however often and from wherever Close was called. */
  lemma {:induction false} AllGivenBack(ss: seq<State>, es: seq<Event>, cap: nat, depth: nat, k: nat)
    requires Run(ss, es, cap, depth) && k < |ss|
    requires Live(ss[k]) == {}
    ensures ss[k].sem == 0
    ensures ss[k].waiting == |ss[k].slots|
    ensures forall c :: c in ss[k].slots ==> exists s' :: Next(ss[k], SlotFreed(c), s', cap, depth)
  {
    var s := ss[k];
    EveryRunKeepsInv(ss, es, cap, depth, k);
    assert forall c :: c in s.place ==> c in Live(s) || s.place[c].Over();
    assert Holders(s) == {};
    forall c | c in s.slots ensures exists s' :: Next(s, SlotFreed(c), s', cap, depth) {
      assert s.slots != {};
      assert Next(s, SlotFreed(c), s.(waiting := s.waiting - 1, slots := s.slots - {c}), cap, depth);
    }
  }

  /** Close never blocks: whenever a connection still owes its permit there is one to take back. */
  lemma {:induction false} ReleaseNeverBlocks(ss: seq<State>, es: seq<Event>, cap: nat, depth: nat, k: nat, c: Conn)
    requires Run(ss, es, cap, depth) && k < |ss|
    requires At(ss[k], c, Closing) || At(ss[k], c, Closed)
    ensures exists s' :: Next(ss[k], ReleaseOnce(c), s', cap, depth)
  {
    var s := ss[k];
    EveryRunKeepsInv(ss, es, cap, depth, k);
    if At(s, c, Closing) {
      assert c in Holders(s);
      assert Next(s, ReleaseOnce(c), s.(sem := s.sem - 1, place := s.place[c := Closed]), cap, depth);
    } else {
      assert Next(s, ReleaseOnce(c), s, cap, depth);
    }
  }

  /** Places a connection can still reach: refusal and service exclude each other for good. */
  predicate Follows(p: Place, q: Place)
  {
    match p
    case Deciding => true
    case Denying => q.Denying? || q.Rejected?
    case Queued => !q.InLoop()
    case Refusing => q.Refusing? || q.Rejected?
    case Handing => q.Handing? || q.Open? || q.Closing? || q.Closed?
    case Parked => q.Parked? || q.Open? || q.Closing? || q.Closed?
    case Open => q.Open? || q.Closing? || q.Closed?
    case Closing => q.Closing? || q.Closed?
    case Closed => q.Closed?
    case Rejected => q.Rejected?
  }

  lemma {:induction false} StepForward(s: State, e: Event, s': State, cap: nat, depth: nat, c: Conn)
    requires Next(s, e, s', cap, depth) && c in s.place
    ensures c in s'.place && Follows(s.place[c], s'.place[c])
    ensures s.erred ==> s'.erred && (s.place[c].Parked? ==> s'.place[c].Parked?)
  {
  }

  /** Along every run a connection only moves forward: one that was refused is never served, one
      that was served is never refused, and none is forgotten. */
  lemma {:induction false} OnlyForward(ss: seq<State>, es: seq<Event>, cap: nat, depth: nat, j: nat, k: nat, c: Conn)
    requires Run(ss, es, cap, depth) && j <= k < |ss|
    requires c in ss[j].place
    ensures c in ss[k].place && Follows(ss[j].place[c], ss[k].place[c])
  {
    if j < k {
      OnlyForward(ss, es, cap, depth, j, k - 1, c);
      StepForward(ss[k - 1], es[k - 1], ss[k], cap, depth, c);
    }
  }

  /** It can come to that: a connection queues, the listener fails, the server sees it, and only then is
      there a permit. */
  lemma {:induction false} CanBeParked() returns (ss: seq<State>, es: seq<Event>)
    ensures Run(ss, es, 1, 1) && |ss| == 6
    ensures ss[5].erred && At(ss[5], 1, Parked)
  {
    es := [Arrive(1), Enqueue(1), AcceptFails, ServerSeesError, Permit(1)];
    var s0 := State(0, 0, {}, map[], false, false, false);
    var s1 := s0.(place := map[1 := Deciding]);
    var s2 := s1.(waiting := 1, slots := {1}, place := map[1 := Queued]);
    var s3 := s2.(stopped := true, failed := true);
    var s4 := s3.(failed := false, erred := true);
    var s5 := s4.(sem := 1, place := map[1 := Parked]);
    ss := [s0, s1, s2, s3, s4, s5];
    assert s2.place == s1.place[1 := Queued] && s5.place == s4.place[1 := Parked];
  }

  /** Once the server has seen the listener's error nobody takes what is handed over: a connection
      that holds a permit in its queue goroutine keeps the permit and the slot for ever. */
  lemma {:induction false} ParkedForEver(ss: seq<State>, es: seq<Event>, cap: nat, depth: nat, j: nat, k: nat, c: Conn)
    requires Run(ss, es, cap, depth) && j <= k < |ss|
    requires ss[j].erred && At(ss[j], c, Parked)
    ensures ss[k].erred && At(ss[k], c, Parked)
    ensures c in Holders(ss[k]) && c in ss[k].slots
  {
    ParkedStays(ss, es, cap, depth, j, k, c);
    EveryRunKeepsInv(ss, es, cap, depth, k);
  }

  lemma {:induction false} ParkedStays(ss: seq<State>, es: seq<Event>, cap: nat, depth: nat, j: nat, k: nat, c: Conn)
    requires Run(ss, es, cap, depth) && j <= k < |ss|
    requires ss[j].erred && At(ss[j], c, Parked)
    ensures ss[k].erred && At(ss[k], c, Parked)
  {
    if j < k {
      ParkedStays(ss, es, cap, depth, j, k - 1, c);
      StepForward(ss[k - 1], es[k - 1], ss[k], cap, depth, c);
    }
  }

  /** A connection that the accept loop or a queue goroutine still has can go on, unless it waits to be
      handed over to a server that accepts no more; there it cannot. */
  lemma {:induction false} NobodyStuck(ss: seq<State>, es: seq<Event>, cap: nat, depth: nat, k: nat, c: Conn)
    requires Run(ss, es, cap, depth) && k < |ss|
    requires c in ss[k].place && (ss[k].place[c].InLoop() || ss[k].place[c].InQueue())
    ensures (exists e: Event, s' :: Moves(ss[k], e, s', c, cap, depth)) <==> !(ss[k].erred && ss[k].place[c].Parked?)
  {
    var s := ss[k];
    EveryRunKeepsInv(ss, es, cap, depth, k);
    if s.erred && s.place[c].Parked? {
      forall e: Event, s' | Next(s, e, s', cap, depth) ensures s'.place[c] == s.place[c] {
        StepForward(s, e, s', cap, depth, c);
      }
    } else {
      var e, next := WayOn(s, c, cap, depth);
    }
  }

  /** A step of the system that takes this connection on. */
  ghost predicate Moves(s: State, e: Event, s': State, c: Conn, cap: nat, depth: nat)
  {
    Next(s, e, s', cap, depth) && c in s.place && c in s'.place && s'.place[c] != s.place[c]
  }

  lemma {:induction false} WayOn(s: State, c: Conn, cap: nat, depth: nat) returns (e: Event, next: State)
    requires Inv(s, cap, depth) && c in s.place && (s.place[c].InLoop() || s.place[c].InQueue())
    requires !(s.erred && s.place[c].Parked?)
    ensures Moves(s, e, next, c, cap, depth)
  {
    if s.place[c].Deciding? {
      if s.sem < cap {
        e, next := Admit(c), s.(sem := s.sem + 1, place := s.place[c := Handing]);
      } else if s.waiting < depth {
        e, next := Enqueue(c), s.(waiting := s.waiting + 1, slots := s.slots + {c}, place := s.place[c := Queued]);
      } else {
        e, next := Refuse(c), s.(place := s.place[c := Denying]);
      }
    } else if s.place[c].Queued? {
      e, next := Timeout(c), s.(place := s.place[c := Refusing]);
    } else if s.place[c].Denying? || s.place[c].Refusing? {
      e, next := Hangup(c), s.(place := s.place[c := Rejected]);
    } else {
      e, next := HandOver(c), s.(place := s.place[c := Open]);
    }
  }
}
