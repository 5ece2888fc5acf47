/** The sink every source feeds its messages to: a filter, a window from one end, an offset. */
module MessageSink {
  import opened Options
  import opened Collections

  type Role = nat   // 0 is the empty role: no filtering

  /** The content is a token: two messages of the same tokens read the same. */
  datatype Message = Message(id: nat, role: Role, at: Option<int>, text: nat, reasoning: nat)

  datatype Query = Query(limit: int, fromEnd: bool, at: Option<int>, offset: nat, role: Role)

  /** What a query asks for, whatever the window: the role, and the right side of the anchor. A
      message without a readable time is kept. */
  predicate Matches(q: Query, m: Message)
  {
    && (q.role != 0 ==> m.role == q.role)
    && (q.at.Some? && m.at.Some? ==> if q.fromEnd then m.at.value <= q.at.value else m.at.value >= q.at.value)
  }

  function Matching(q: Query, ms: seq<Message>): seq<Message>
  {
    if ms == [] then []
    else
      var rest := Matching(q, ms[..|ms| - 1]);
      if Matches(q, ms[|ms| - 1]) then rest + [ms[|ms| - 1]] else rest
  }

  /** The last n elements, or all of them. */
  function LastN<T>(s: seq<T>, n: nat): seq<T>
  {
    if |s| <= n then s else s[|s| - n..]
  }

  function FirstN<T>(s: seq<T>, n: nat): seq<T>
  {
    if |s| <= n then s else s[..n]
  }

  function DropFirst<T>(s: seq<T>, n: nat): seq<T>
  {
    if |s| <= n then [] else s[n..]
  }

  function DropLast<T>(s: seq<T>, n: nat): seq<T>
  {
    if |s| <= n then [] else s[..|s| - n]
  }

  function Size(q: Query): nat
  {
    if q.limit < 0 then 0 else q.limit
  }

  /** The offset only counts when the window is not anchored. */
  function Skip(q: Query): nat
  {
    if q.at.None? then q.offset else 0
  }

  /** The window a query means, of a whole session. */
  function Window(q: Query, ms: seq<Message>): seq<Message>
  {
    var found := Matching(q, ms);
    if q.fromEnd then LastN(DropLast(found, Skip(q)), Size(q)) else FirstN(DropFirst(found, Skip(q)), Size(q))
  }

  lemma {:induction false} MatchingConcat(q: Query, ms: seq<Message>, later: seq<Message>)
    ensures Matching(q, ms + later) == Matching(q, ms) + Matching(q, later)
  {
    if later == [] {
      assert ms + later == ms;
    } else {
      var n := |later| - 1;
      assert (ms + later)[..|ms + later| - 1] == ms + later[..n];
      MatchingConcat(q, ms, later[..n]);
    }
  }

  lemma {:induction false} MatchingFilters(q: Query, ms: seq<Message>, keep: Message -> bool)
    requires forall m: Message :: keep(m) <==> Matches(q, m)
    ensures Matching(q, ms) == Filter(ms, keep)
  {
    if ms != [] {
      MatchingFilters(q, ms[..|ms| - 1], keep);
    }
  }

  /** What matches, in order, told by the fields: the role asked for, if one was, and where both the query and
      the message have a time, the right side of the anchor, the anchor itself included. */
  lemma {:induction false} MatchingIs(q: Query, ms: seq<Message>) returns (keep: Message -> bool)
    ensures Matching(q, ms) == Filter(ms, keep)
    ensures forall m: Message ::
              keep(m) <==>
                && (q.role == 0 || m.role == q.role)
                && (q.at.None? || m.at.None?
                    || (q.fromEnd && m.at.value <= q.at.value) || (!q.fromEnd && q.at.value <= m.at.value))
    ensures forall m: Message :: m in Matching(q, ms) <==> m in ms && keep(m)
  {
    keep := m => Matches(q, m);
    MatchingFilters(q, ms, keep);
    forall m: Message ensures m in Matching(q, ms) <==> m in ms && keep(m) {
      FilterHas(ms, keep, m);
    }
  }

  /** The window, message by message: as many as the limit, if there are that many past the offset, counted from
      the end asked for. An anchored window has no offset. */
  lemma {:induction false} WindowIs(q: Query, ms: seq<Message>)
    ensures var found, w := Matching(q, ms), Window(q, ms);
      var skip := if q.at.Some? then 0 else q.offset;
      && |w| == (if q.limit <= 0 || |found| <= skip then 0
                 else if |found| - skip <= q.limit then |found| - skip else q.limit)
      && forall i :: 0 <= i < |w| ==>
           w[i] == found[if q.fromEnd then |found| - skip - |w| + i else skip + i]
  {
  }

  lemma {:induction false} WindowWithin(q: Query, ms: seq<Message>)
    ensures forall m :: m in Window(q, ms) ==> m in Matching(q, ms)
  {
  }

  /** Whatever messages may still come, the window stays as it is. */
  ghost predicate Enough(q: Query, ms: seq<Message>)
  {
    forall later :: Window(q, ms + later) == Window(q, ms)
  }

  /** An ascending window that is full, or an empty one, is settled. */
  lemma {:induction false} Settled(q: Query, ms: seq<Message>)
    requires q.limit <= 0 || (!q.fromEnd && |Matching(q, ms)| >= Skip(q) + Size(q))
    ensures Enough(q, ms)
  {
    forall later ensures Window(q, ms + later) == Window(q, ms) {
      MatchingConcat(q, ms, later);
    }
  }

  lemma {:induction false} EnoughOf(q: Query, ms: seq<Message>, all: seq<Message>)
    requires Enough(q, ms) && |ms| <= |all| && ms == all[..|ms|]
    ensures Window(q, all) == Window(q, ms)
  {
    assert all == ms + all[|ms|..];
  }

  /** The buffer read from its oldest element. */
  function Rotated(items: seq<Message>, start: nat): seq<Message>
    requires start <= |items|
  {
    items[start..] + items[..start]
  }

  /** Overwriting the oldest element of a full ring drops it and appends the new one. */
  lemma {:induction false} RingOverwrite(items: seq<Message>, start: nat, m: Message)
    requires start < |items|
    ensures var next := (start + 1) % |items|;
            next < |items| && Rotated(items[start := m], next) == Rotated(items, start)[1..] + [m]
  {
    var after := items[start := m];
    assert Rotated(items, start)[1..] == items[start + 1..] + items[..start];
    if start + 1 < |items| {
      assert (start + 1) % |items| == start + 1;
      assert after[start + 1..] == items[start + 1..] && after[..start + 1] == items[..start] + [m];
    } else {
      assert (start + 1) % |items| == 0;
      assert after == items[..start] + [m];
    }
  }

  lemma {:induction false} LastNSnoc(found: seq<Message>, m: Message, n: nat)
    requires n > 0
    ensures LastN(found + [m], n) == if |found| < n then LastN(found, n) + [m] else LastN(found, n)[1..] + [m]
    ensures |LastN(found, n)| == if |found| < n then |found| else n
  {
  }

  /** The ring holds the last of what was found, before one more and after. */
  lemma {:induction false} RingKeeps(found: seq<Message>, items: seq<Message>, start: nat, m: Message, n: nat)
    requires 0 < n && |items| <= n && start <= |items| && (start > 0 ==> |items| == n)
    requires Rotated(items, start) == LastN(found, n) && start < n
    ensures |items| < n ==> Rotated(items + [m], start) == LastN(found + [m], n)
    ensures |items| == n ==>
              (start + 1) % n < n && Rotated(items[start := m], (start + 1) % n) == LastN(found + [m], n)
  {
    LastNSnoc(found, m, n);
    if |items| == n {
      RingOverwrite(items, start, m);
    }
  }

  /** A ring of n + off elements is enough to cut the page of n that ends off before the end. */
  lemma {:induction false} TailWindow(found: seq<Message>, ring: seq<Message>, n: nat, off: nat)
    requires ring == LastN(found, n + off)
    ensures |ring| <= off ==> LastN(DropLast(found, off), n) == []
    ensures |ring| > off ==>
              var end := |ring| - off;
              LastN(DropLast(found, off), n) == ring[if end < n then 0 else end - n..end]
  {
    var lost := |found| - |ring|;
    assert ring == found[lost..];
    var end := |ring| - off;
    if end > 0 {
      assert DropLast(found, off) == found[..lost + end];
      assert ring[..end] == found[lost..lost + end];
    }
  }

  class Sink {
    const q: Query
    const capacity: nat
    var items: seq<Message>
    var start: nat
    var skipped: nat
    ghost var seen: seq<Message>

    /** The buffer holds what the messages ms leave in it: an ascending window drops its offset
        first, a descending one keeps the last `capacity`. */
    ghost predicate ValidFor(ms: seq<Message>)
      reads this
    {
      var found := Matching(q, ms);
      && capacity == Size(q) + (if q.fromEnd then Skip(q) else 0)
      && |items| <= capacity
      && start <= |items| && (start > 0 ==> q.fromEnd && |items| == capacity && start < capacity)
      && (Size(q) == 0 ==> items == [])
      && (Size(q) > 0 && q.fromEnd ==> Rotated(items, start) == LastN(found, capacity))
      && (Size(q) > 0 && !q.fromEnd ==>
            && items == FirstN(DropFirst(found, Skip(q)), capacity)
            && skipped == if |found| < Skip(q) then |found| else Skip(q))
    }

    ghost predicate Valid()
      reads this
    {
      ValidFor(seen)
    }

    constructor (q: Query)
      ensures Valid() && this.q == q && seen == []
    {
      this.q := q;
      capacity := Size(q) + (if q.fromEnd && q.at.None? then q.offset else 0);
      items, start, skipped, seen := [], 0, 0, [];
    }

    /** One more message. `more` false: nothing that may still come can change the result. */
    method Add(m: Message) returns (more: bool)
      requires Valid()
      modifies this
      ensures Valid() && seen == old(seen) + [m]
      ensures !more ==> Enough(q, seen)
      ensures more <==> Size(q) > 0 && (q.fromEnd || !Matches(q, m) || |Matching(q, seen)| < Skip(q) + Size(q))
    {
      seen := seen + [m];
      assert seen[..|seen| - 1] == old(seen);
      if q.limit <= 0 || (!q.fromEnd && |Matching(q, seen)| >= Skip(q) + Size(q)) {
        Settled(q, seen);
      }
      if q.limit <= 0 {
        return false;
      }
      if q.role != 0 && m.role != q.role {
        return true;
      }
      if q.at.Some? && m.at.Some? {
        if q.fromEnd && m.at.value > q.at.value {
          return true;
        }
        if !q.fromEnd && m.at.value < q.at.value {
          return true;
        }
      }
      if !q.fromEnd {
        more := KeepAscending(m);
        return;
      }
      KeepInRing(m);
      return true;
    }

    /** The part of Add that a matching message gets to, from the oldest end. */
    method KeepAscending(m: Message) returns (more: bool)
      requires Size(q) > 0 && !q.fromEnd
      requires seen != [] && m == seen[|seen| - 1] && Matches(q, m) && ValidFor(seen[..|seen| - 1])
      modifies `items, `skipped
      ensures Valid()
      ensures more <==> |Matching(q, seen)| < Skip(q) + Size(q)
    {
      if q.at.None? && skipped < q.offset {
        skipped := skipped + 1;
        return true;
      }
      if |items| >= q.limit {
        return false;
      }
      items := items + [m];
      return |items| < q.limit;
    }

    /** The same from the newest end: a ring. */
    method KeepInRing(m: Message)
      requires Size(q) > 0 && q.fromEnd
      requires seen != [] && m == seen[|seen| - 1] && Matches(q, m) && ValidFor(seen[..|seen| - 1])
      modifies `items, `start
      ensures Valid()
    {
      RingKeeps(Matching(q, seen[..|seen| - 1]), items, start, m, capacity);
      if |items| < capacity {
        items := items + [m];
        return;
      }
      items := items[start := m];
      start := (start + 1) % capacity;
    }

    /** The window, in the order of the session. */
    method Result() returns (r: seq<Message>)
      requires Valid()
      ensures r == Window(q, seen)
    {
      if |items| == 0 {
        return [];
      }
      if !q.fromEnd {
        return items;
      }
      var ordered := items;
      if start != 0 {
        ordered := items[start..] + items[..start];
      }
      assert ordered == Rotated(items, start);
      TailWindow(Matching(q, seen), ordered, Size(q), Skip(q));
      if q.at.None? && q.offset > 0 {
        var end := |ordered| - q.offset;
        if end <= 0 {
          return [];
        }
        var first := if end - Size(q) < 0 then 0 else end - Size(q);
        return ordered[first..end];
      }
      return ordered;
    }
  }

  /** A source reading a session into a sink: it heeds the sink and stops early. */
  method Collect(q: Query, ms: seq<Message>) returns (r: seq<Message>)
    ensures r == Window(q, ms)
  {
    var sink := new Sink(q);
    for i := 0 to |ms|
      invariant fresh(sink) && sink.Valid() && sink.q == q && sink.seen == ms[..i]
    {
      assert ms[..i + 1] == ms[..i] + [ms[i]];
      var more := sink.Add(ms[i]);
      if !more {
        EnoughOf(q, sink.seen, ms);
        r := sink.Result();
        return;
      }
    }
    assert ms[..|ms|] == ms;
    r := sink.Result();
  }

  lemma {:induction false} MatchingAll(q: Query, ms: seq<Message>)
    requires q.role == 0 && q.at.None?
    ensures Matching(q, ms) == ms
  {
    if ms != [] {
      MatchingAll(q, ms[..|ms| - 1]);
    }
  }

  /** Limit and offset play no part in what matches. */
  lemma {:induction false} MatchingSame(q: Query, p: Query, ms: seq<Message>)
    requires q.role == p.role && q.at == p.at && q.fromEnd == p.fromEnd
    ensures Matching(q, ms) == Matching(p, ms)
  {
    if ms != [] {
      MatchingSame(q, p, ms[..|ms| - 1]);
    }
  }
}
