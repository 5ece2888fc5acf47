/** Pages of a session's messages: one page, all the pages a client walks, and the exporter's walk. */
module Paging {
  import opened Options
  import opened Collections
  import opened MessageSink
  import opened Cursor

  const MAX_MESSAGE_OFFSET := 20000
  const OTEL_PAGE := 2000
  const OTEL_MAX_MESSAGES := 500_000

  function Pos(n: int): nat { if n < 0 then 0 else n }

  /** One page of what was fetched: counted from the start, or back from the end. */
  function PageMessages(fetched: seq<Message>, offset: nat, limit: nat, fromEnd: bool): seq<Message>
  {
    if fromEnd then
      var end := Pos(|fetched| - offset);
      fetched[Pos(end - limit)..end]
    else
      var out := fetched[if offset > |fetched| then |fetched| else offset..];
      if |out| > limit then out[..limit] else out
  }

  /** Reading one message more than the pages so far show changes nothing on the page, and is how
      a page knows that another follows. */
  lemma {:induction false} PageIsWindow(q: Query, ms: seq<Message>, fetched: seq<Message>)
    requires q.limit >= 0 && (q.at.Some? ==> q.offset == 0)
    requires fetched == Window(q.(limit := q.offset + q.limit + 1, offset := 0), ms)
    ensures PageMessages(fetched, q.offset, q.limit, q.fromEnd) == Window(q, ms)
    ensures |fetched| > q.offset + q.limit <==> |Matching(q, ms)| > q.offset + q.limit
  {
    var found := Matching(q, ms);
    WithoutOffset(q, ms, q.offset + q.limit + 1);
    if q.fromEnd {
      PageFromEnd(found, fetched, q.offset, q.limit);
    } else {
      PageFromStart(found, fetched, q.offset, q.limit);
    }
  }

  lemma {:induction false} WithoutOffset(q: Query, ms: seq<Message>, n: nat)
    ensures Window(q.(limit := n, offset := 0), ms) == Shown(Matching(q, ms), n, q.fromEnd)
  {
    MatchingSame(q, q.(limit := n, offset := 0), ms);
    assert DropLast(Matching(q, ms), 0) == Matching(q, ms) == DropFirst(Matching(q, ms), 0);
  }

  lemma {:induction false} PageFromStart(found: seq<Message>, fetched: seq<Message>, offset: nat, limit: nat)
    requires fetched == FirstN(found, offset + limit + 1)
    ensures PageMessages(fetched, offset, limit, false) == FirstN(DropFirst(found, offset), limit)
    ensures |fetched| > offset + limit <==> |found| > offset + limit
  {
    if |found| > offset + limit {
      SliceOfFirst(found, offset + limit + 1, offset, limit);
    } else {
      assert fetched == found;
    }
  }

  lemma {:induction false} SliceOfFirst(found: seq<Message>, n: nat, offset: nat, limit: nat)
    requires offset + limit < n <= |found|
    ensures found[..n][offset..][..limit] == found[offset..][..limit]
  {
  }

  lemma {:induction false} PageFromEnd(found: seq<Message>, fetched: seq<Message>, offset: nat, limit: nat)
    requires fetched == LastN(found, offset + limit + 1)
    ensures PageMessages(fetched, offset, limit, true) == LastN(DropLast(found, offset), limit)
    ensures |fetched| > offset + limit <==> |found| > offset + limit
  {
    var lost := |found| - |fetched|;
    assert fetched == found[lost..];
    if |fetched| > offset {
      assert DropLast(found, offset) == found[..|found| - offset];
    }
  }

  const USER: Role := 1
  const ASSISTANT: Role := 2

  /** The roles that may be asked for; 0 is any. */
  predicate KnownRole(role: Role)
  {
    role == 0 || role == USER || role == ASSISTANT
  }

  /** The get_messages tool: a page and, when more follows, the cursor to it. A cursor past the deepest page
      is refused, and so are a cursor with an anchor and any other role. An anchored page has no cursor.
      `session` is what the source reads, in order. */
  method GetMessages(session: seq<Message>, limit: nat, cursor: Text, fromEnd: bool, at: Option<int>, role: Role)
    returns (page: Option<seq<Message>>, next: Option<Text>)
    ensures page.None? <==>
              DecodeCursor(cursor) > MAX_MESSAGE_OFFSET || (at.Some? && cursor != []) || role !in {0, USER, ASSISTANT}
    ensures page.Some? ==>
              var q := Query(limit, fromEnd, at, DecodeCursor(cursor), role);
              && page.value == Window(q, session)
              && (next.Some? <==> at.None? && limit > 0 && |Matching(q, session)| > q.offset + limit)
              && (next.Some? ==> next.value == EncodeCursor(q.offset + limit) && |page.value| == limit)
    ensures page.None? ==> next.None?
    ensures page.Some? ==>
              forall m :: m in page.value ==>
                && m in session && (role == 0 || m.role == role)
                && (at.None? || m.at.None?
                    || (fromEnd && m.at.value <= at.value) || (!fromEnd && at.value <= m.at.value))
  {
    var offset := DecodeCursor(cursor);
    if offset > MAX_MESSAGE_OFFSET {
      return None, None;
    }
    if at.Some? && cursor != [] {
      return None, None;
    }
    if role != 0 && role != USER && role != ASSISTANT {
      return None, None;
    }
    NoCursor();
    var messages;
    var q := Query(limit, fromEnd, at, offset, role);
    messages, next := PageAt(session, q);
    WindowWithin(q, session);
    ghost var keep := MatchingIs(q, session);
    page := Some(messages);
  }

  lemma {:induction false} NoCursor()
    ensures DecodeCursor([]) == 0
  {
  }

  /** One page: the fetch reads one message past it, which is how another page shows. */
  method PageAt(session: seq<Message>, q: Query) returns (page: seq<Message>, next: Option<Text>)
    requires q.limit >= 0 && (q.at.Some? ==> q.offset == 0)
    ensures page == Window(q, session)
    ensures next.Some? <==> q.at.None? && q.limit > 0 && |Matching(q, session)| > q.offset + q.limit
    ensures next.Some? ==> next.value == EncodeCursor(q.offset + q.limit) && |page| == q.limit
  {
    var fetched := Collect(q.(limit := q.offset + q.limit + 1, offset := 0), session);
    PageIsWindow(q, session, fetched);
    PageLength(q, session);
    page, next := PageMessages(fetched, q.offset, q.limit, q.fromEnd), None;
    if q.limit > 0 && q.at.None? && |page| == q.limit && |fetched| > q.offset + |page| {
      next := Some(EncodeCursor(q.offset + |page|));
    }
  }

  lemma {:induction false} PageLength(q: Query, session: seq<Message>)
    requires q.limit >= 0
    ensures |Matching(q, session)| > q.offset + q.limit ==> |Window(q, session)| == q.limit
  {
  }

  /** How many messages the pages of one walk can show before the next cursor is refused. */
  function Reach(limit: nat): nat
    requires limit > 0
  {
    limit * (MAX_MESSAGE_OFFSET / limit + 1)
  }

  lemma {:induction false} ReachedAt(pages: nat, limit: nat)
    requires limit > 0 && pages > 0
    requires (pages - 1) * limit <= MAX_MESSAGE_OFFSET < pages * limit
    ensures pages * limit == Reach(limit)
  {
    var k := MAX_MESSAGE_OFFSET / limit;
    assert k * limit <= MAX_MESSAGE_OFFSET < (k + 1) * limit;
    if pages < k + 1 {
      TimesAtMost(pages, k, limit);
    } else if pages > k + 1 {
      TimesAtMost(k + 1, pages - 1, limit);
    }
  }

  lemma {:induction false} TimesAtMost(a: nat, b: nat, n: nat)
    requires a <= b
    ensures a * n <= b * n
  {
  }

  /** What pages of the given total length show, from the end asked for. */
  function Shown(found: seq<Message>, n: nat, fromEnd: bool): seq<Message>
  {
    if fromEnd then LastN(found, n) else FirstN(found, n)
  }

  lemma {:induction false} FirstGrows(found: seq<Message>, n: nat, limit: nat)
    ensures FirstN(found, n + limit) == FirstN(found, n) + FirstN(DropFirst(found, n), limit)
  {
    if |found| > n + limit {
      assert found[..n + limit] == found[..n] + found[n..][..limit];
    } else if |found| > n {
      assert found == found[..n] + found[n..];
    }
  }

  lemma {:induction false} LastGrows(found: seq<Message>, n: nat, limit: nat)
    ensures LastN(found, n + limit) == LastN(DropLast(found, n), limit) + LastN(found, n)
  {
    var m := |found| - n;
    if m > limit {
      CutAgain(found, m - limit, m);
      assert LastN(DropLast(found, n), limit) == found[..m][m - limit..];
    } else if m > 0 {
      CutAgain(found, 0, m);
      assert LastN(DropLast(found, n), limit) == found[..m];
    }
  }

  lemma {:induction false} CutAgain(found: seq<Message>, a: nat, b: nat)
    requires a <= b <= |found|
    ensures found[a..] == found[..b][a..] + found[b..]
    ensures found[..b][0..] == found[..b] && found[0..] == found
  {
  }

  lemma {:induction false} PageIsShort(found: seq<Message>, n: nat, limit: nat)
    ensures |LastN(DropLast(found, n), limit)| < limit ==> |found| < n + limit
    ensures |FirstN(DropFirst(found, n), limit)| < limit ==> |found| < n + limit
  {
  }

  /** The next page extends what was seen at the far end. */
  lemma {:induction false} ShownGrows(q: Query, session: seq<Message>, found: seq<Message>)
    requires found == Matching(q, session) && q.limit >= 0 && q.at.None?
    ensures Shown(found, q.offset + q.limit, q.fromEnd)
         == if q.fromEnd then Window(q, session) + Shown(found, q.offset, true)
            else Shown(found, q.offset, false) + Window(q, session)
    ensures |Window(q, session)| < q.limit ==> |found| < q.offset + q.limit
  {
    PageIsShort(found, q.offset, q.limit);
    if q.fromEnd {
      LastGrows(found, q.offset, q.limit);
    } else {
      FirstGrows(found, q.offset, q.limit);
    }
  }

  /** Once everything is seen, looking further shows nothing more. */
  lemma {:induction false} ShownAll(found: seq<Message>, n: nat, more: nat, fromEnd: bool)
    requires |found| <= n <= more
    ensures Shown(found, n, fromEnd) == found == Shown(found, more, fromEnd)
  {
  }

  function OfRole(role: Role): Message -> bool
  {
    (m: Message) => role == 0 || m.role == role
  }

  /** All the messages a walk is about. */
  function Wanted(session: seq<Message>, role: Role): seq<Message>
  {
    Filter(session, OfRole(role))
  }

  /** One request of a client that keeps what it read, in the order of the session. */
  method ReadOn(session: seq<Message>, limit: nat, cursor: Text, fromEnd: bool, role: Role, read: seq<Message>)
    returns (now: seq<Message>, next: Option<Text>, refused: bool)
    requires 0 < limit < MAX_INT - MAX_MESSAGE_OFFSET && KnownRole(role)
    requires read == Shown(Wanted(session, role), DecodeCursor(cursor), fromEnd)
    ensures refused <==> DecodeCursor(cursor) > MAX_MESSAGE_OFFSET
    ensures refused ==> now == read
    ensures !refused ==>
              var found, reach := Wanted(session, role), DecodeCursor(cursor) + limit;
              && now == Shown(found, reach, fromEnd)
              && (next.Some? <==> |found| > reach)
              && (next.Some? ==> DecodeCursor(next.value) == reach)
  {
    var page;
    page, next := GetMessages(session, limit, cursor, fromEnd, None, role);
    now, refused := read, page.None?;
    if !refused {
      now := if fromEnd then page.value + read else read + page.value;
      PageRead(session, Query(limit, fromEnd, None, DecodeCursor(cursor), role), read, page.value, next);
    }
  }

  /** What that leaves a client with, and where it is told to go on. */
  lemma {:induction false} PageRead(session: seq<Message>, q: Query, read: seq<Message>, page: seq<Message>,
                                    next: Option<Text>)
    requires 0 < q.limit < MAX_INT - MAX_MESSAGE_OFFSET && q.offset <= MAX_MESSAGE_OFFSET && q.at.None?
    requires page == Window(q, session) && read == Shown(Wanted(session, q.role), q.offset, q.fromEnd)
    requires next.Some? <==> |Matching(q, session)| > q.offset + q.limit
    requires next.Some? ==> next.value == EncodeCursor(q.offset + q.limit)
    ensures
      var found, reach := Wanted(session, q.role), q.offset + q.limit;
      && (if q.fromEnd then page + read else read + page) == Shown(found, reach, q.fromEnd)
      && (next.Some? <==> |found| > reach)
      && (next.Some? ==> DecodeCursor(next.value) == reach)
  {
    PageAdds(session, q, read, page);
    CursorRoundTrip(q.offset + q.limit);
  }

  /** What a client has after one page more. */
  lemma {:induction false} PageAdds(session: seq<Message>, q: Query, read: seq<Message>, page: seq<Message>)
    requires q.limit > 0 && q.at.None? && page == Window(q, session)
    requires read == Shown(Wanted(session, q.role), q.offset, q.fromEnd)
    ensures Wanted(session, q.role) == Matching(q, session)
    ensures (if q.fromEnd then page + read else read + page)
         == Shown(Wanted(session, q.role), q.offset + q.limit, q.fromEnd)
  {
    MatchingFilters(q, session, OfRole(q.role));
    ShownGrows(q, session, Matching(q, session));
  }

  /** A client that follows nextCursor until there is none, or it is refused. A walk that ends by
      itself saw every matching message exactly once; one is refused exactly when the matching
      messages reach past the deepest page, and then it saw that many from the end asked for. */
  method FollowCursors(session: seq<Message>, limit: nat, fromEnd: bool, role: Role)
    returns (read: seq<Message>, refused: bool)
    requires 0 < limit < MAX_INT - MAX_MESSAGE_OFFSET   // a page's end is still an int
    requires KnownRole(role)
    ensures refused <==> |Wanted(session, role)| > Reach(limit)
    ensures read == Shown(Wanted(session, role), Reach(limit), fromEnd)
    ensures !refused ==> read == Wanted(session, role)
  {
    ghost var found, pages := Wanted(session, role), 0;
    var cursor: Text := [];
    read := [];
    while true
      invariant DecodeCursor(cursor) == pages * limit
      invariant read == Shown(found, pages * limit, fromEnd)
      invariant pages > 0 ==> pages * limit < |found| && (pages - 1) * limit <= MAX_MESSAGE_OFFSET
      decreases |found| + limit - pages * limit
    {
      var next;
      read, next, refused := ReadOn(session, limit, cursor, fromEnd, role, read);
      if refused {
        ReachedAt(pages, limit);
        return;
      }
      assert pages * limit + limit == (pages + 1) * limit;
      pages := pages + 1;
      if next.None? {
        WalkEnds(pages, limit);
        ShownAll(found, pages * limit, Reach(limit), fromEnd);
        return;
      }
      cursor := next.value;
    }
  }

  lemma {:induction false} WalkEnds(pages: nat, limit: nat)
    requires limit > 0 && pages > 0 && (pages - 1) * limit <= MAX_MESSAGE_OFFSET
    ensures pages * limit <= Reach(limit)
  {
    var k := MAX_MESSAGE_OFFSET / limit;
    assert (k + 1) * limit > MAX_MESSAGE_OFFSET;
    if pages > k + 1 {
      TimesAtMost(k + 1, pages - 1, limit);
    } else {
      TimesAtMost(pages, k + 1, limit);
    }
  }

  /** The exporter reads a session whole, page by page from the end: the last 500 000 messages. */
  method AllMessages(session: seq<Message>) returns (all: seq<Message>)
    ensures all == LastN(session, OTEL_MAX_MESSAGES)
  {
    all := [];
    var offset := 0;
    while offset < OTEL_MAX_MESSAGES
      invariant 0 <= offset <= OTEL_MAX_MESSAGES && offset % OTEL_PAGE == 0
      invariant ReadBack(session, offset, all)
    {
      var batch := Collect(Query(OTEL_PAGE, true, None, offset, 0), session);
      ReadBackOn(session, offset, all, batch);
      if |batch| == 0 {
        break;
      }
      all := batch + all;
      if |batch| < OTEL_PAGE {
        break;
      }
      offset := offset + OTEL_PAGE;
    }
  }

  /** The last messages of the session have been read, as many as this. */
  ghost predicate ReadBack(session: seq<Message>, offset: nat, all: seq<Message>)
  {
    all == LastN(session, offset)
  }

  /** The page before them, put in front; a short one is where the session begins. */
  lemma {:induction false} ReadBackOn(session: seq<Message>, offset: nat, all: seq<Message>, batch: seq<Message>)
    requires ReadBack(session, offset, all) && offset + OTEL_PAGE <= OTEL_MAX_MESSAGES
    requires batch == Window(Query(OTEL_PAGE, true, None, offset, 0), session)
    ensures ReadBack(session, offset + OTEL_PAGE, batch + all)
    ensures |batch| < OTEL_PAGE ==> ReadBack(session, OTEL_MAX_MESSAGES, batch + all)
    ensures |batch| == 0 ==> batch + all == all
  {
    var q := Query(OTEL_PAGE, true, None, offset, 0);
    MatchingAll(q, session);
    ShownGrows(q, session, session);
    if |batch| < OTEL_PAGE {
      ShownAll(session, offset + OTEL_PAGE, OTEL_MAX_MESSAGES, true);
    }
  }
}
