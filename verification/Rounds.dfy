/** Cutting a session into rounds: one per ask, each with what its tool calls touched and changed. */
module Rounds {
  import opened Options
  import opened Collections

  type Str = nat     // strings that are only compared or copied; 0 is the empty string
  type File = Str

  datatype Block =
    | ToolCall(id: Str, name: Str, files: seq<File>, command: Str, write: bool, exec: bool)
    | ToolResult(callId: Str, failed: bool, toolName: Str, output: Str)
    | Event(interrupted: bool)
    | Other

  datatype Message = Message(start: bool, assistant: bool, at: Str, asked: Str, text: Str, blocks: seq<Block>)

  datatype Call = Call(name: Str, command: Str)

  datatype Failure = Failure(at: Str, tool: Str, command: Str, output: Str)

  /** The write-kind calls of a round: pending are those still waiting for their result. */
  datatype Writes = Writes(files: seq<File>, changed: seq<File>, pending: map<Str, seq<File>>)

  /** What a round counts, and the calls it remembers for the results that report them failed. */
  datatype Tally = Tally(messages: nat, toolCalls: nat, failures: nat, failed: seq<Failure>, calls: map<Str, Call>)

  /** A round; the source's flat struct, its fields grouped by what they are for. */
  datatype Round = Round(
    index: nat, asked: Str, startAt: Str, endAt: Str, lastAt: Str, outcome: Str,
    interrupted: bool, commands: seq<Str>, tally: Tally, writes: Writes)

  function NewRound(index: nat, m: Message): Round
  {
    Round(index, m.asked, m.at, 0, 0, 0, false, [], Tally(0, 0, 0, [], map[]), Writes([], [], map[]))
  }

  function AppendUnique(list: seq<File>, f: File): seq<File>
  {
    if f in list then list else list + [f]
  }

  function AppendAll(list: seq<File>, files: seq<File>): seq<File>
    decreases |files|
  {
    if files == [] then list else AppendAll(AppendUnique(list, files[0]), files[1..])
  }

  /** noteWrite: a call without an id is a change on the spot; one with an id waits. */
  function NoteWrite(w: Writes, id: Str, files: seq<File>): Writes
  {
    if files == [] then w
    else if id == 0 then w.(changed := AppendAll(w.changed, files))
    else w.(pending := w.pending[id := files])
  }

  /** settleWrite: the result of a waiting call; a failure is not a change. */
  function SettleWrite(w: Writes, callId: Str, failed: bool): Writes
  {
    if callId !in w.pending then w
    else
      w.(pending := w.pending - {callId},
         changed := if failed then w.changed else AppendAll(w.changed, w.pending[callId]))
  }

  function StepWrites(w: Writes, b: Block): Writes
  {
    match b
    case ToolCall(id, _, files, _, write, _) =>
      var named := w.(files := AppendAll(w.files, files));
      if write then NoteWrite(named, id, files) else named
    case ToolResult(callId, failed, _, _) => SettleWrite(w, callId, failed)
    case _ => w
  }

  function StepTally(t: Tally, b: Block, at: Str): Tally
  {
    match b
    case ToolCall(id, name, _, command, _, _) =>
      t.(toolCalls := t.toolCalls + 1, calls := if id != 0 then t.calls[id := Call(name, command)] else t.calls)
    case ToolResult(callId, true, toolName, output) =>
      var call := if callId in t.calls then t.calls[callId] else Call(0, 0);
      var tool := if call.name != 0 then call.name else toolName;
      t.(failures := t.failures + 1, failed := t.failed + [Failure(at, tool, call.command, output)])
    case _ => t
  }

  function StepBlock(r: Round, b: Block, at: Str): Round
  {
    r.(tally := StepTally(r.tally, b, at),
       writes := StepWrites(r.writes, b),
       commands := if b.ToolCall? && b.exec && b.command != 0 then r.commands + [b.command] else r.commands,
       interrupted := r.interrupted || (b.Event? && b.interrupted))
  }

  function StepBlocks(r: Round, bs: seq<Block>, at: Str): Round
  {
    if bs == [] then r else StepBlock(StepBlocks(r, bs[..|bs| - 1], at), bs[|bs| - 1], at)
  }

  /** A row is work when the ask or the agent made it, or when it holds tool calls or events. */
  function Work(m: Message): bool
  {
    m.start || m.assistant || exists i :: 0 <= i < |m.blocks| && m.blocks[i] != Other
  }

  /** The row itself, before its blocks. */
  function Reached(r: Round, m: Message): Round
  {
    r.(lastAt := if m.at != 0 then m.at else r.lastAt, tally := r.tally.(messages := r.tally.messages + 1))
  }

  function StepMessage(r: Round, m: Message): Round
  {
    var r1 := Reached(r, m);
    var r2 := StepBlocks(r1, m.blocks, m.at);
    r2.(outcome := if m.assistant && m.text != 0 then m.text else r2.outcome,
        endAt := if Work(m) && m.at != 0 then m.at else r2.endAt)
  }

  /** The messages of one round, first the ask. */
  function StepMessages(r: Round, ms: seq<Message>): Round
  {
    if ms == [] then r else StepMessage(StepMessages(r, ms[..|ms| - 1]), ms[|ms| - 1])
  }

  /** An ask and the messages up to the next one. */
  datatype Segment = Segment(ask: Message, rest: seq<Message>)

  /** What one round comes to: an ask answered by nothing but the next ask was interrupted. */
  function RoundOf(index: nat, seg: Segment): Round
  {
    var r := StepMessages(NewRound(index, seg.ask), [seg.ask] + seg.rest);
    r.(interrupted := r.interrupted || seg.rest == [])
  }

  /** How many messages come before the next ask. */
  function BeforeAsk(ms: seq<Message>): (n: nat)
    ensures n <= |ms|
    ensures n < |ms| ==> ms[n].start
    ensures forall k :: 0 <= k < n ==> !ms[k].start
  {
    if ms == [] || ms[0].start then 0 else 1 + BeforeAsk(ms[1..])
  }

  /** The segmentation, with no state: messages before the first ask belong to no round. */
  function Segments(ms: seq<Message>): seq<Segment>
    decreases |ms|
  {
    if ms == [] then []
    else if !ms[0].start then Segments(ms[1..])
    else
      var n := BeforeAsk(ms[1..]);
      [Segment(ms[0], ms[1..n + 1])] + Segments(ms[n + 1..])
  }

  /** The rounds of consecutive segments, numbered on from the rounds before. */
  function Numbered(segs: seq<Segment>, from: nat): (rs: seq<Round>)
    ensures |rs| == |segs|
  {
    if segs == [] then [] else [RoundOf(from + 1, segs[0])] + Numbered(segs[1..], from + 1)
  }

  function RoundsFrom(ms: seq<Message>, from: nat): seq<Round>
  {
    Numbered(Segments(ms), from)
  }

  lemma {:induction false} BeforeAskIs(ms: seq<Message>, n: nat)
    requires n <= |ms| && (n < |ms| ==> ms[n].start)
    requires forall k :: 0 <= k < n ==> !ms[k].start
    ensures BeforeAsk(ms) == n
  {
  }

  lemma {:induction false} FirstSegment(ms: seq<Message>, n: nat)
    requires ms != [] && ms[0].start && n == BeforeAsk(ms[1..])
    ensures n < |ms| && (n + 1 < |ms| ==> ms[n + 1].start)
    ensures Segments(ms) == [Segment(ms[0], ms[1..n + 1])] + Segments(ms[n + 1..])
  {
  }

  lemma {:induction false} SlicesOfConcat<T>(a: seq<T>, b: seq<T>, n: nat)
    requires n < |a|
    ensures (a + b)[1..n + 1] == a[1..n + 1] && (a + b)[n + 1..] == a[n + 1..] + b
  {
  }

  lemma {:induction false} SameAhead(a: seq<Message>, b: seq<Message>, n: nat)
    requires a != [] && n == BeforeAsk(a[1..])
    requires b != [] ==> b[0].start
    ensures n == BeforeAsk((a + b)[1..])
  {
    BeforeAskIs((a + b)[1..], n);
  }

  lemma {:induction false} HeadSegment(a: seq<Message>, b: seq<Message>, n: nat)
    requires a != [] && a[0].start && n == BeforeAsk(a[1..])
    requires b != [] ==> b[0].start
    ensures Segments(a + b) == [Segment(a[0], a[1..n + 1])] + Segments(a[n + 1..] + b)
  {
    SameAhead(a, b, n);
    FirstSegment(a + b, n);
    SlicesOfConcat(a, b, n);
  }

  lemma {:induction false} SegmentsConcat(a: seq<Message>, b: seq<Message>)
    requires b != [] ==> b[0].start
    ensures Segments(a + b) == Segments(a) + Segments(b)
    decreases |a|
  {
    if a == [] {
      assert a + b == b;
    } else if a[0].start {
      var n := BeforeAsk(a[1..]);
      HeadSegment(a, b, n);
      SegmentsConcat(a[n + 1..], b);
      FirstSegment(a, n);
      ConsConcat(Segment(a[0], a[1..n + 1]), Segments(a[n + 1..]), Segments(b));
    } else {
      SegmentsConcat(a[1..], b);
      SkipOne(a, b);
    }
  }

  lemma {:induction false} SkipOne(a: seq<Message>, b: seq<Message>)
    requires a != [] && !a[0].start
    ensures Segments(a + b) == Segments(a[1..] + b) && Segments(a) == Segments(a[1..])
  {
    assert (a + b)[1..] == a[1..] + b;
  }

  lemma {:induction false} FirstNumbered(segs: seq<Segment>, more: seq<Segment>, from: nat)
    requires segs != []
    ensures Numbered(segs + more, from) == [RoundOf(from + 1, segs[0])] + Numbered(segs[1..] + more, from + 1)
  {
    assert (segs + more)[1..] == segs[1..] + more;
  }

  lemma {:induction false} NumberedConcat(a: seq<Segment>, b: seq<Segment>, from: nat)
    ensures Numbered(a + b, from) == Numbered(a, from) + Numbered(b, from + |a|)
  {
    if a == [] {
      assert a + b == b;
    } else {
      FirstNumbered(a, b, from);
      FirstNumbered(a, [], from);
      assert a + [] == a && a[1..] + [] == a[1..];
      NumberedConcat(a[1..], b, from + 1);
      ConsConcat(RoundOf(from + 1, a[0]), Numbered(a[1..], from + 1), Numbered(b, from + |a|));
    }
  }

  /** Sessions joined where the second one opens with an ask are cut as if read apart, the second
      one's rounds numbered on. */
  lemma {:induction false} RoundsConcat(a: seq<Message>, b: seq<Message>, from: nat)
    requires b != [] ==> b[0].start
    ensures RoundsFrom(a + b, from) == RoundsFrom(a, from) + RoundsFrom(b, from + |RoundsFrom(a, from)|)
  {
    var sa, sb := Segments(a), Segments(b);
    assert Segments(a + b) == sa + sb by {
      SegmentsConcat(a, b);
    }
    NumberedConcat(sa, sb, from);
  }

  /** The loop's bookkeeping: where the current round began, and the rounds it closed. */
  ghost predicate Midway(ms: seq<Message>, i: nat, ask: nat, rounds: seq<Round>, cur: Option<Round>, humanLast: bool)
  {
    && ask <= i <= |ms|
    && rounds == RoundsFrom(ms[..ask], 0)
    && (cur.None? ==> ask == i && forall k :: 0 <= k < i ==> !ms[k].start)
    && (cur.Some? ==>
          && ask < i && ms[ask].start && (forall k :: ask < k < i ==> !ms[k].start)
          && cur.value == StepMessages(NewRound(|rounds| + 1, ms[ask]), [ms[ask]] + ms[ask + 1..i])
          && humanLast == (i == ask + 1))
  }

  /** The round that ends at i is the last of the rounds up to i. */
  lemma {:induction false} CloseRound(ms: seq<Message>, ask: nat, i: nat)
    requires ask < i <= |ms| && ms[ask].start
    requires forall k :: ask < k < i ==> !ms[k].start
    ensures Segments(ms[..i]) == Segments(ms[..ask]) + [Segment(ms[ask], ms[ask + 1..i])]
  {
    var seg := ms[ask..i];
    assert ms[..i] == ms[..ask] + seg;
    SegmentsConcat(ms[..ask], seg);
    BeforeAskIs(seg[1..], i - ask - 1);
    assert seg[1..i - ask] == ms[ask + 1..i] && seg[i - ask..] == [];
  }

  lemma {:induction false} LastNumbered(segs: seq<Segment>, seg: Segment, from: nat)
    ensures Numbered(segs + [seg], from) == Numbered(segs, from) + [RoundOf(from + |segs| + 1, seg)]
  {
    NumberedConcat(segs, [seg], from);
    assert [seg][1..] == [];
  }

  lemma {:induction false} NoAsk(ms: seq<Message>)
    requires forall k :: 0 <= k < |ms| ==> !ms[k].start
    ensures Segments(ms) == []
  {
    if ms != [] {
      NoAsk(ms[1..]);
    }
  }

  /** The message at i folded into the round that began at ask. */
  lemma {:induction false} StepOne(r: Round, ms: seq<Message>, ask: nat, i: nat)
    requires ask <= i < |ms|
    ensures ask == i ==> StepMessages(r, [ms[ask]] + ms[ask + 1..i + 1]) == StepMessage(r, ms[i])
    ensures ask < i ==>
              StepMessages(r, [ms[ask]] + ms[ask + 1..i + 1])
              == StepMessage(StepMessages(r, [ms[ask]] + ms[ask + 1..i]), ms[i])
  {
    var now := [ms[ask]] + ms[ask + 1..i + 1];
    assert now[..|now| - 1] == if ask == i then [] else [ms[ask]] + ms[ask + 1..i];
  }

  function Closed(cur: Round, humanLast: bool): Round
  {
    cur.(interrupted := cur.interrupted || humanLast)
  }

  lemma {:induction false} MidwayClosed(ms: seq<Message>, i: nat, ask: nat, rounds: seq<Round>, cur: Round,
                                        humanLast: bool)
    requires Midway(ms, i, ask, rounds, Some(cur), humanLast)
    ensures rounds + [Closed(cur, humanLast)] == RoundsFrom(ms[..i], 0)
  {
    CloseRound(ms, ask, i);
    LastNumbered(Segments(ms[..ask]), Segment(ms[ask], ms[ask + 1..i]), 0);
  }

  lemma {:induction false} MidwayOpened(ms: seq<Message>, i: nat, rounds: seq<Round>)
    requires i < |ms| && ms[i].start && rounds == RoundsFrom(ms[..i], 0)
    ensures Midway(ms, i + 1, i, rounds, Some(StepMessage(NewRound(|rounds| + 1, ms[i]), ms[i])), true)
  {
    StepOne(NewRound(|rounds| + 1, ms[i]), ms, i, i);
  }

  lemma {:induction false} MidwayMore(ms: seq<Message>, i: nat, ask: nat, rounds: seq<Round>, cur: Round,
                                      humanLast: bool)
    requires i < |ms| && !ms[i].start && Midway(ms, i, ask, rounds, Some(cur), humanLast)
    ensures Midway(ms, i + 1, ask, rounds, Some(StepMessage(cur, ms[i])), false)
  {
    StepOne(NewRound(|rounds| + 1, ms[ask]), ms, ask, i);
  }

  lemma {:induction false} MidwaySkipped(ms: seq<Message>, i: nat, rounds: seq<Round>, humanLast: bool)
    requires i < |ms| && !ms[i].start && Midway(ms, i, i, rounds, None, humanLast)
    ensures Midway(ms, i + 1, i + 1, rounds, None, humanLast)
  {
    NoAsk(ms[..i]);
    NoAsk(ms[..i + 1]);
  }

  /** One message folded into the current round, block by block. */
  method FoldMessage(cur: Round, m: Message) returns (r: Round)
    ensures r == StepMessage(cur, m)
  {
    r := cur;
    if m.at != 0 {
      r := r.(lastAt := m.at);
    }
    var work := m.start || m.assistant;
    r := r.(tally := r.tally.(messages := r.tally.messages + 1));
    ghost var before := r;
    for i := 0 to |m.blocks|
      invariant r == StepBlocks(before, m.blocks[..i], m.at)
      invariant work <==> m.start || m.assistant || exists k :: 0 <= k < i && m.blocks[k] != Other
    {
      assert m.blocks[..i + 1][..i] == m.blocks[..i];
      if m.blocks[i] != Other {
        work := true;
      }
      r := StepBlock(r, m.blocks[i], m.at);
    }
    assert m.blocks[..|m.blocks|] == m.blocks;
    if m.assistant && m.text != 0 {
      r := r.(outcome := m.text);
    }
    if work && m.at != 0 {
      r := r.(endAt := m.at);
    }
  }

  /** The source's loop: one pass, the current round kept on the side. */
  method SplitRounds(ms: seq<Message>) returns (rounds: seq<Round>)
    ensures rounds == RoundsFrom(ms, 0)
  {
    rounds := [];
    var cur: Option<Round>, humanLast := None, false;
    ghost var ask := 0;
    for i := 0 to |ms|
      invariant Midway(ms, i, ask, rounds, cur, humanLast)
    {
      rounds, cur, humanLast, ask := NextMessage(ms, i, rounds, cur, humanLast, ask);
    }
    assert ms[..|ms|] == ms;
    if cur.Some? {
      MidwayClosed(ms, |ms|, ask, rounds, cur.value, humanLast);
      rounds := rounds + [Closed(cur.value, humanLast)];
    }
  }

  /** One turn of that loop. */
  method NextMessage(ms: seq<Message>, i: nat, rounds: seq<Round>, cur: Option<Round>, humanLast: bool, ghost ask: nat)
    returns (rounds': seq<Round>, cur': Option<Round>, humanLast': bool, ghost ask': nat)
    requires i < |ms| && Midway(ms, i, ask, rounds, cur, humanLast)
    ensures Midway(ms, i + 1, ask', rounds', cur', humanLast')
  {
    var m := ms[i];
    rounds', cur', humanLast', ask' := rounds, cur, m.start, ask;
    if m.start {
      if cur.Some? {
        MidwayClosed(ms, i, ask, rounds, cur.value, humanLast);
        rounds' := rounds + [Closed(cur.value, humanLast)];
      }
      cur', ask' := Some(NewRound(|rounds'| + 1, m)), i;
      MidwayOpened(ms, i, rounds');
    } else if cur.None? {
      MidwaySkipped(ms, i, rounds, humanLast);
      humanLast', ask' := humanLast, i + 1;
      return;
    } else {
      MidwayMore(ms, i, ask, rounds, cur.value, humanLast);
    }
    var folded := FoldMessage(cur'.value, m);
    cur' := Some(folded);
  }
}
