/** What every other field of a round says of its messages. */
module RoundFields {
  import opened Collections
  import opened Rounds
  import opened RoundFacts

  /** The value that the last message to have one gives, 0 if none does. */
  ghost predicate IsLast(ms: seq<Message>, of: Message -> Str, v: Str)
  {
    || (v == 0 && forall i :: 0 <= i < |ms| ==> of(ms[i]) == 0)
    || (v != 0 && exists k :: 0 <= k < |ms| && of(ms[k]) == v && forall i :: k < i < |ms| ==> of(ms[i]) == 0)
  }

  lemma {:induction false} LastOn(ms: seq<Message>, of: Message -> Str, v: Str, m: Message)
    requires IsLast(ms, of, v)
    ensures IsLast(ms + [m], of, if of(m) != 0 then of(m) else v)
  {
    var all := ms + [m];
    assert all[|ms|] == m;
    if of(m) == 0 && v != 0 {
      var k :| 0 <= k < |ms| && of(ms[k]) == v && forall i :: k < i < |ms| ==> of(ms[i]) == 0;
      assert all[k] == ms[k];
    }
  }

  function At(): Message -> Str
  {
    (m: Message) => m.at
  }

  /** Of the ask, of the agent's own messages, and of those with a tool call, a result or an event. */
  function WorkAt(): Message -> Str
  {
    (m: Message) => if m.start || m.assistant || exists b :: b in m.blocks && !b.Other? then m.at else 0
  }

  function Answer(): Message -> Str
  {
    (m: Message) => if m.assistant then m.text else 0
  }

  /** The times and the words of a round, part-way through its messages. */
  ghost predicate TimesTrue(r: Round, ms: seq<Message>)
  {
    IsLast(ms, At(), r.lastAt) && IsLast(ms, WorkAt(), r.endAt) && IsLast(ms, Answer(), r.outcome)
  }

  /** The blocks leave alone what is known from the ask and from the messages themselves. */
  lemma {:induction false} BlocksLeave(r: Round, bs: seq<Block>, at: Str)
    ensures var r' := StepBlocks(r, bs, at);
      && r'.index == r.index && r'.asked == r.asked && r'.startAt == r.startAt
      && r'.lastAt == r.lastAt && r'.endAt == r.endAt && r'.outcome == r.outcome
  {
    if bs != [] {
      BlocksLeave(r, bs[..|bs| - 1], at);
    }
  }

  lemma {:induction false} WorkIs(m: Message)
    ensures Work(m) <==> m.start || m.assistant || exists b :: b in m.blocks && !b.Other?
  {
    if b :| b in m.blocks && !b.Other? {
      var i :| 0 <= i < |m.blocks| && m.blocks[i] == b;
    }
  }

  lemma {:induction false} TimesStep(r: Round, m: Message)
    ensures var r' := StepMessage(r, m);
      && r'.lastAt == (if At()(m) != 0 then At()(m) else r.lastAt)
      && r'.endAt == (if WorkAt()(m) != 0 then WorkAt()(m) else r.endAt)
      && r'.outcome == (if Answer()(m) != 0 then Answer()(m) else r.outcome)
      && r'.index == r.index && r'.asked == r.asked && r'.startAt == r.startAt
  {
    BlocksLeave(Reached(r, m), m.blocks, m.at);
    WorkIs(m);
  }

  lemma {:induction false} TimesOn(r: Round, ms: seq<Message>, m: Message)
    requires TimesTrue(r, ms)
    ensures TimesTrue(StepMessage(r, m), ms + [m])
    ensures var r' := StepMessage(r, m); r'.index == r.index && r'.asked == r.asked && r'.startAt == r.startAt
  {
    TimesStep(r, m);
    LastOn(ms, At(), r.lastAt, m);
    LastOn(ms, WorkAt(), r.endAt, m);
    LastOn(ms, Answer(), r.outcome, m);
  }

  lemma {:induction false} TimesOfMessages(r: Round, ms: seq<Message>)
    requires r.lastAt == r.endAt == r.outcome == 0
    ensures TimesTrue(StepMessages(r, ms), ms)
    ensures var r' := StepMessages(r, ms); r'.index == r.index && r'.asked == r.asked && r'.startAt == r.startAt
  {
    if ms != [] {
      var pre, m := ms[..|ms| - 1], ms[|ms| - 1];
      TimesOfMessages(r, pre);
      TimesOn(StepMessages(r, pre), pre, m);
      assert ms == pre + [m];
    }
  }

  // What the blocks leave behind

  function IsCommand(): Block -> bool
  {
    (b: Block) => b.ToolCall? && b.exec && b.command != 0
  }

  function CommandOf(b: Block): Str
  {
    if b.ToolCall? then b.command else 0
  }

  /** The commands are those of the calls that run one, in order; a stop that the agent reported is among the
      blocks; the files are those the calls name, each once. */
  ghost predicate BlocksTrue(r: Round, bs: seq<Block>)
  {
    && |r.commands| == |Filter(bs, IsCommand())|
    && (forall i :: 0 <= i < |r.commands| ==> r.commands[i] == CommandOf(Filter(bs, IsCommand())[i]))
    && (r.interrupted <==> exists b :: b in bs && b.Event? && b.interrupted)
    && (forall f :: f in r.writes.files <==> exists b :: b in bs && b.ToolCall? && f in b.files)
    && NoDuplicates(r.writes.files)
  }

  lemma {:induction false} FilesOn(w: Writes, bs: seq<Block>, b: Block)
    requires forall f :: f in w.files <==> exists c :: c in bs && c.ToolCall? && f in c.files
    requires NoDuplicates(w.files)
    ensures forall f :: f in StepWrites(w, b).files <==> exists c :: c in bs + [b] && c.ToolCall? && f in c.files
    ensures NoDuplicates(StepWrites(w, b).files)
  {
    if b.ToolCall? {
      AppendedAll(w.files, b.files);
      assert b in bs + [b];
    }
    forall f ensures (exists c :: c in bs + [b] && c.ToolCall? && f in c.files)
                <==> (exists c :: c in bs && c.ToolCall? && f in c.files) || (b.ToolCall? && f in b.files) {
      if c :| c in bs && c.ToolCall? && f in c.files {
        assert c in bs + [b];
      }
    }
  }

  lemma {:induction false} BlockOn(r: Round, bs: seq<Block>, b: Block, at: Str, all: seq<Block>)
    requires BlocksTrue(r, bs) && all == bs + [b]
    ensures BlocksTrue(StepBlock(r, b, at), all)
  {
    FilesOn(r.writes, bs, b);
    assert all[..|all| - 1] == bs && b in all;
    assert Filter(all, IsCommand()) == Filter(bs, IsCommand()) + if IsCommand()(b) then [b] else [];
    if r.interrupted {
      var c :| c in bs && c.Event? && c.interrupted;
      assert c in all;
    }
  }

  lemma {:induction false} BlocksOn(r: Round, before: seq<Block>, bs: seq<Block>, at: Str)
    requires BlocksTrue(r, before)
    ensures BlocksTrue(StepBlocks(r, bs, at), before + bs)
  {
    if bs == [] {
      assert before + bs == before;
    } else {
      var n := |bs| - 1;
      BlocksOn(r, before, bs[..n], at);
      var was, now := StepBlocks(r, bs[..n], at), StepBlocks(r, bs, at);
      assert now == StepBlock(was, bs[n], at);
      BlockOn(was, before + bs[..n], bs[n], at, before + bs);
    }
  }

  lemma {:induction false} BlocksOfMessages(r: Round, ms: seq<Message>)
    requires r.commands == [] && !r.interrupted && r.writes.files == []
    ensures BlocksTrue(StepMessages(r, ms), Blocks(ms))
  {
    if ms != [] {
      var pre, m := ms[..|ms| - 1], ms[|ms| - 1];
      BlocksOfMessages(r, pre);
      BlocksOn(Reached(StepMessages(r, pre), m), Blocks(pre), m.blocks, m.at);
    }
  }

  /** What a round says, field by field: where its ask stands and what it asked; when its last message came, and
      the last that was work; the agent's last words; the commands run; whether it was interrupted; and the files
      its calls named. */
  lemma {:induction false} RoundSays(index: nat, seg: Segment)
    ensures
      var r, ms := RoundOf(index, seg), [seg.ask] + seg.rest;
      && r.index == index && r.asked == seg.ask.asked && r.startAt == seg.ask.at
      && IsLast(ms, At(), r.lastAt) && IsLast(ms, WorkAt(), r.endAt) && IsLast(ms, Answer(), r.outcome)
      && |r.commands| == |Filter(Blocks(ms), IsCommand())|
      && (forall i :: 0 <= i < |r.commands| ==> r.commands[i] == CommandOf(Filter(Blocks(ms), IsCommand())[i]))
      && (r.interrupted <==> seg.rest == [] || exists b :: b in Blocks(ms) && b.Event? && b.interrupted)
      && (forall f :: f in r.writes.files <==> exists b :: b in Blocks(ms) && b.ToolCall? && f in b.files)
      && NoDuplicates(r.writes.files)
  {
    var r0, ms := NewRound(index, seg.ask), [seg.ask] + seg.rest;
    TimesOfMessages(r0, ms);
    BlocksOfMessages(r0, ms);
  }

  function IsToolCall(): Block -> bool
  {
    (b: Block) => b.ToolCall?
  }

  function IsFailedResult(): Block -> bool
  {
    (b: Block) => b.ToolResult? && b.failed
  }

  /** The counters count what they are called after. */
  lemma {:induction false} CountersCount(bs: seq<Block>)
    ensures Calls(bs) == |Filter(bs, IsToolCall())| && Failed(bs) == |Filter(bs, IsFailedResult())|
  {
    if bs != [] {
      CountersCount(bs[..|bs| - 1]);
    }
  }

  // The failures, one by one

  /** A block, and the time of the message it is in. */
  datatype Timed = Timed(at: Str, block: Block)

  function TimedOf(bs: seq<Block>, at: Str): seq<Timed>
  {
    seq(|bs|, i requires 0 <= i < |bs| => Timed(at, bs[i]))
  }

  function AllTimed(ms: seq<Message>): seq<Timed>
  {
    if ms == [] then [] else AllTimed(ms[..|ms| - 1]) + TimedOf(ms[|ms| - 1].blocks, ms[|ms| - 1].at)
  }

  predicate IsCall(b: Block, id: Str)
  {
    b.ToolCall? && b.id == id && id != 0
  }

  predicate IsFailure(b: Block)
  {
    b.ToolResult? && b.failed
  }

  /** Of the calls under this id before k the last is at j. */
  ghost predicate CallFor(bs: seq<Timed>, k: nat, id: Str, j: nat)
  {
    j < k <= |bs| && IsCall(bs[j].block, id) && forall n :: j < n < k ==> !IsCall(bs[n].block, id)
  }

  /** A failure tells the time of its result and what came out, and of the call that the result answers, which is
      the last under its id, the name and the command; without one, or if that has no name, the result's own name
      for the tool. */
  ghost predicate Reports(f: Failure, bs: seq<Timed>, k: nat)
  {
    && k < |bs| && IsFailure(bs[k].block)
    && f.at == bs[k].at && f.output == bs[k].block.output
    && (forall j: nat :: CallFor(bs, k, bs[k].block.callId, j) ==>
          && f.command == bs[j].block.command
          && f.tool == if bs[j].block.name != 0 then bs[j].block.name else bs[k].block.toolName)
    && ((forall j: nat :: !CallFor(bs, k, bs[k].block.callId, j)) ==>
          f.command == 0 && f.tool == bs[k].block.toolName)
  }

  ghost predicate CallsTrue(calls: map<Str, Call>, bs: seq<Timed>, id: Str)
  {
    && (id in calls <==> exists j: nat :: CallFor(bs, |bs|, id, j))
    && (forall j: nat :: CallFor(bs, |bs|, id, j) ==>
          id in calls && calls[id] == Call(bs[j].block.name, bs[j].block.command))
  }

  /** The failures listed are those of the failed results, in order. */
  ghost predicate FailedTrue(failed: seq<Failure>, bs: seq<Timed>, idx: seq<nat>)
  {
    && Rising(idx) && |idx| == |failed|
    && (forall i :: 0 <= i < |idx| ==> Reports(failed[i], bs, idx[i]))
    && (forall k: nat :: k in idx <==> k < |bs| && IsFailure(bs[k].block))
  }

  ghost predicate TallyTrue(t: Tally, bs: seq<Timed>, idx: seq<nat>)
  {
    (forall id :: CallsTrue(t.calls, bs, id)) && FailedTrue(t.failed, bs, idx)
  }

  lemma {:induction false} CallForOn(bs: seq<Timed>, b: Timed, k: nat, id: Str, j: nat)
    ensures k <= |bs| ==> (CallFor(bs + [b], k, id, j) <==> CallFor(bs, k, id, j))
    ensures k == |bs| + 1 ==>
              (CallFor(bs + [b], k, id, j) <==> if IsCall(b.block, id) then j == |bs| else CallFor(bs, |bs|, id, j))
  {
    var all := bs + [b];
    assert all[|bs|] == b && forall n :: 0 <= n < |bs| ==> all[n] == bs[n];
    if k == |bs| + 1 && !IsCall(b.block, id) && CallFor(all, k, id, j) {
      assert forall n :: j < n < |bs| ==> !IsCall(all[n].block, id);
    }
  }

  lemma {:induction false} CallsOn(t: Tally, bs: seq<Timed>, b: Timed, id: Str)
    requires CallsTrue(t.calls, bs, id)
    ensures CallsTrue(StepTally(t, b.block, b.at).calls, bs + [b], id)
  {
    var all := bs + [b];
    forall j: nat
      ensures CallFor(all, |all|, id, j)
         <==> if IsCall(b.block, id) then j == |bs| else CallFor(bs, |bs|, id, j)
    {
      CallForOn(bs, b, |all|, id, j);
    }
    if IsCall(b.block, id) {
      assert CallFor(all, |all|, id, |bs|);
    } else if j: nat :| CallFor(bs, |bs|, id, j) {
      assert CallFor(all, |all|, id, j);
    }
  }

  lemma {:induction false} ReportsOn(f: Failure, bs: seq<Timed>, b: Timed, k: nat)
    requires Reports(f, bs, k)
    ensures Reports(f, bs + [b], k)
  {
    var all := bs + [b];
    assert all[k] == bs[k];
    forall j: nat ensures CallFor(all, k, bs[k].block.callId, j) <==> CallFor(bs, k, bs[k].block.callId, j) {
      CallForOn(bs, b, k, bs[k].block.callId, j);
    }
    assert forall j: nat :: j < |bs| ==> all[j] == bs[j];
  }

  /** The failure that a failed result adds. */
  lemma {:induction false} OneReported(t: Tally, bs: seq<Timed>, b: Timed, f: Failure)
    requires IsFailure(b.block) && CallsTrue(t.calls, bs, b.block.callId)
    requires StepTally(t, b.block, b.at).failed == t.failed + [f]
    ensures Reports(f, bs + [b], |bs|)
  {
    var all, id := bs + [b], b.block.callId;
    assert f == StepTally(t, b.block, b.at).failed[|t.failed|];
    assert all[|bs|] == b;
    forall j: nat ensures CallFor(all, |bs|, id, j) <==> CallFor(bs, |bs|, id, j) {
      CallForOn(bs, b, |bs|, id, j);
    }
    assert forall j: nat :: j < |bs| ==> all[j] == bs[j];
  }

  lemma {:induction false} FailedOn(t: Tally, bs: seq<Timed>, b: Timed, idx: seq<nat>) returns (now: seq<nat>)
    requires TallyTrue(t, bs, idx)
    ensures FailedTrue(StepTally(t, b.block, b.at).failed, bs + [b], now)
  {
    var all, n: nat := bs + [b], |bs|;
    assert all[n] == b && forall k :: 0 <= k < n ==> all[k] == bs[k];
    forall i | 0 <= i < |idx| ensures idx[i] < n && Reports(t.failed[i], all, idx[i]) {
      ReportsOn(t.failed[i], bs, b, idx[i]);
    }
    now := idx;
    if IsFailure(b.block) {
      assert CallsTrue(t.calls, bs, b.block.callId);
      var failed := StepTally(t, b.block, b.at).failed;
      OneReported(t, bs, b, failed[|t.failed|]);
      RisingOn(idx, n);
      now := idx + [n];
    }
  }

  lemma {:induction false} TallyOfBlocks(r: Round, before: seq<Timed>, bs: seq<Block>, at: Str, idx: seq<nat>)
    returns (now: seq<nat>)
    requires TallyTrue(r.tally, before, idx)
    ensures TallyTrue(StepBlocks(r, bs, at).tally, before + TimedOf(bs, at), now)
  {
    if bs == [] {
      now := idx;
      assert before + TimedOf(bs, at) == before;
    } else {
      var n := |bs| - 1;
      var was, done := StepBlocks(r, bs[..n], at).tally, before + TimedOf(bs[..n], at);
      now := TallyOfBlocks(r, before, bs[..n], at, idx);
      var b := Timed(at, bs[n]);
      forall id ensures CallsTrue(StepTally(was, b.block, at).calls, done + [b], id) {
        CallsOn(was, done, b, id);
      }
      now := FailedOn(was, done, b, now);
      assert before + TimedOf(bs, at) == done + [b];
    }
  }

  lemma {:induction false} TallyOfMessages(r: Round, ms: seq<Message>) returns (idx: seq<nat>)
    requires r.tally.failed == [] && r.tally.calls == map[]
    ensures TallyTrue(StepMessages(r, ms).tally, AllTimed(ms), idx)
  {
    if ms == [] {
      idx := [];
    } else {
      var pre, m := ms[..|ms| - 1], ms[|ms| - 1];
      var was := StepMessages(r, pre);
      idx := TallyOfMessages(r, pre);
      assert TallyTrue(Reached(was, m).tally, AllTimed(pre), idx);
      idx := TallyOfBlocks(Reached(was, m), AllTimed(pre), m.blocks, m.at, idx);
    }
  }

  /** The failures of a round are reported one for each failed result, in order. */
  lemma {:induction false} FailuresSay(index: nat, seg: Segment) returns (idx: seq<nat>)
    ensures FailedTrue(RoundOf(index, seg).tally.failed, AllTimed([seg.ask] + seg.rest), idx)
  {
    idx := TallyOfMessages(NewRound(index, seg.ask), [seg.ask] + seg.rest);
  }
}
