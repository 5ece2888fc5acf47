/** What a round's counters and its list of changed files mean. */
module RoundFacts {
  import opened Rounds

  function Blocks(ms: seq<Message>): seq<Block>
  {
    if ms == [] then [] else Blocks(ms[..|ms| - 1]) + ms[|ms| - 1].blocks
  }

  function Calls(bs: seq<Block>): nat
  {
    if bs == [] then 0 else Calls(bs[..|bs| - 1]) + if bs[|bs| - 1].ToolCall? then 1 else 0
  }

  function Failed(bs: seq<Block>): nat
  {
    if bs == [] then 0
    else Failed(bs[..|bs| - 1]) + if bs[|bs| - 1].ToolResult? && bs[|bs| - 1].failed then 1 else 0
  }

  lemma {:induction false} CallsConcat(a: seq<Block>, b: seq<Block>)
    ensures Calls(a + b) == Calls(a) + Calls(b)
    ensures Failed(a + b) == Failed(a) + Failed(b)
  {
    if b == [] {
      assert a + b == a;
    } else {
      assert (a + b)[..|a + b| - 1] == a + b[..|b| - 1];
      CallsConcat(a, b[..|b| - 1]);
    }
  }

  lemma {:induction false} BlocksConcat(a: seq<Message>, b: seq<Message>)
    ensures Blocks(a + b) == Blocks(a) + Blocks(b)
  {
    if b == [] {
      assert a + b == a;
    } else {
      assert (a + b)[..|a + b| - 1] == a + b[..|b| - 1];
      BlocksConcat(a, b[..|b| - 1]);
    }
  }

  lemma {:induction false} BlocksCounted(r: Round, bs: seq<Block>, at: Str)
    ensures var t, t' := r.tally, StepBlocks(r, bs, at).tally;
            && t'.messages == t.messages
            && t'.toolCalls == t.toolCalls + Calls(bs)
            && t'.failures == t.failures + Failed(bs)
            && |t'.failed| == |t.failed| + Failed(bs)
  {
    if bs != [] {
      BlocksCounted(r, bs[..|bs| - 1], at);
    }
  }

  lemma {:induction false} MessagesCounted(r: Round, ms: seq<Message>)
    ensures var t, t' := r.tally, StepMessages(r, ms).tally;
            && t'.messages == t.messages + |ms|
            && t'.toolCalls == t.toolCalls + Calls(Blocks(ms))
            && t'.failures == t.failures + Failed(Blocks(ms))
            && |t'.failed| == |t.failed| + Failed(Blocks(ms))
  {
    if ms != [] {
      var m, pre := ms[|ms| - 1], ms[..|ms| - 1];
      MessagesCounted(r, pre);
      var r1 := StepMessages(r, pre);
      BlocksCounted(Reached(r1, m), m.blocks, m.at);
      CallsConcat(Blocks(pre), m.blocks);
    }
  }

  /** The messages of consecutive segments, in order. */
  function Joined(segs: seq<Segment>): seq<Message>
  {
    if segs == [] then [] else [segs[0].ask] + segs[0].rest + Joined(segs[1..])
  }

  lemma {:induction false} LeadSkipped(ms: seq<Message>, n: nat)
    requires n <= |ms| && forall k :: 0 <= k < n ==> !ms[k].start
    ensures Segments(ms) == Segments(ms[n..])
  {
    if n > 0 {
      LeadSkipped(ms[1..], n - 1);
      assert ms[1..][n - 1..] == ms[n..];
    } else {
      assert ms[0..] == ms;
    }
  }

  lemma {:induction false} SegmentsJoin(ms: seq<Message>)
    requires ms != [] ==> ms[0].start
    ensures Joined(Segments(ms)) == ms
    decreases |ms|
  {
    if ms != [] {
      var n := BeforeAsk(ms[1..]);
      FirstSegment(ms, n);
      SegmentsJoin(ms[n + 1..]);
      JoinedCons(Segment(ms[0], ms[1..n + 1]), Segments(ms[n + 1..]));
      CutTwice(ms, n);
    }
  }

  lemma {:induction false} CutTwice(ms: seq<Message>, n: nat)
    requires n < |ms|
    ensures ms == [ms[0]] + ms[1..n + 1] + ms[n + 1..]
  {
  }

  lemma {:induction false} JoinedCons(seg: Segment, segs: seq<Segment>)
    ensures Joined([seg] + segs) == [seg.ask] + seg.rest + Joined(segs)
  {
    assert ([seg] + segs)[1..] == segs;
  }

  lemma {:induction false} OneAskEach(ms: seq<Message>)
    ensures forall seg :: seg in Segments(ms) ==> seg.ask.start && forall m :: m in seg.rest ==> !m.start
    decreases |ms|
  {
    if ms != [] {
      OneAskEach(if ms[0].start then ms[BeforeAsk(ms[1..]) + 1..] else ms[1..]);
    }
  }

  /** Segmentation loses nothing after the first ask: every round opens with an ask, holds no other,
      and the rounds laid end to end are the session from its first ask on. */
  lemma {:induction false} SegmentsPartition(ms: seq<Message>)
    ensures Joined(Segments(ms)) == ms[BeforeAsk(ms)..]
    ensures forall seg :: seg in Segments(ms) ==> seg.ask.start && forall m :: m in seg.rest ==> !m.start
  {
    LeadSkipped(ms, BeforeAsk(ms));
    SegmentsJoin(ms[BeforeAsk(ms)..]);
    OneAskEach(ms);
  }

  function SumMessages(rs: seq<Round>): nat
  {
    if rs == [] then 0 else rs[0].tally.messages + SumMessages(rs[1..])
  }

  function SumCalls(rs: seq<Round>): nat
  {
    if rs == [] then 0 else rs[0].tally.toolCalls + SumCalls(rs[1..])
  }

  function SumFailures(rs: seq<Round>): nat
  {
    if rs == [] then 0 else rs[0].tally.failures + SumFailures(rs[1..])
  }

  lemma {:induction false} SumsOfSegments(segs: seq<Segment>, from: nat)
    ensures SumMessages(Numbered(segs, from)) == |Joined(segs)|
    ensures SumCalls(Numbered(segs, from)) == Calls(Blocks(Joined(segs)))
    ensures SumFailures(Numbered(segs, from)) == Failed(Blocks(Joined(segs)))
  {
    if segs != [] {
      var own := [segs[0].ask] + segs[0].rest;
      MessagesCounted(NewRound(from + 1, segs[0].ask), own);
      SumsOfSegments(segs[1..], from + 1);
      BlocksConcat(own, Joined(segs[1..]));
      CallsConcat(Blocks(own), Blocks(Joined(segs[1..])));
    }
  }

  /** Over a session, the rounds' counters sum to the totals after the first ask. */
  lemma {:induction false} RoundsConserve(ms: seq<Message>)
    ensures var after := ms[BeforeAsk(ms)..];
            && SumMessages(RoundsFrom(ms, 0)) == |after|
            && SumCalls(RoundsFrom(ms, 0)) == Calls(Blocks(after))
            && SumFailures(RoundsFrom(ms, 0)) == Failed(Blocks(after))
  {
    SegmentsPartition(ms);
    SumsOfSegments(Segments(ms), 0);
  }

  /** A write call that waits for its result. */
  predicate Waits(b: Block, id: Str)
  {
    b.ToolCall? && b.write && b.id == id && id != 0 && b.files != []
  }

  predicate Answers(b: Block, id: Str)
  {
    b.ToolResult? && b.callId == id
  }

  /** What ends a wait under this id: a result, or another write call that takes the id over. */
  predicate Breaks(b: Block, id: Str)
  {
    Waits(b, id) || Answers(b, id)
  }

  ghost predicate Undisturbed(bs: seq<Block>, p: int, q: int, id: Str)
    requires 0 <= p && q <= |bs|
  {
    forall k :: p < k < q ==> !Breaks(bs[k], id)
  }

  ghost predicate Pending(bs: seq<Block>, p: int, id: Str)
  {
    0 <= p < |bs| && Waits(bs[p], id) && Undisturbed(bs, p, |bs|, id)
  }

  /** The call at p was answered at q, and the answer is not a failure. */
  ghost predicate Settled(bs: seq<Block>, p: int, q: int, id: Str)
  {
    && 0 <= p < q < |bs| && Waits(bs[p], id) && Answers(bs[q], id) && !bs[q].failed
    && Undisturbed(bs, p, q, id)
  }

  /** The call at p changed file f. */
  ghost predicate Wrote(bs: seq<Block>, p: int, f: File)
  {
    && 0 <= p < |bs| && bs[p].ToolCall? && bs[p].write && f in bs[p].files
    && (bs[p].id == 0 || exists q :: Settled(bs, p, q, bs[p].id))
  }

  ghost predicate NoDuplicates(list: seq<File>)
  {
    forall i, j :: 0 <= i < j < |list| ==> list[i] != list[j]
  }

  lemma {:induction false} AppendedAll(list: seq<File>, files: seq<File>)
    ensures forall f :: f in AppendAll(list, files) <==> f in list || f in files
    ensures NoDuplicates(list) ==> NoDuplicates(AppendAll(list, files))
    decreases |files|
  {
    if files != [] {
      AppendedAll(AppendUnique(list, files[0]), files[1..]);
      assert files == [files[0]] + files[1..];
    }
  }

  function StepAllWrites(w: Writes, bs: seq<Block>): Writes
  {
    if bs == [] then w else StepWrites(StepAllWrites(w, bs[..|bs| - 1]), bs[|bs| - 1])
  }

  lemma {:induction false} WritesOfBlocks(r: Round, bs: seq<Block>, at: Str)
    ensures StepBlocks(r, bs, at).writes == StepAllWrites(r.writes, bs)
  {
    if bs != [] {
      WritesOfBlocks(r, bs[..|bs| - 1], at);
    }
  }

  lemma {:induction false} WritesConcat(w: Writes, a: seq<Block>, b: seq<Block>)
    ensures StepAllWrites(w, a + b) == StepAllWrites(StepAllWrites(w, a), b)
  {
    if b == [] {
      assert a + b == a;
    } else {
      assert (a + b)[..|a + b| - 1] == a + b[..|b| - 1];
      WritesConcat(w, a, b[..|b| - 1]);
    }
  }

  /** Where the messages' boundaries fall makes no difference to the files. */
  lemma {:induction false} WritesOfMessages(r: Round, ms: seq<Message>)
    ensures StepMessages(r, ms).writes == StepAllWrites(r.writes, Blocks(ms))
  {
    if ms != [] {
      var m, pre := ms[|ms| - 1], ms[..|ms| - 1];
      WritesOfMessages(r, pre);
      WritesOfBlocks(Reached(StepMessages(r, pre), m), m.blocks, m.at);
      WritesConcat(r.writes, Blocks(pre), m.blocks);
    }
  }

  lemma {:induction false} PendingSnoc(bs: seq<Block>, b: Block, p: int, id: Str)
    ensures Pending(bs + [b], p, id) <==> if p == |bs| then Waits(b, id) else Pending(bs, p, id) && !Breaks(b, id)
  {
    var all := bs + [b];
    if 0 <= p < |bs| {
      assert all[p] == bs[p] && all[|bs|] == b;
      if Pending(bs, p, id) && !Breaks(b, id) {
        assert forall k :: p < k < |bs| ==> all[k] == bs[k];
      }
      if Pending(all, p, id) {
        assert forall k :: p < k < |bs| ==> bs[k] == all[k];
      }
    }
  }

  lemma {:induction false} SettledSnoc(bs: seq<Block>, b: Block, p: int, q: int, id: Str)
    ensures Settled(bs + [b], p, q, id)
       <==> if q == |bs| then Pending(bs, p, id) && Answers(b, id) && !b.failed else Settled(bs, p, q, id)
  {
    var all := bs + [b];
    assert forall k :: 0 <= k < |bs| ==> all[k] == bs[k];
    assert all[|bs|] == b;
  }

  lemma {:induction false} WroteSnoc(bs: seq<Block>, b: Block, p: int, f: File)
    requires 0 <= p < |bs| && bs[p].ToolCall?
    ensures Wrote(bs + [b], p, f)
       <==> Wrote(bs, p, f) || (Pending(bs, p, bs[p].id) && f in bs[p].files && Answers(b, bs[p].id) && !b.failed)
  {
    var all, id := bs + [b], bs[p].id;
    assert all[p] == bs[p];
    if Pending(bs, p, id) && Answers(b, id) && !b.failed {
      SettledSnoc(bs, b, p, |bs|, id);
    }
    if q :| Settled(bs, p, q, id) {
      SettledSnoc(bs, b, p, q, id);
    }
    if q :| Settled(all, p, q, id) {
      SettledSnoc(bs, b, p, q, id);
    }
  }

  /** What the write calls seen so far left waiting, and what they changed. */
  ghost predicate PendingTrue(w: Writes, bs: seq<Block>, id: Str)
  {
    && (id in w.pending <==> exists p :: Pending(bs, p, id))
    && (forall p :: Pending(bs, p, id) ==> w.pending[id] == bs[p].files)
  }

  ghost predicate ChangedTrue(w: Writes, bs: seq<Block>, f: File)
  {
    f in w.changed <==> exists p :: Wrote(bs, p, f)
  }

  ghost predicate WritesTrue(w: Writes, bs: seq<Block>)
  {
    && (forall id :: PendingTrue(w, bs, id))
    && (forall f :: ChangedTrue(w, bs, f))
    && NoDuplicates(w.changed)
    && (forall f :: f in w.changed ==> f in w.files)
    && (forall id, f :: id in w.pending && f in w.pending[id] ==> f in w.files)
  }

  lemma {:induction false} PendingStep(w: Writes, bs: seq<Block>, b: Block, id: Str)
    requires PendingTrue(w, bs, id)
    ensures PendingTrue(StepWrites(w, b), bs + [b], id)
  {
    var w' := StepWrites(w, b);
    forall p ensures Pending(bs + [b], p, id) ==> id in w'.pending && w'.pending[id] == (bs + [b])[p].files {
      PendingSnoc(bs, b, p, id);
    }
    if id in w'.pending {
      if Waits(b, id) {
        PendingSnoc(bs, b, |bs|, id);
      } else {
        var p :| Pending(bs, p, id);
        PendingSnoc(bs, b, p, id);
      }
    }
  }

  lemma {:induction false} ChangedStep(w: Writes, bs: seq<Block>, b: Block, f: File)
    requires WritesTrue(w, bs)
    ensures ChangedTrue(StepWrites(w, b), bs + [b], f)
  {
    var w', all := StepWrites(w, b), bs + [b];
    assert PendingTrue(w, bs, if b.ToolResult? then b.callId else 0) && ChangedTrue(w, bs, f);
    assert all[|bs|] == b;
    StepChanged(w, b, f);
    if f in w.changed {
      var p :| Wrote(bs, p, f);
      WroteSnoc(bs, b, p, f);
    } else if f in w'.changed {
      if b.ToolCall? {
        assert Wrote(all, |bs|, f);
      } else {
        var p :| Pending(bs, p, b.callId);
        WroteSnoc(bs, b, p, f);
      }
    }
    if p :| Wrote(all, p, f) {
      if p < |bs| {
        assert all[p] == bs[p];
        WroteSnoc(bs, b, p, f);
      }
    }
  }

  /** What one block adds to the changed files. */
  lemma {:induction false} StepChanged(w: Writes, b: Block, f: File)
    ensures f in StepWrites(w, b).changed
       <==> || f in w.changed
            || (b.ToolCall? && b.write && b.id == 0 && f in b.files)
            || (b.ToolResult? && b.callId in w.pending && !b.failed && f in w.pending[b.callId])
    ensures NoDuplicates(w.changed) ==> NoDuplicates(StepWrites(w, b).changed)
  {
    if b.ToolCall? {
      AppendedAll(w.changed, b.files);
    } else if b.ToolResult? && b.callId in w.pending {
      AppendedAll(w.changed, w.pending[b.callId]);
    }
  }

  lemma {:induction false} WritesStep(w: Writes, bs: seq<Block>, b: Block)
    requires WritesTrue(w, bs)
    ensures WritesTrue(StepWrites(w, b), bs + [b])
  {
    var w' := StepWrites(w, b);
    forall id ensures PendingTrue(w', bs + [b], id) {
      PendingStep(w, bs, b, id);
    }
    forall f ensures ChangedTrue(w', bs + [b], f) {
      ChangedStep(w, bs, b, f);
    }
    forall f ensures f in w'.changed ==> f in w'.files {
      StepChanged(w, b, f);
      if b.ToolCall? {
        AppendedAll(w.files, b.files);
      }
    }
    StepChanged(w, b, 0);
    if b.ToolCall? {
      AppendedAll(w.files, b.files);
    }
  }

  lemma {:induction false} WritesExactly(bs: seq<Block>)
    ensures WritesTrue(StepAllWrites(Writes([], [], map[]), bs), bs)
  {
    if bs != [] {
      var n := |bs| - 1;
      WritesExactly(bs[..n]);
      assert bs == bs[..n] + [bs[n]];
      WritesStep(StepAllWrites(Writes([], [], map[]), bs[..n]), bs[..n], bs[n]);
    }
  }

  /** In every round: a file is changed exactly when a write call naming it had no id, or was
      answered without failing before its id was used again; the list has no duplicates, names only
      files the round's calls named, and the failures counted are the failures listed. */
  lemma {:induction false} ChangedExactly(index: nat, seg: Segment)
    ensures var r, bs := RoundOf(index, seg), Blocks([seg.ask] + seg.rest);
            && (forall f :: f in r.writes.changed <==> exists p :: Wrote(bs, p, f))
            && NoDuplicates(r.writes.changed)
            && (forall f :: f in r.writes.changed ==> f in r.writes.files)
            && r.tally.failures == |r.tally.failed| == Failed(bs)
  {
    var bs := Blocks([seg.ask] + seg.rest);
    WritesOfMessages(NewRound(index, seg.ask), [seg.ask] + seg.rest);
    MessagesCounted(NewRound(index, seg.ask), [seg.ask] + seg.rest);
    WritesExactly(bs);
    forall f ensures f in StepAllWrites(Writes([], [], map[]), bs).changed <==> exists p :: Wrote(bs, p, f) {
      assert ChangedTrue(StepAllWrites(Writes([], [], map[]), bs), bs, f);
    }
  }

  /** The simpler rule one might expect: the first result for the call's id after it did not fail. */
  ghost predicate FirstAnswerOk(bs: seq<Block>, p: int, id: Str)
  {
    exists q ::
      && 0 <= p < q < |bs| && Answers(bs[q], id) && !bs[q].failed
      && forall k :: p < k < q ==> !Answers(bs[k], id)
  }

  /** No other write call takes the id over before its first result. */
  ghost predicate IdKept(bs: seq<Block>, p: int, id: Str)
  {
    forall k :: 0 <= p < k < |bs| && Waits(bs[k], id) ==> exists j :: p < j < k && Answers(bs[j], id)
  }

  lemma {:induction false} SettledSoFar(bs: seq<Block>, p: int, q: int, id: Str)
    requires Settled(bs, p, q, id)
    ensures FirstAnswerOk(bs, p, id) && IdKept(bs, p, id)
  {
    assert forall k :: p < k < q ==> !Breaks(bs[k], id);
    forall k | p < k < |bs| && Waits(bs[k], id) ensures exists j :: p < j < k && Answers(bs[j], id) {
      assert Breaks(bs[k], id);
      assert p < q < k && Answers(bs[q], id);
    }
  }

  /** A waiting call made its change exactly when its first answer is a success and its id was not taken over
      in between. */
  lemma {:induction false} SettledExactly(bs: seq<Block>, p: int, id: Str)
    requires 0 <= p < |bs| && Waits(bs[p], id)
    ensures (exists q :: Settled(bs, p, q, id)) <==> FirstAnswerOk(bs, p, id) && IdKept(bs, p, id)
  {
    if FirstAnswerOk(bs, p, id) && IdKept(bs, p, id) {
      var q :| p < q < |bs| && Answers(bs[q], id) && !bs[q].failed && forall k :: p < k < q ==> !Answers(bs[k], id);
      assert Settled(bs, p, q, id);
    }
    if q :| Settled(bs, p, q, id) {
      SettledSoFar(bs, p, q, id);
    }
  }

  /** Two write calls under one id, one good result: the first call's file is not listed as changed,
      though the first result answering its id did not fail. */
  lemma {:induction false} ReusedIdForgets()
    ensures var first := ToolCall(7, 1, [10], 0, true, false);
            var second := ToolCall(7, 1, [20], 0, true, false);
            var bs := [first, second, ToolResult(7, false, 1, 0)];
            && FirstAnswerOk(bs, 0, 7)
            && StepAllWrites(Writes([], [], map[]), bs).changed == [20]
  {
    var first := ToolCall(7, 1, [10], 0, true, false);
    var second := ToolCall(7, 1, [20], 0, true, false);
    var result := ToolResult(7, false, 1, 0);
    var bs := [first, second, result];
    assert Answers(bs[2], 7);
    assert bs[..2] == [first, second] && bs[..2][..1] == [first] && bs[..1][..0] == [];
    var w0 := Writes([], [], map[]);
    assert [first][..0] == [] && StepAllWrites(w0, []) == w0;
    var w1 := StepWrites(w0, first);
    assert StepAllWrites(w0, [first]) == w1;
    assert w1.pending == map[7 := [10]] && w1.changed == [];
    var w2 := StepWrites(w1, second);
    assert StepAllWrites(w0, [first, second]) == w2;
    assert w2.pending[7] == [20] && w2.changed == [];
    assert AppendAll([20], []) == [20];
    assert [20 as Str][1..] == [];
  }

  lemma {:induction false} IndexThroughBlocks(r: Round, bs: seq<Block>, at: Str, index: nat)
    ensures StepBlocks(r.(index := index), bs, at) == StepBlocks(r, bs, at).(index := index)
  {
    if bs != [] {
      IndexThroughBlocks(r, bs[..|bs| - 1], at, index);
    }
  }

  lemma {:induction false} IndexThroughMessages(r: Round, ms: seq<Message>, index: nat)
    ensures StepMessages(r.(index := index), ms) == StepMessages(r, ms).(index := index)
  {
    if ms != [] {
      var m, pre := ms[|ms| - 1], ms[..|ms| - 1];
      IndexThroughMessages(r, pre, index);
      IndexThroughBlocks(Reached(StepMessages(r, pre), m), m.blocks, m.at, index);
    }
  }

  /** Numbering is all that depends on the rounds before: a session read as the continuation of
      another has the rounds it would have alone, their indices shifted. */
  lemma {:induction false} IndicesShift(segs: seq<Segment>, from: nat, k: nat)
    requires k < |segs|
    ensures Numbered(segs, from)[k] == Numbered(segs, 0)[k].(index := from + k + 1)
  {
    NumberedAt(segs, from, k);
    NumberedAt(segs, 0, k);
    var seg := segs[k];
    IndexThroughMessages(NewRound(k + 1, seg.ask), [seg.ask] + seg.rest, from + k + 1);
  }

  lemma {:induction false} NumberedAt(segs: seq<Segment>, from: nat, k: nat)
    requires k < |segs|
    ensures Numbered(segs, from)[k] == RoundOf(from + k + 1, segs[k])
  {
    if k > 0 {
      NumberedAt(segs[1..], from + 1, k - 1);
    }
  }
}
