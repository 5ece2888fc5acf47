/** Reading a Hermes session in two passes: the first decides which copy of each message is shown, the
    second fetches those rows in chunks and feeds them to the sink. */
module Hermes {
  import opened Options
  import opened Collections
  import opened MessageSink

  /** What makes two rows copies of one message. The reasoning is no part of it. */
  datatype Key = Key(role: Role, at: Option<int>, text: nat)

  /** Ids are ranked as strings are ordered, from the empty one, 0, which is also what NULL reads as. */
  datatype Row = Row(id: nat, key: Key, active: int, reasoning: nat, shown: bool, modelOnly: bool)

  datatype Ref = Ref(id: nat, key: Key, active: int)

  const TOOL: Role := 3

  function RefOf(r: Row): Ref
  {
    Ref(r.id, r.key, r.active)
  }

  /** The more live of two copies, and of equally live ones the one with the greater id. */
  predicate Better(a: Ref, b: Ref)
  {
    a.active > b.active || (a.active == b.active && a.id > b.id)
  }

  function Kept(rows: seq<Row>): seq<Row>
  {
    if rows == [] then []
    else
      var last := rows[|rows| - 1];
      Kept(rows[..|rows| - 1]) + if last.shown && !last.modelOnly then [last] else []
  }

  /** Where a message of this identity is kept, if it has been seen. */
  function PlaceOf(refs: seq<Ref>, key: Key): (at: Option<nat>)
    ensures at.Some? ==> at.value < |refs| && refs[at.value].key == key
    ensures at.None? ==> forall i :: 0 <= i < |refs| ==> refs[i].key != key
  {
    if refs == [] then None
    else if refs[|refs| - 1].key == key then Some(|refs| - 1)
    else PlaceOf(refs[..|refs| - 1], key)
  }

  function Counted(refs: seq<Ref>, r: Ref): seq<Ref>
  {
    match PlaceOf(refs, r.key)
    case None => refs + [r]
    case Some(at) => if Better(r, refs[at]) then refs[at := r] else refs
  }

  /** What the first pass ends with. */
  function Winners(rows: seq<Row>): seq<Ref>
  {
    if rows == [] then [] else Counted(Winners(rows[..|rows| - 1]), RefOf(rows[|rows| - 1]))
  }

  /** The one copy of a message that is shown, out of all there are. */
  ghost predicate IsBest(rows: seq<Row>, ref: Ref)
  {
    && (exists r :: r in rows && r.id == ref.id && r.key == ref.key && r.active == ref.active)
    && (forall r :: r in rows && r.key == ref.key ==>
          r.active < ref.active || (r.active == ref.active && r.id <= ref.id))
  }

  lemma {:induction false} KeptIs(rows: seq<Row>, keep: Row -> bool)
    requires forall r: Row :: keep(r) <==> r.shown && !r.modelOnly
    ensures Kept(rows) == Filter(rows, keep)
  {
    if rows != [] {
      KeptIs(rows[..|rows| - 1], keep);
    }
  }

  ghost predicate OneEach(refs: seq<Ref>)
  {
    forall i, j :: 0 <= i < j < |refs| ==> refs[i].key != refs[j].key
  }

  lemma {:induction false} CountedOneEach(refs: seq<Ref>, r: Ref)
    requires OneEach(refs)
    ensures OneEach(Counted(refs, r)) && |refs| <= |Counted(refs, r)|
    ensures forall i :: 0 <= i < |refs| ==> Counted(refs, r)[i].key == refs[i].key
  {
  }

  lemma {:induction false} PlacedStays(refs: seq<Ref>, r: Ref, key: Key)
    requires OneEach(refs) && (PlaceOf(refs, key).Some? || key == r.key)
    ensures PlaceOf(Counted(refs, r), key).Some?
  {
    CountedOneEach(refs, r);
    if PlaceOf(refs, key).Some? {
      assert Counted(refs, r)[PlaceOf(refs, key).value].key == key;
    } else {
      assert Counted(refs, r)[|refs|].key == key;
    }
  }

  /** No message is lost. */
  lemma {:induction false} AllPlaced(rows: seq<Row>)
    ensures OneEach(Winners(rows))
    ensures forall r :: r in rows ==> PlaceOf(Winners(rows), r.key).Some?
  {
    if rows != [] {
      var before, r := rows[..|rows| - 1], rows[|rows| - 1];
      AllPlaced(before);
      CountedOneEach(Winners(before), RefOf(r));
      forall x | x in rows ensures PlaceOf(Winners(rows), x.key).Some? {
        assert x in before || x == r;
        PlacedStays(Winners(before), RefOf(r), x.key);
      }
    }
  }

  ghost predicate AllBest(rows: seq<Row>, refs: seq<Ref>)
  {
    forall i :: 0 <= i < |refs| ==> IsBest(rows, refs[i])
  }

  lemma {:induction false} BestStep(before: seq<Row>, was: seq<Ref>, r: Row)
    requires OneEach(was) && AllBest(before, was)
    requires forall x :: x in before ==> PlaceOf(was, x.key).Some?
    ensures AllBest(before + [r], Counted(was, RefOf(r)))
  {
    var now := Counted(was, RefOf(r));
    forall i | 0 <= i < |now| ensures IsBest(before + [r], now[i]) {
      if i < |was| && now[i] == was[i] {
        var x :| x in before && RefOf(x) == was[i];
        assert x in before + [r];
      } else {
        assert now[i] == RefOf(r) && r in before + [r];
        if i == |was| {
          forall x | x in before ensures x.key != r.key {
          }
        }
      }
    }
  }

  /** One message for each identity, and of each the best copy. */
  lemma {:induction false} WinnersAreBest(rows: seq<Row>)
    ensures OneEach(Winners(rows)) && AllBest(rows, Winners(rows))
    ensures forall r :: r in rows ==> PlaceOf(Winners(rows), r.key).Some?
  {
    AllPlaced(rows);
    if rows != [] {
      var before, r := rows[..|rows| - 1], rows[|rows| - 1];
      WinnersAreBest(before);
      BestStep(before, Winners(before), r);
      assert rows == before + [r];
    }
  }

  /** A message keeps the place where its first copy was, however many follow. */
  lemma {:induction false} FirstSeenFirst(rows: seq<Row>, more: seq<Row>)
    ensures |Winners(rows)| <= |Winners(rows + more)|
    ensures forall i :: 0 <= i < |Winners(rows)| ==> Winners(rows + more)[i].key == Winners(rows)[i].key
  {
    if more == [] {
      assert rows + more == rows;
    } else {
      var n := |more| - 1;
      assert (rows + more)[..|rows + more| - 1] == rows + more[..n];
      FirstSeenFirst(rows, more[..n]);
      WinnersAreBest(rows + more[..n]);
      CountedOneEach(Winners(rows + more[..n]), RefOf(more[n]));
    }
  }

  ghost predicate Indexed(refs: seq<Ref>, index: map<Key, nat>)
  {
    forall key: Key :: PlaceOf(refs, key) == if key in index then Some(index[key]) else None
  }

  lemma {:induction false} IndexStep(refs: seq<Ref>, index: map<Key, nat>, r: Ref)
    requires Indexed(refs, index) && OneEach(refs)
    ensures r.key !in index ==> Indexed(refs + [r], index[r.key := |refs|])
    ensures r.key in index ==> index[r.key] < |refs| && Indexed(refs[index[r.key] := r], index)
  {
    if r.key in index {
      var at := index[r.key];
      assert PlaceOf(refs, r.key) == Some(at);
      forall key: Key ensures PlaceOf(refs[at := r], key) == PlaceOf(refs, key) {
        SamePlace(refs, refs[at := r], key);
      }
    }
  }

  lemma {:induction false} SamePlace(a: seq<Ref>, b: seq<Ref>, key: Key)
    requires |a| == |b| && forall i :: 0 <= i < |a| ==> a[i].key == b[i].key
    ensures PlaceOf(a, key) == PlaceOf(b, key)
  {
    if a != [] {
      SamePlace(a[..|a| - 1], b[..|b| - 1], key);
    }
  }

  lemma {:induction false} NotKept(rows: seq<Row>, i: nat)
    requires i < |rows| && (!rows[i].shown || rows[i].modelOnly)
    ensures Kept(rows[..i + 1]) == Kept(rows[..i])
  {
    assert rows[..i + 1][..i] == rows[..i];
  }

  lemma {:induction false} KeptOne(rows: seq<Row>, i: nat)
    requires i < |rows| && rows[i].shown && !rows[i].modelOnly
    ensures Kept(rows[..i + 1]) == Kept(rows[..i]) + [rows[i]]
  {
    assert rows[..i + 1][..i] == rows[..i];
  }

  lemma {:induction false} WinnersOne(kept: seq<Row>, r: Row)
    ensures Winners(kept + [r]) == Counted(Winners(kept), RefOf(r))
  {
    assert (kept + [r])[..|kept|] == kept;
  }

  /** One row more, as the index tells where its message is. */
  lemma {:induction false} CountedByIndex(order: seq<Ref>, index: map<Key, nat>, ref: Ref)
    requires Indexed(order, index) && OneEach(order)
    ensures ref.key !in index ==>
              && Counted(order, ref) == order + [ref]
              && Indexed(order + [ref], index[ref.key := |order|])
    ensures ref.key in index ==>
              && index[ref.key] < |order| && Indexed(order[index[ref.key] := ref], index)
              && Counted(order, ref)
                 == if Better(ref, order[index[ref.key]]) then order[index[ref.key] := ref] else order
  {
    IndexStep(order, index, ref);
    assert PlaceOf(order, ref.key) == if ref.key in index then Some(index[ref.key]) else None;
  }

  method PassOne(rows: seq<Row>) returns (order: seq<Ref>)
    ensures order == Winners(Kept(rows))
  {
    order := [];
    var index: map<Key, nat> := map[];
    for i := 0 to |rows|
      invariant order == Winners(Kept(rows[..i]))
      invariant Indexed(order, index)
    {
      var r := rows[i];
      if !r.shown || r.modelOnly {
        NotKept(rows, i);
        continue;
      }
      var ref := Ref(r.id, r.key, r.active);
      KeptOne(rows, i);
      WinnersOne(Kept(rows[..i]), r);
      AllPlaced(Kept(rows[..i]));
      CountedByIndex(order, index, ref);
      if ref.key in index {
        var at := index[ref.key];
        var kept := order[at];
        if ref.active > kept.active || (ref.active == kept.active && ref.id > kept.id) {
          order := order[at := ref];
        }
        continue;
      }
      index := index[ref.key := |order|];
      order := order + [ref];
    }
    assert rows[..|rows|] == rows;
  }

  // The second pass

  function LastCopy(table: seq<Row>, id: nat, key: Key): Option<Row>
  {
    if table == [] then None
    else
      var last := table[|table| - 1];
      if last.id == id && last.key == key then Some(last) else LastCopy(table[..|table| - 1], id, key)
  }

  function LastOfId(table: seq<Row>, id: nat): Option<Row>
  {
    if table == [] then None
    else
      var last := table[|table| - 1];
      if last.id == id then Some(last) else LastOfId(table[..|table| - 1], id)
  }

  /** The row that stands for a message now: its own, or one rewritten since that has its id. */
  function RowFor(table: seq<Row>, ref: Ref): Option<Row>
  {
    match LastCopy(table, ref.id, ref.key)
    case Some(row) => Some(row)
    case None => LastOfId(table, ref.id)
  }

  function MessageOf(ref: Ref, row: Row): Message
  {
    Message(ref.id, row.key.role, row.key.at, row.key.text, if row.key.role == TOOL then 0 else row.reasoning)
  }

  /** Everything the second pass has to show. */
  function Emitted(table: seq<Row>, order: seq<Ref>): seq<Message>
  {
    if order == [] then []
    else
      var ref := order[|order| - 1];
      Emitted(table, order[..|order| - 1])
      + match RowFor(table, ref) { case None => [] case Some(row) => [MessageOf(ref, row)] }
  }

  lemma {:induction false} EmittedConcat(table: seq<Row>, a: seq<Ref>, b: seq<Ref>)
    ensures Emitted(table, a + b) == Emitted(table, a) + Emitted(table, b)
  {
    if b == [] {
      assert a + b == a;
    } else {
      var n := |b| - 1;
      assert (a + b)[..|a + b| - 1] == a + b[..n];
      EmittedConcat(table, a, b[..n]);
    }
  }

  function Found(fetched: map<(nat, Key), Row>, byId: map<nat, Row>, ref: Ref): Option<Row>
  {
    if (ref.id, ref.key) in fetched then Some(fetched[(ref.id, ref.key)])
    else if ref.id in byId then Some(byId[ref.id])
    else None
  }

  method Fetch(table: seq<Row>, refs: seq<Ref>) returns (fetched: map<(nat, Key), Row>, byId: map<nat, Row>)
    ensures forall ref :: ref in refs ==> RowFor(table, ref) == Found(fetched, byId, ref)
  {
    var ids: set<nat> := {};
    for i := 0 to |refs|
      invariant forall k :: 0 <= k < i ==> refs[k].id in ids
    {
      ids := ids + {refs[i].id};
    }
    fetched, byId := map[], map[];
    for i := 0 to |table|
      invariant forall id: nat, key: Key :: id in ids ==>
        LastCopy(table[..i], id, key) == if (id, key) in fetched then Some(fetched[(id, key)]) else None
      invariant forall id: nat :: id in ids ==>
        LastOfId(table[..i], id) == if id in byId then Some(byId[id]) else None
    {
      assert table[..i + 1][..i] == table[..i];
      var row := table[i];
      if row.id in ids {
        fetched := fetched[(row.id, row.key) := row];
        byId := byId[row.id := row];
      }
    }
    assert table[..|table|] == table;
  }

  lemma {:induction false} EmittedOne(table: seq<Row>, refs: seq<Ref>, i: nat, was: seq<Message>)
    requires i < |refs|
    ensures was + Emitted(table, refs[..i + 1])
         == was + Emitted(table, refs[..i])
            + match RowFor(table, refs[i]) { case None => [] case Some(row) => [MessageOf(refs[i], row)] }
  {
    assert refs[..i + 1][..i] == refs[..i];
  }

  lemma {:induction false} EmittedFirst(table: seq<Row>, refs: seq<Ref>, n: nat, was: seq<Message>)
    requires n <= |refs|
    ensures was + Emitted(table, refs[..n]) <= was + Emitted(table, refs)
  {
    assert refs == refs[..n] + refs[n..];
    EmittedConcat(table, refs[..n], refs[n..]);
  }

  /** The messages of one chunk, into the sink; `more` false when the sink has enough. */
  method EmitChunk(table: seq<Row>, refs: seq<Ref>, sink: Sink) returns (more: bool)
    requires sink.Valid()
    modifies sink
    ensures sink.Valid()
    ensures more ==> sink.seen == old(sink.seen) + Emitted(table, refs)
    ensures !more ==> Enough(sink.q, sink.seen) && sink.seen <= old(sink.seen) + Emitted(table, refs)
  {
    ghost var was := sink.seen;
    var fetched, byId := Fetch(table, refs);
    for i := 0 to |refs|
      invariant sink.Valid() && sink.seen == was + Emitted(table, refs[..i])
    {
      EmittedOne(table, refs, i, was);
      var ref := refs[i];
      var row := Found(fetched, byId, ref);
      if row.None? {
        continue;
      }
      more := sink.Add(MessageOf(ref, row.value));
      if !more {
        EmittedFirst(table, refs, i + 1, was);
        return;
      }
    }
    assert refs[..|refs|] == refs;
    more := true;
  }

  /** The sink has been fed the messages of the first rows. */
  ghost predicate Through(table: seq<Row>, order: seq<Ref>, start: int, seen: seq<Message>)
  {
    0 <= start <= |order| && seen == Emitted(table, order[..start])
  }

  lemma {:induction false} ThroughChunk(table: seq<Row>, order: seq<Ref>, start: int, end: int, seen: seq<Message>)
    requires Through(table, order, start, seen) && start <= end <= |order|
    ensures Through(table, order, end, seen + Emitted(table, order[start..end]))
    ensures seen + Emitted(table, order[start..end]) <= Emitted(table, order)
  {
    assert order[..end] == order[..start] + order[start..end];
    EmittedConcat(table, order[..start], order[start..end]);
    assert order == order[..end] + order[end..];
    EmittedConcat(table, order[..end], order[end..]);
  }

  lemma {:induction false} ThroughAll(table: seq<Row>, order: seq<Ref>, seen: seq<Message>)
    ensures Through(table, order, 0, [])
    ensures Through(table, order, |order|, seen) ==> seen == Emitted(table, order)
  {
    assert order[..|order|] == order;
  }

  lemma {:induction false} BeginsWith(seen: seq<Message>, all: seq<Message>)
    requires seen <= all
    ensures |seen| <= |all| && seen == all[..|seen|]
  {
  }

  /** The chunks the rows are fetched in leave no trace in the answer. */
  method PassTwo(table: seq<Row>, order: seq<Ref>, chunk: nat, q: Query) returns (out: seq<Message>)
    requires chunk > 0
    ensures out == Window(q, Emitted(table, order))
  {
    var sink := new Sink(q);
    var start := 0;
    ThroughAll(table, order, sink.seen);
    while start < |order|
      invariant fresh(sink) && sink.Valid() && Through(table, order, start, sink.seen)
      decreases |order| - start
    {
      var end := if start + chunk > |order| then |order| else start + chunk;
      ThroughChunk(table, order, start, end, sink.seen);
      var more := EmitChunk(table, order[start..end], sink);
      if !more {
        BeginsWith(sink.seen, Emitted(table, order));
        EnoughOf(q, sink.seen, Emitted(table, order));
        out := sink.Result();
        return;
      }
      start := end;
    }
    ThroughAll(table, order, sink.seen);
    out := sink.Result();
  }

  /** The rows read in the second pass may be other than those of the first. */
  method Messages(rows: seq<Row>, table: seq<Row>, chunk: nat, q: Query) returns (out: seq<Message>)
    requires chunk > 0
    ensures out == Window(q, Emitted(table, Winners(Kept(rows))))
  {
    if q.limit <= 0 {
      return [];
    }
    var order := PassOne(rows);
    out := PassTwo(table, order, chunk, q);
  }

  lemma {:induction false} CopyThere(table: seq<Row>, id: nat, key: Key)
    ensures LastCopy(table, id, key).Some? <==> exists r :: r in table && r.id == id && r.key == key
    ensures LastCopy(table, id, key).Some? ==>
              var r := LastCopy(table, id, key).value; r in table && r.id == id && r.key == key
  {
    if table != [] {
      CopyThere(table[..|table| - 1], id, key);
    }
  }

  lemma {:induction false} LastOfIdIs(table: seq<Row>, id: nat)
    ensures LastOfId(table, id).None? <==> forall r :: r in table ==> r.id != id
    ensures LastOfId(table, id).Some? ==> LastOfId(table, id).value in table && LastOfId(table, id).value.id == id
  {
    if table != [] {
      LastOfIdIs(table[..|table| - 1], id);
    }
  }

  /** What is shown of a message whose row may have been rewritten or deleted since: a row of its id and identity
      if there is one, else another of its id, and nothing only when no row has that id any more. */
  lemma {:induction false} RowForIs(table: seq<Row>, ref: Ref)
    ensures RowFor(table, ref).None? <==> forall r :: r in table ==> r.id != ref.id
    ensures RowFor(table, ref).Some? ==>
              var row := RowFor(table, ref).value;
              && row in table && row.id == ref.id
              && (row.key == ref.key <==> exists r :: r in table && r.id == ref.id && r.key == ref.key)
  {
    CopyThere(table, ref.id, ref.key);
    LastOfIdIs(table, ref.id);
  }

  /** This message is there, with the content of its winning copy. */
  ghost predicate Stands(table: seq<Row>, ref: Ref, m: Message)
  {
    exists r :: r in table && r.id == ref.id && r.key == ref.key && Shows(m, r)
  }

  /** The message that a row shows; a tool's result has no reasoning. */
  ghost predicate Shows(m: Message, r: Row)
  {
    && m.id == r.id && m.role == r.key.role && m.at == r.key.at && m.text == r.key.text
    && m.reasoning == if r.key.role == 3 then 0 else r.reasoning
  }

  lemma {:induction false} OneStands(table: seq<Row>, order: seq<Ref>)
    requires order != []
    requires LastCopy(table, order[|order| - 1].id, order[|order| - 1].key).Some?
    ensures |Emitted(table, order)| > 0
    ensures var n := |Emitted(table, order)| - 1;
      && Emitted(table, order)[..n] == Emitted(table, order[..|order| - 1])
      && Stands(table, order[|order| - 1], Emitted(table, order)[n])
  {
    var ref := order[|order| - 1];
    CopyThere(table, ref.id, ref.key);
  }

  lemma {:induction false} QuietEmits(table: seq<Row>, order: seq<Ref>)
    requires forall i :: 0 <= i < |order| ==> LastCopy(table, order[i].id, order[i].key).Some?
    ensures |Emitted(table, order)| == |order|
    ensures forall i :: 0 <= i < |order| ==> Stands(table, order[i], Emitted(table, order)[i])
  {
    if order != [] {
      var n := |order| - 1;
      QuietEmits(table, order[..n]);
      OneStands(table, order);
      forall i | 0 <= i < n ensures Stands(table, order[i], Emitted(table, order)[i]) {
        assert Emitted(table, order)[..n][i] == Emitted(table, order)[i];
      }
    }
  }

  /** While nothing writes, every message of the rows kept is there, in order. */
  lemma {:induction false} QuietSession(kept: seq<Row>, table: seq<Row>)
    requires forall r :: r in kept ==> r in table
    ensures |Emitted(table, Winners(kept))| == |Winners(kept)|
    ensures forall i :: 0 <= i < |Winners(kept)| ==> Stands(table, Winners(kept)[i], Emitted(table, Winners(kept))[i])
  {
    var order := Winners(kept);
    WinnersAreBest(kept);
    forall i | 0 <= i < |order| ensures LastCopy(table, order[i].id, order[i].key).Some? {
      var w :| w in kept && RefOf(w) == order[i];
      assert w in table;
      CopyThere(table, order[i].id, order[i].key);
    }
    QuietEmits(table, order);
  }
}
