/** The incremental export: passes that send the rounds that changed, a collector that may fail at
    any batch, and a state that may forget. What was recorded as sent was accepted. */
module Export {
  import opened Options
  import opened Collections

  type Key = nat
  type Version = nat    // a session's last-activity time; 0 is the empty one

  datatype Span = Span(id: nat, round: int, size: nat)

  const BATCH_SPANS := 250
  const BATCH_BYTES := 8 * 1024 * 1024
  const MAX_ROUNDS := 5000
  const MAX_SESSIONS := 20000

  /** A round's fingerprint stands for its span list, in build order. */
  type Print = seq<Span>

  datatype Session = Session(updatedAt: Version, rounds: map<int, Print>)

  type State = map<Key, Session>

  /** One listed session: the filters' verdicts on it, and the spans its present version renders to
      (in an order that may differ from pass to pass). */
  datatype Record = Record(key: Key, updatedAt: Version, archived: bool, inWindow: bool, settled: bool,
                           spans: set<Span>)
  {
    predicate Due() { !archived && inWindow && settled }
  }

  function OfRound(spans: seq<Span>, round: int): seq<Span>
  {
    if spans == [] then []
    else OfRound(spans[..|spans| - 1], round) + if spans[|spans| - 1].round == round then [spans[|spans| - 1]] else []
  }

  function SizeOf(spans: seq<Span>): nat
  {
    if spans == [] then 0 else SizeOf(spans[..|spans| - 1]) + spans[|spans| - 1].size
  }

  lemma {:induction false} InRound(spans: seq<Span>, round: int)
    ensures forall span :: span in OfRound(spans, round) <==> span in spans && span.round == round
  {
    if spans != [] {
      InRound(spans[..|spans| - 1], round);
      assert spans == spans[..|spans| - 1] + [spans[|spans| - 1]];
    }
  }

  /** The spans of a round, in the order they were built. */
  lemma {:induction false} OfRoundIs(spans: seq<Span>, round: int, keep: Span -> bool)
    requires forall span: Span :: keep(span) <==> span.round == round
    ensures OfRound(spans, round) == Filter(spans, keep)
  {
    if spans != [] {
      OfRoundIs(spans[..|spans| - 1], round, keep);
    }
  }

  lemma {:induction false} RoundSome(spans: seq<Span>, round: int)
    ensures OfRound(spans, round) != [] <==> exists span :: span in spans && span.round == round
  {
    InRound(spans, round);
    if OfRound(spans, round) != [] {
      assert OfRound(spans, round)[0] in spans;
    }
  }

  ghost predicate Grouped(groups: map<int, seq<Span>>, spans: seq<Span>)
  {
    forall r :: (if r in groups then groups[r] else []) == OfRound(spans, r) && (r in groups ==> groups[r] != [])
  }

  lemma {:induction false} GroupedMeans(groups: map<int, seq<Span>>, spans: seq<Span>)
    requires Grouped(groups, spans)
    ensures forall r :: r in groups <==> exists span :: span in spans && span.round == r
    ensures forall r :: r in groups ==> groups[r] == OfRound(spans, r)
  {
    forall r ensures r in groups <==> exists span :: span in spans && span.round == r {
      RoundSome(spans, r);
    }
  }

  lemma {:induction false} GroupedStep(groups: map<int, seq<Span>>, spans: seq<Span>, span: Span)
    requires Grouped(groups, spans)
    ensures
      var group := (if span.round in groups then groups[span.round] else []) + [span];
      Grouped(groups[span.round := group], spans + [span])
  {
    assert (spans + [span])[..|spans|] == spans;
  }

  ghost predicate Ascending(rounds: seq<int>)
  {
    forall i, j :: 0 <= i < j < |rounds| ==> rounds[i] < rounds[j]
  }

  function Insert(rounds: seq<int>, round: int): seq<int>
  {
    if rounds == [] then [round]
    else if rounds[0] < round then [rounds[0]] + Insert(rounds[1..], round)
    else if rounds[0] == round then rounds
    else [round] + rounds
  }

  /** The rounds that occur, in order. */
  function SortedRounds(spans: seq<Span>): seq<int>
  {
    if spans == [] then [] else Insert(SortedRounds(spans[..|spans| - 1]), spans[|spans| - 1].round)
  }

  lemma {:induction false} InsertHas(rounds: seq<int>, round: int)
    ensures forall r :: r in Insert(rounds, round) <==> r in rounds || r == round
  {
    if rounds != [] && rounds[0] < round {
      InsertHas(rounds[1..], round);
      assert rounds == [rounds[0]] + rounds[1..];
    }
  }

  lemma {:induction false} Inserted(rounds: seq<int>, round: int)
    requires Ascending(rounds)
    ensures Ascending(Insert(rounds, round))
    ensures forall r :: r in Insert(rounds, round) <==> r in rounds || r == round
  {
    InsertHas(rounds, round);
    if rounds != [] && rounds[0] < round {
      var rest := rounds[1..];
      Inserted(rest, round);
      InsertHas(rest, round);
      assert forall k :: 0 <= k < |rest| ==> rest[k] == rounds[k + 1];
      AscendingOn(rounds[0], Insert(rest, round));
    }
  }

  lemma {:induction false} AscendingOn(first: int, rest: seq<int>)
    requires Ascending(rest) && forall r :: r in rest ==> first < r
    ensures Ascending([first] + rest)
  {
    forall j | 0 <= j < |rest| ensures first < rest[j] {
      assert rest[j] in rest;
    }
  }

  lemma {:induction false} RoundsSorted(spans: seq<Span>)
    ensures Ascending(SortedRounds(spans))
    ensures forall r :: r in SortedRounds(spans) <==> exists span :: span in spans && span.round == r
  {
    if spans != [] {
      var pre, last := spans[..|spans| - 1], spans[|spans| - 1];
      RoundsSorted(pre);
      Inserted(SortedRounds(pre), last.round);
      assert spans == pre + [last];
    }
  }

  /** The rounds whose fingerprint is not the one recorded. */
  function Stale(known: map<int, Print>, resend: bool, spans: seq<Span>, rounds: seq<int>): seq<int>
  {
    if rounds == [] then []
    else
      var r := rounds[0];
      var skip := !resend && r in known && known[r] == OfRound(spans, r);
      (if skip then [] else [r]) + Stale(known, resend, spans, rounds[1..])
  }

  function FromRounds(spans: seq<Span>, rounds: seq<int>): seq<Span>
  {
    if rounds == [] then [] else OfRound(spans, rounds[0]) + FromRounds(spans, rounds[1..])
  }

  lemma {:induction false} OneMore(spans: seq<Span>, start: nat, end: nat)
    requires start <= end < |spans|
    ensures SizeOf(spans[start..end + 1]) == SizeOf(spans[start..end]) + spans[end].size
  {
    assert spans[start..end + 1][..end - start] == spans[start..end];
  }

  /** One request takes as many spans as fit by number and by size, and one in any case. */
  ghost predicate IsBatch(spans: seq<Span>, start: nat, end: nat)
  {
    && start < end <= |spans| && end - start <= BATCH_SPANS
    && (SizeOf(spans[start..end]) <= BATCH_BYTES || end == start + 1)
    && (end == |spans| || end - start == BATCH_SPANS || SizeOf(spans[start..end + 1]) > BATCH_BYTES)
  }

  lemma {:induction false} SizeGrows(spans: seq<Span>, start: nat, a: nat, b: nat)
    requires start <= a <= b <= |spans|
    ensures SizeOf(spans[start..a]) <= SizeOf(spans[start..b])
  {
    if a < b {
      SizeGrows(spans, start, a, b - 1);
      OneMore(spans, start, b - 1);
    }
  }

  /** There is one such batch from any place on. */
  lemma {:induction false} OneBatch(spans: seq<Span>, start: nat, a: nat, b: nat)
    requires IsBatch(spans, start, a) && IsBatch(spans, start, b)
    ensures a == b
  {
    if a < b {
      SizeGrows(spans, start, a + 1, b);
    } else if b < a {
      SizeGrows(spans, start, b + 1, a);
    }
  }

  /** Where the batch that starts at `start` ends. */
  method NextBatch(spans: seq<Span>, start: nat) returns (end: nat)
    requires start < |spans|
    ensures IsBatch(spans, start, end)
  {
    end := start;
    var size := 0;
    while end < |spans| && end - start < BATCH_SPANS
      invariant start <= end <= |spans| && end - start <= BATCH_SPANS
      invariant size == SizeOf(spans[start..end])
      invariant size <= BATCH_BYTES || end == start + 1
    {
      OneMore(spans, start, end);
      size := size + spans[end].size;
      if size > BATCH_BYTES && end > start {
        break;
      }
      end := end + 1;
    }
  }

  /** A request to the collector, and whether it answered that it took it. */
  datatype Request = Request(batch: seq<Span>, ok: bool)

  /** What was posted, in order. */
  function Posted(log: seq<Request>): seq<Span>
  {
    if log == [] then [] else Posted(log[..|log| - 1]) + log[|log| - 1].batch
  }

  predicate AllOk(log: seq<Request>)
  {
    forall i :: 0 <= i < |log| ==> log[i].ok
  }

  /** The requests are the batches of these spans, from the first one on, each posted once those before it
      were accepted. */
  ghost predicate Batches(spans: seq<Span>, log: seq<Request>)
  {
    log != [] ==>
      var before, batch := log[..|log| - 1], log[|log| - 1].batch;
      var start := |Posted(before)|;
      && Batches(spans, before) && AllOk(before)
      && BatchFrom(spans, start, batch) && Posted(before) == spans[..start]
  }

  ghost predicate BatchFrom(spans: seq<Span>, start: nat, batch: seq<Span>)
  {
    IsBatch(spans, start, start + |batch|) && batch == spans[start..start + |batch|]
  }

  /** Each request is the batch from where the one before ended. */
  ghost predicate EachFrom(spans: seq<Span>, log: seq<Request>)
  {
    forall i :: 0 <= i < |log| ==> BatchFrom(spans, |Posted(log[..i])|, log[i].batch)
  }

  /** So what was posted is a beginning of the spans. */
  lemma {:induction false} PostedIsFirst(spans: seq<Span>, log: seq<Request>)
    requires Batches(spans, log)
    ensures Posted(log) <= spans
    ensures log == [] <==> Posted(log) == []
  {
    if log != [] {
      var start, batch := |Posted(log[..|log| - 1])|, log[|log| - 1].batch;
      assert spans[..start + |batch|] == spans[..start] + spans[start..start + |batch|];
    }
  }

  /** All but the last were accepted. */
  lemma {:induction false} BatchesInOrder(spans: seq<Span>, log: seq<Request>)
    requires Batches(spans, log)
    ensures EachFrom(spans, log) && forall i :: 0 <= i < |log| - 1 ==> log[i].ok
  {
    if log != [] {
      var n := |log| - 1;
      BatchesInOrder(spans, log[..n]);
      forall i | 0 <= i < |log|
        ensures BatchFrom(spans, |Posted(log[..i])|, log[i].batch) && (i < n ==> log[i].ok)
      {
        if i < n {
          assert log[..n][i] == log[i] && log[..n][..i] == log[..i];
        }
      }
    }
  }

  lemma {:induction false} TwoBatches(spans: seq<Span>, start: nat, x: seq<Span>, y: seq<Span>)
    requires BatchFrom(spans, start, x) && BatchFrom(spans, start, y)
    ensures x == y
  {
    OneBatch(spans, start, start + |x|, start + |y|);
  }

  lemma {:induction false} PostedTake(log: seq<Request>, i: nat)
    requires i < |log|
    ensures Posted(log[..i + 1]) == Posted(log[..i]) + log[i].batch
  {
    assert log[..i + 1][..i] == log[..i];
  }

  /** The batches depend on the spans alone. */
  lemma {:induction false} SameBatch(spans: seq<Span>, a: seq<Request>, b: seq<Request>, i: nat)
    requires EachFrom(spans, a) && EachFrom(spans, b) && i < |a| && i < |b|
    ensures a[i].batch == b[i].batch && Posted(a[..i]) == Posted(b[..i])
  {
    if i > 0 {
      SameBatch(spans, a, b, i - 1);
      PostedTake(a, i - 1);
      PostedTake(b, i - 1);
    }
    TwoBatches(spans, |Posted(a[..i])|, a[i].batch, b[i].batch);
  }

  /** The next batch, posted once all before it were accepted. */
  lemma {:induction false} PostedOn(spans: seq<Span>, log: seq<Request>, start: nat, end: nat, ok: bool)
    requires Batches(spans, log) && AllOk(log) && start <= |spans| && Posted(log) == spans[..start]
    requires IsBatch(spans, start, end)
    ensures Batches(spans, log + [Request(spans[start..end], ok)])
    ensures Posted(log + [Request(spans[start..end], ok)]) == spans[..end]
    ensures AllOk(log + [Request(spans[start..end], ok)]) <==> ok
  {
    var more := log + [Request(spans[start..end], ok)];
    assert more[..|more| - 1] == log && !ok ==> !more[|log|].ok;
    assert more[..|more| - 1] == log;
    assert spans[..end] == spans[..start] + spans[start..end];
    if ok {
      assert forall i :: 0 <= i < |more| ==> more[i].ok;
    } else {
      assert !more[|log|].ok;
    }
  }

  ghost predicate Accepted(spans: seq<Span>, delivered: set<Span>)
  {
    forall span :: span in spans ==> span in delivered
  }

  /** Every recorded round was accepted, span by span. */
  ghost predicate RoundsTrue(sessions: State, delivered: set<Span>)
  {
    forall key, r :: key in sessions && r in sessions[key].rounds ==> Accepted(sessions[key].rounds[r], delivered)
  }

  /** A session recorded at a version was accepted as that version. `world` is what each version of
      each session renders to: a session's content only moves with its last-activity time. */
  ghost predicate VersionsTrue(sessions: State, world: map<(Key, Version), set<Span>>, delivered: set<Span>)
  {
    forall key :: key in sessions && sessions[key].updatedAt != 0 && (key, sessions[key].updatedAt) in world ==>
                    world[(key, sessions[key].updatedAt)] <= delivered
  }

  ghost predicate Recorded(sessions: State, world: map<(Key, Version), set<Span>>, delivered: set<Span>)
  {
    RoundsTrue(sessions, delivered) && VersionsTrue(sessions, world, delivered)
  }

  /** A state written earlier stays true: loading an old one, or losing it, is harmless. */
  lemma {:induction false} RecordedStays(sessions: State, world: map<(Key, Version), set<Span>>, before: set<Span>,
                                         now: set<Span>)
    requires Recorded(sessions, world, before) && before <= now
    ensures Recorded(sessions, world, now)
    ensures Recorded(map[], world, now)
  {
    forall key, r | key in sessions && r in sessions[key].rounds ensures Accepted(sessions[key].rounds[r], now) {
      assert Accepted(sessions[key].rounds[r], before);
    }
  }

  function SessionOf(sessions: State, key: Key): Session
  {
    if key in sessions then sessions[key] else Session(0, map[])
  }

  /** mark: the version, and the fingerprints of what was sent. A session of too many changed rounds
      forgets the others, and a state of too many sessions forgets everything. */
  function Marked(sessions: State, key: Key, updatedAt: Version, changed: Option<map<int, Print>>): State
  {
    var had := SessionOf(sessions, key).rounds;
    var rounds := if changed.None? then had
                  else (if |changed.value| > MAX_ROUNDS then map[] else had) + changed.value;
    var all := sessions[key := Session(updatedAt, rounds)];
    if |all| > MAX_SESSIONS then map[] else all
  }

  lemma {:induction false} WithKey(sessions: State, key: Key, session: Session)
    ensures sessions[key := session].Keys == sessions.Keys + {key}
    ensures |sessions[key := session]| == |sessions.Keys + {key}|
  {
    assert sessions[key := session].Keys == sessions.Keys + {key};
  }

  /** What a mark makes of the record of its session, round by round. */
  lemma {:induction false} RoundsMarked(sessions: State, key: Key, updatedAt: Version, changed: map<int, Print>, r: int)
    requires |sessions.Keys + {key}| <= MAX_SESSIONS
    ensures var now, had := Marked(sessions, key, updatedAt, Some(changed)), SessionOf(sessions, key).rounds;
      && key in now
      && (r in changed ==> r in now[key].rounds && now[key].rounds[r] == changed[r])
      && (r !in changed ==> (r in now[key].rounds <==> r in had && |changed| <= MAX_ROUNDS))
      && (r !in changed && r in now[key].rounds ==> now[key].rounds[r] == had[r])
  {
    var kept := if |changed| > MAX_ROUNDS then map[] else SessionOf(sessions, key).rounds;
    WithKey(sessions, key, Session(updatedAt, kept + changed));
  }

  /** And of the others. Past the bound on sessions it forgets them all. */
  lemma {:induction false} MarkedIs(sessions: State, key: Key, updatedAt: Version, changed: Option<map<int, Print>>)
    ensures var now := Marked(sessions, key, updatedAt, changed);
      if |sessions.Keys + {key}| > MAX_SESSIONS then now == map[]
      else
        && now.Keys == sessions.Keys + {key} && now[key].updatedAt == updatedAt
        && (forall k :: k in sessions && k != key ==> now[k] == sessions[k])
        && (changed.None? ==> now[key].rounds == SessionOf(sessions, key).rounds)
  {
    var had := SessionOf(sessions, key).rounds;
    var rounds := if changed.None? then had
                  else (if |changed.value| > MAX_ROUNDS then map[] else had) + changed.value;
    WithKey(sessions, key, Session(updatedAt, rounds));
  }

  lemma {:induction false} MarkedTrue(sessions: State, key: Key, updatedAt: Version, changed: Option<map<int, Print>>,
                                      world: map<(Key, Version), set<Span>>, delivered: set<Span>)
    requires Recorded(sessions, world, delivered)
    requires changed.Some? ==> forall r :: r in changed.value ==> Accepted(changed.value[r], delivered)
    requires updatedAt != 0 && (key, updatedAt) in world ==> world[(key, updatedAt)] <= delivered
    ensures Recorded(Marked(sessions, key, updatedAt, changed), world, delivered)
  {
    var after := Marked(sessions, key, updatedAt, changed);
    forall k, r | k in after && r in after[k].rounds ensures Accepted(after[k].rounds[r], delivered) {
      if k == key && changed.Some? && r in changed.value {
        assert after[k].rounds[r] == changed.value[r];
      } else {
        assert r in SessionOf(sessions, k).rounds && k in sessions;
      }
    }
  }

  lemma {:induction false} StaleStep(known: map<int, Print>, resend: bool, spans: seq<Span>, rounds: seq<int>)
    requires rounds != []
    ensures var r, rest := rounds[0], Stale(known, resend, spans, rounds[1..]);
            if !resend && r in known && known[r] == OfRound(spans, r)
            then Stale(known, resend, spans, rounds) == rest
            else Stale(known, resend, spans, rounds) == [r] + rest && Stale(known, resend, spans, rounds)[1..] == rest
  {
  }

  /** Part-way through a session's rounds: `left` of the stale ones are still to be added. */
  ghost predicate Sending(spans: seq<Span>, stale: seq<int>, left: seq<int>, kept: seq<Span>, changed: map<int, Print>)
  {
    && kept + FromRounds(spans, left) == FromRounds(spans, stale)
    && (forall r :: r in stale <==> r in changed || r in left)
    && (forall r :: r in changed ==> changed[r] == OfRound(spans, r))
  }

  lemma {:induction false} SendingStep(spans: seq<Span>, stale: seq<int>, left: seq<int>, kept: seq<Span>,
                                       changed: map<int, Print>)
    requires left != [] && Sending(spans, stale, left, kept, changed)
    ensures Sending(spans, stale, left[1..], kept + OfRound(spans, left[0]),
                    changed[left[0] := OfRound(spans, left[0])])
  {
    assert left == [left[0]] + left[1..];
    assert kept + FromRounds(spans, left) == kept + OfRound(spans, left[0]) + FromRounds(spans, left[1..]);
  }

  /** The rounds to send are exactly those whose present fingerprint is not on record. */
  lemma {:induction false} StaleRounds(known: map<int, Print>, resend: bool, spans: seq<Span>, rounds: seq<int>)
    ensures forall r :: r in Stale(known, resend, spans, rounds)
                   <==> r in rounds && !(!resend && r in known && known[r] == OfRound(spans, r))
  {
    if rounds != [] {
      StaleRounds(known, resend, spans, rounds[1..]);
      assert rounds == [rounds[0]] + rounds[1..];
    }
  }

  lemma {:induction false} InRounds(spans: seq<Span>, rounds: seq<int>)
    ensures forall span :: span in FromRounds(spans, rounds) <==> span in spans && span.round in rounds
  {
    if rounds != [] {
      InRounds(spans, rounds[1..]);
      InRound(spans, rounds[0]);
      assert rounds == [rounds[0]] + rounds[1..];
    }
  }

  /** What is skipped was accepted before: with the kept spans accepted too, all spans are. */
  lemma {:induction false} SkippedWasAccepted(sessions: State, key: Key, resend: bool, spans: seq<Span>,
                                              delivered: set<Span>)
    requires RoundsTrue(sessions, delivered)
    requires Accepted(FromRounds(spans, Stale(SessionOf(sessions, key).rounds, resend, spans, SortedRounds(spans))),
                      delivered)
    ensures Accepted(spans, delivered)
  {
    var known := SessionOf(sessions, key).rounds;
    var stale := Stale(known, resend, spans, SortedRounds(spans));
    StaleRounds(known, resend, spans, SortedRounds(spans));
    RoundsSorted(spans);
    InRounds(spans, stale);
    forall span | span in spans ensures span in delivered {
      if span.round !in stale {
        InRound(spans, span.round);
        assert key in sessions && Accepted(sessions[key].rounds[span.round], delivered);
      }
    }
  }

  /** The first spans have been posted, and accepted. */
  ghost predicate SentTo(spans: seq<Span>, start: int, log: seq<Request>, was: set<Span>, delivered: set<Span>)
  {
    && 0 <= start <= |spans|
    && Batches(spans, log) && AllOk(log) && Posted(log) == spans[..start]
    && was <= delivered <= was + (set span | span in spans)
    && Accepted(spans[..start], delivered)
  }

  lemma {:induction false} SentOn(spans: seq<Span>, start: nat, end: nat, log: seq<Request>, was: set<Span>,
                                  before: set<Span>, now: set<Span>, ok: bool)
    requires SentTo(spans, start, log, was, before) && IsBatch(spans, start, end)
    requires before <= now <= before + (set span | span in spans[start..end])
    requires ok ==> forall span :: span in spans[start..end] ==> span in now
    ensures var more := log + [Request(spans[start..end], ok)];
      && Batches(spans, more) && (AllOk(more) <==> ok)
      && was <= now <= was + (set span | span in spans)
      && (ok ==> SentTo(spans, end, more, was, now))
  {
    PostedOn(spans, log, start, end, ok);
    assert spans[..end] == spans[..start] + spans[start..end];
  }

  /** The rounds of a rendered session that are not on record. */
  function StaleIn(sessions: State, key: Key, resend: bool, built: seq<Span>): seq<int>
  {
    Stale(SessionOf(sessions, key).rounds, resend, built, SortedRounds(built))
  }

  function PrintsOf(built: seq<Span>, rounds: seq<int>): map<int, Print>
  {
    map r | r in rounds :: OfRound(built, r)
  }

  lemma {:induction false} PrintsAre(built: seq<Span>, rounds: seq<int>, prints: map<int, Print>)
    requires forall r :: r in rounds <==> r in prints
    requires forall r :: r in prints ==> prints[r] == OfRound(built, r)
    ensures prints == PrintsOf(built, rounds)
  {
    assert prints.Keys == PrintsOf(built, rounds).Keys;
  }

  predicate KnownIn(sessions: State, key: Key, updatedAt: Version)
  {
    updatedAt != 0 && key in sessions && sessions[key].updatedAt == updatedAt
  }

  /** What one session of a pass comes to: its spans as they were built, the requests made, and whether all
      of those were accepted. */
  datatype Outcome = Outcome(built: seq<Span>, log: seq<Request>, ok: bool)

  /** One session of a pass. Only the rounds not on record are posted, in batches; it fails exactly when a
      request is refused, and is recorded exactly when there was something to render and it did not. */
  ghost predicate Exported(resend: bool, rec: Record, was: State, out: Outcome, now: State)
  {
    if !rec.Due() || (!resend && KnownIn(was, rec.key, rec.updatedAt)) then out.ok && out.log == [] && now == was
    else
      var stale := StaleIn(was, rec.key, resend, out.built);
      && (forall span :: span in out.built <==> span in rec.spans)
      && SentAll(FromRounds(out.built, stale), out.log, out.ok)
      && now == if !out.ok || out.built == [] then was
                else Marked(was, rec.key, rec.updatedAt, if stale == [] then None else Some(PrintsOf(out.built, stale)))
  }

  ghost predicate SentAll(spans: seq<Span>, log: seq<Request>, ok: bool)
  {
    Batches(spans, log) && (ok <==> AllOk(log)) && (ok ==> Posted(log) == spans)
  }

  /** A pass: session after session, each from the state that the one before it left. */
  ghost predicate Pass(resend: bool, recs: seq<Record>, states: seq<State>, outs: seq<Outcome>)
  {
    && |outs| == |recs| && |states| == |recs| + 1
    && forall i :: 0 <= i < |recs| ==> Exported(resend, recs[i], states[i], outs[i], states[i + 1])
  }

  /** Failed are the sessions of which a request was refused. */
  ghost predicate FailedIs(failed: set<int>, outs: seq<Outcome>)
  {
    forall i :: i in failed <==> 0 <= i < |outs| && !AllOk(outs[i].log)
  }

  /** Of the first n sessions every one that was due and did not fail is delivered as it is now. */
  ghost predicate AllDelivered(recs: seq<Record>, n: nat, failed: set<int>, delivered: set<Span>)
  {
    n <= |recs| && forall i :: 0 <= i < n && i !in failed && recs[i].Due() ==> recs[i].spans <= delivered
  }

  lemma {:induction false} DeliveredOn(recs: seq<Record>, i: nat, failed: set<int>, before: set<Span>, now: set<Span>,
                                       ok: bool)
    requires i < |recs| && AllDelivered(recs, i, failed, before) && before <= now
    requires ok && recs[i].Due() ==> recs[i].spans <= now
    ensures AllDelivered(recs, i + 1, if ok then failed else failed + {i}, now)
  {
  }

  /** The first n sessions of a pass. */
  ghost predicate PassTo(resend: bool, recs: seq<Record>, n: nat, first: State, states: seq<State>,
                         outs: seq<Outcome>, now: State)
  {
    n <= |recs| && Pass(resend, recs[..n], states, outs) && states[0] == first && states[n] == now
  }

  function LogsOf(outs: seq<Outcome>): seq<Request>
  {
    if outs == [] then [] else LogsOf(outs[..|outs| - 1]) + outs[|outs| - 1].log
  }

  /** A round has at least one span, so no stale rounds are no spans to post. */
  lemma {:induction false} StaleNotEmpty(built: seq<Span>, stale: seq<int>)
    requires forall r :: r in stale ==> r in SortedRounds(built)
    ensures FromRounds(built, stale) == [] <==> stale == []
  {
    if stale != [] {
      assert stale[0] in stale;
      RoundsSorted(built);
      RoundSome(built, stale[0]);
      assert OfRound(built, stale[0]) != [];
    }
  }

  /** What an exporter has on record, what was delivered, and what it posted. */
  datatype View = View(sessions: State, delivered: set<Span>, posts: seq<Request>)

  /** Part-way through a pass: what holds of its first n sessions. */
  ghost predicate MidPass(resend: bool, world: map<(Key, Version), set<Span>>, recs: seq<Record>, n: nat, was: View,
                          failed: set<int>, states: seq<State>, outs: seq<Outcome>, now: View)
  {
    && Recorded(now.sessions, world, now.delivered) && was.delivered <= now.delivered
    && AllDelivered(recs, n, failed, now.delivered) && FailedIs(failed, outs)
    && PassTo(resend, recs, n, was.sessions, states, outs, now.sessions)
    && now.posts == was.posts + LogsOf(outs)
  }

  lemma {:induction false} MidPassOn(resend: bool, world: map<(Key, Version), set<Span>>, recs: seq<Record>, i: nat,
                                     was: View, failed: set<int>, states: seq<State>, outs: seq<Outcome>,
                                     before: View, out: Outcome, now: View)
    requires i < |recs| && MidPass(resend, world, recs, i, was, failed, states, outs, before)
    requires Exported(resend, recs[i], before.sessions, out, now.sessions)
    requires Recorded(now.sessions, world, now.delivered) && before.delivered <= now.delivered
    requires out.ok && recs[i].Due() ==> recs[i].spans <= now.delivered
    requires now.posts == before.posts + out.log
    ensures MidPass(resend, world, recs, i + 1, was, if out.ok then failed else failed + {i}, states + [now.sessions],
                    outs + [out], now)
  {
    var all, more := states + [now.sessions], outs + [out];
    forall k | 0 <= k < i + 1 ensures Exported(resend, recs[..i + 1][k], all[k], more[k], all[k + 1]) {
      if k < i {
        assert recs[..i][k] == recs[k];
      }
    }
    LogsOn(was.posts, outs, out);
    FailedOn(failed, outs, out);
    DeliveredOn(recs, i, failed, before.delivered, now.delivered, out.ok);
  }

  lemma {:induction false} LogsOn(posted: seq<Request>, outs: seq<Outcome>, out: Outcome)
    ensures posted + LogsOf(outs) + out.log == posted + LogsOf(outs + [out])
  {
    assert (outs + [out])[..|outs|] == outs;
  }

  lemma {:induction false} FailedOn(failed: set<int>, outs: seq<Outcome>, out: Outcome)
    requires FailedIs(failed, outs) && (out.ok <==> AllOk(out.log))
    ensures FailedIs(if out.ok then failed else failed + {|outs|}, outs + [out])
  {
  }

  class Exporter {
    const resend: bool
    var sessions: State
    ghost var delivered: set<Span>
    ghost var posts: seq<Request>
    ghost const world: map<(Key, Version), set<Span>>

    ghost predicate Valid()
      reads this
    {
      Recorded(sessions, world, delivered)
    }

    ghost function Now(): View
      reads this
    {
      View(sessions, delivered, posts)
    }

    constructor (resend: bool, ghost world: map<(Key, Version), set<Span>>)
      ensures Valid() && this.resend == resend && this.world == world && sessions == map[] && delivered == {}
      ensures posts == []
    {
      this.resend, this.world := resend, world;
      sessions, delivered, posts := map[], {}, [];
    }

    /** One request to the collector. An error says nothing about what it took. */
    method Post(batch: seq<Span>) returns (ok: bool)
      modifies `delivered, `posts
      ensures old(delivered) <= delivered <= old(delivered) + (set span | span in batch)
      ensures ok ==> forall span :: span in batch ==> span in delivered
      ensures posts == old(posts) + [Request(batch, ok)]
    {
      ok := *;
      ghost var took: bool := *;
      if ok || took {
        delivered := delivered + set span | span in batch;
      }
      posts := posts + [Request(batch, ok)];
    }

    /** The requests of one session's spans. */
    method Send(spans: seq<Span>) returns (ok: bool, ghost log: seq<Request>)
      modifies `delivered, `posts
      ensures old(delivered) <= delivered <= old(delivered) + (set span | span in spans)
      ensures ok ==> forall span :: span in spans ==> span in delivered
      ensures posts == old(posts) + log && SentAll(spans, log, ok)
    {
      var start := 0;
      log := [];
      ghost var was, posted := delivered, posts;
      while start < |spans|
        invariant SentTo(spans, start, log, was, delivered) && posts == posted + log
        invariant 0 <= start <= |spans|
      {
        ghost var before := delivered;
        var end := NextBatch(spans, start);
        ok := Post(spans[start..end]);
        SentOn(spans, start, end, log, was, before, delivered, ok);
        log := log + [Request(spans[start..end], ok)];
        if !ok {
          return;
        }
        start := end;
      }
      assert spans[..start] == spans;
      ok := true;
    }

    /** groupRounds, its keys sorted, and each group compared with what is on record. */
    method RoundsToSend(key: Key, spans: seq<Span>) returns (kept: seq<Span>, changed: map<int, Print>)
      ensures var stale := StaleIn(sessions, key, resend, spans);
              && kept == FromRounds(spans, stale)
              && (forall r :: r in changed <==> r in stale)
              && (forall r :: r in changed ==> changed[r] == OfRound(spans, r))
    {
      var groups := GroupRounds(spans);
      var rounds := SortedRounds(spans);
      RoundsSorted(spans);
      var known := SessionOf(sessions, key).rounds;
      assert forall r :: r in rounds ==> r in groups;
      kept, changed := [], map[];
      ghost var stale := Stale(known, resend, spans, rounds);
      ghost var left := stale;
      for i := 0 to |rounds|
        invariant left == Stale(known, resend, spans, rounds[i..])
        invariant Sending(spans, stale, left, kept, changed)
      {
        var r := rounds[i];
        StaleStep(known, resend, spans, rounds[i..]);
        assert rounds[i..][1..] == rounds[i + 1..];
        assert r in rounds;
        var mark := groups[r];
        if !resend && r in known && known[r] == mark {
          continue;
        }
        SendingStep(spans, stale, left, kept, changed);
        kept := kept + groups[r];
        changed := changed[r := mark];
        left := left[1..];
      }
      assert kept + [] == kept;
    }

    method GroupRounds(spans: seq<Span>) returns (groups: map<int, seq<Span>>)
      ensures forall r :: r in groups <==> exists span :: span in spans && span.round == r
      ensures forall r :: r in groups ==> groups[r] == OfRound(spans, r)
    {
      groups := map[];
      for i := 0 to |spans|
        invariant Grouped(groups, spans[..i])
      {
        var span := spans[i];
        GroupedStep(groups, spans[..i], span);
        assert spans[..i + 1] == spans[..i] + [span];
        groups := groups[span.round := (if span.round in groups then groups[span.round] else []) + [span]];
      }
      assert spans[..|spans|] == spans;
      GroupedMeans(groups, spans);
    }

    predicate Known(key: Key, updatedAt: Version)
      reads this
    {
      KnownIn(sessions, key, updatedAt)
    }

    method Mark(key: Key, updatedAt: Version, changed: Option<map<int, Print>>)
      modifies `sessions
      ensures sessions == Marked(old(sessions), key, updatedAt, changed)
    {
      var session := SessionOf(sessions, key).(updatedAt := updatedAt);
      if changed.Some? {
        if |changed.value| > MAX_ROUNDS {
          session := session.(rounds := map[]);
        }
        session := session.(rounds := session.rounds + changed.value);
      }
      sessions := sessions[key := session];
      if |sessions| > MAX_SESSIONS {
        sessions := map[];
      }
    }

    /** The spans of a session, in the order this pass happens to build them. */
    method Render(spans: set<Span>) returns (built: seq<Span>)
      ensures forall span :: span in built <==> span in spans
    {
      built := [];
      var left := spans;
      while left != {}
        invariant left <= spans
        invariant forall span :: span in built <==> span in spans - left
      {
        var span :| span in left;
        built, left := built + [span], left - {span};
      }
    }

    /** A session's spans are those of its version. The empty version says nothing of the content. */
    ghost predicate Renders(rec: Record)
    {
      rec.updatedAt != 0 ==> (rec.key, rec.updatedAt) in world && world[(rec.key, rec.updatedAt)] == rec.spans
    }

    /** One session of a pass. */
    method ExportSession(rec: Record) returns (ok: bool, ghost out: Outcome)
      requires Valid() && Renders(rec)
      modifies this
      ensures Valid() && old(delivered) <= delivered
      ensures ok && rec.Due() ==> rec.spans <= delivered
      ensures posts == old(posts) + out.log && out.ok == ok
      ensures Exported(resend, rec, old(sessions), out, sessions)
      ensures rec.archived || !rec.inWindow || !rec.settled ==> ok && out.log == [] && sessions == old(sessions)
    {
      ok, out := true, Outcome([], [], true);
      if !rec.Due() || (!resend && Known(rec.key, rec.updatedAt)) {
        return;
      }
      var built := Render(rec.spans);
      ghost var stale := StaleIn(sessions, rec.key, resend, built);
      StaleRounds(SessionOf(sessions, rec.key).rounds, resend, built, SortedRounds(built));
      StaleNotEmpty(built, stale);
      out := Outcome(built, [], true);
      if built == [] {
        return;
      }
      var kept, changed := RoundsToSend(rec.key, built);
      PrintsAre(built, stale, changed);
      if kept == [] {
        SkippedWasAccepted(sessions, rec.key, resend, built, delivered);
        MarkedTrue(sessions, rec.key, rec.updatedAt, None, world, delivered);
        Mark(rec.key, rec.updatedAt, None);
        return;
      }
      ghost var before, log := delivered, [];
      ok, log := Send(kept);
      out := Outcome(built, log, ok);
      RecordedStays(sessions, world, before, delivered);
      if !ok {
        return;
      }
      SkippedWasAccepted(sessions, rec.key, resend, built, delivered);
      forall r | r in changed ensures Accepted(changed[r], delivered) {
        InRound(built, r);
      }
      MarkedTrue(sessions, rec.key, rec.updatedAt, Some(changed), world, delivered);
      Mark(rec.key, rec.updatedAt, Some(changed));
    }

    /** One pass over the listed sessions. A session is left for the next pass exactly when a request of its
        was refused; every other one that was due is, as it is now, delivered whole. */
    method ExportOnce(recs: seq<Record>) returns (failed: set<int>, ghost states: seq<State>, ghost outs: seq<Outcome>)
      requires Valid()
      requires forall i :: 0 <= i < |recs| ==> Renders(recs[i])
      modifies this
      ensures Valid() && old(delivered) <= delivered
      ensures AllDelivered(recs, |recs|, failed, delivered)
      ensures Pass(resend, recs, states, outs) && states[0] == old(sessions) && states[|recs|] == sessions
      ensures posts == old(posts) + LogsOf(outs)
      ensures FailedIs(failed, outs)
    {
      ghost var was := Now();
      failed, states, outs := {}, [sessions], [];
      for i := 0 to |recs|
        invariant MidPass(resend, world, recs, i, was, failed, states, outs, Now())
      {
        failed, states, outs := ExportNext(recs, i, was, failed, states, outs);
      }
      assert recs[..|recs|] == recs;
    }

    /** One turn of that loop. */
    method ExportNext(recs: seq<Record>, i: nat, ghost was: View, failed: set<int>, ghost states: seq<State>,
                      ghost outs: seq<Outcome>)
      returns (failed': set<int>, ghost states': seq<State>, ghost outs': seq<Outcome>)
      requires i < |recs| && Renders(recs[i])
      requires MidPass(resend, world, recs, i, was, failed, states, outs, Now())
      modifies this
      ensures MidPass(resend, world, recs, i + 1, was, failed', states', outs', Now())
    {
      ghost var before := Now();
      var ok, out := ExportSession(recs[i]);
      MidPassOn(resend, world, recs, i, was, failed, states, outs, before, out, Now());
      states', outs' := states + [sessions], outs + [out];
      failed' := if ok then failed else failed + {i};
    }

    /** The cursor file of an earlier run is read back, or is missing. */
    method LoadState(saved: Option<State>, ghost earlier: set<Span>)
      requires Valid()
      requires earlier <= delivered && (saved.Some? ==> Recorded(saved.value, world, earlier))
      modifies `sessions
      ensures Valid()
    {
      RecordedStays(if saved.Some? then saved.value else map[], world, earlier, delivered);
      sessions := if saved.Some? then saved.value else map[];
    }
  }
}
