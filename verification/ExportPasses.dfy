/** One export pass after another: what was sent once is not sent again. */
module ExportPasses {
  import opened Options
  import opened Collections
  import opened Export

  function KeysOf(recs: seq<Record>): set<Key>
  {
    set i | 0 <= i < |recs| :: recs[i].key
  }

  ghost predicate OwnKeys(recs: seq<Record>)
  {
    forall i, j :: 0 <= i < j < |recs| ==> recs[i].key != recs[j].key
  }

  /** Nothing else of the state changes, while there is room for all sessions. */
  ghost predicate OnlyChanges(key: Key, was: State, now: State)
  {
    forall k :: k != key ==> (k in was <==> k in now) && (k in was && k in now ==> now[k] == was[k])
  }

  lemma {:induction false} MarkedKeeps(was: State, key: Key, at: Version, changed: Option<map<int, Print>>,
                                       room: set<Key>)
    requires was.Keys <= room && key in room && |room| <= MAX_SESSIONS
    ensures var now := Marked(was, key, at, changed);
      && now.Keys <= room && OnlyChanges(key, was, now)
      && key in now && now[key].updatedAt == at
  {
    Fits(was.Keys + {key}, room);
    assert was[key := Session(at, map[])].Keys == was.Keys + {key};
  }

  lemma {:induction false} StepKeeps(resend: bool, rec: Record, was: State, out: Outcome, now: State, room: set<Key>)
    requires Exported(resend, rec, was, out, now)
    requires was.Keys <= room && rec.key in room && |room| <= MAX_SESSIONS
    ensures now.Keys <= room && OnlyChanges(rec.key, was, now)
    ensures out.ok && rec.Due() && rec.spans != {} && rec.updatedAt != 0 ==> KnownIn(now, rec.key, rec.updatedAt)
  {
    if now != was {
      var stale := StaleIn(was, rec.key, resend, out.built);
      MarkedKeeps(was, rec.key, rec.updatedAt, None, room);
      MarkedKeeps(was, rec.key, rec.updatedAt, Some(PrintsOf(out.built, stale)), room);
    } else if out.ok && rec.Due() && rec.spans != {} && !(!resend && KnownIn(was, rec.key, rec.updatedAt)) {
      var span :| span in rec.spans;
      assert span in out.built;
      var stale := StaleIn(was, rec.key, resend, out.built);
      MarkedKeeps(was, rec.key, rec.updatedAt, None, room);
      MarkedKeeps(was, rec.key, rec.updatedAt, Some(PrintsOf(out.built, stale)), room);
    }
  }

  lemma {:induction false} StepAt(resend: bool, recs: seq<Record>, states: seq<State>, outs: seq<Outcome>, n: nat,
                                  room: set<Key>)
    requires Pass(resend, recs, states, outs) && n < |recs|
    requires states[0].Keys <= room && KeysOf(recs) <= room && |room| <= MAX_SESSIONS
    ensures states[n + 1].Keys <= room && OnlyChanges(recs[n].key, states[n], states[n + 1])
    ensures outs[n].ok && recs[n].Due() && recs[n].spans != {} && recs[n].updatedAt != 0 ==>
              KnownIn(states[n + 1], recs[n].key, recs[n].updatedAt)
  {
    if n > 0 {
      StepAt(resend, recs, states, outs, n - 1, room);
    }
    assert recs[n].key in KeysOf(recs);
    assert Exported(resend, recs[n], states[n], outs[n], states[n + 1]);
    StepKeeps(resend, recs[n], states[n], outs[n], states[n + 1], room);
  }

  /** What is on record of a session stays as it is while other sessions are exported. */
  lemma {:induction false} RecordStays(resend: bool, recs: seq<Record>, states: seq<State>, outs: seq<Outcome>,
                                       room: set<Key>, a: nat, b: nat, key: Key)
    requires Pass(resend, recs, states, outs) && a <= b <= |recs|
    requires states[0].Keys <= room && KeysOf(recs) <= room && |room| <= MAX_SESSIONS
    requires key in states[a] && forall k :: a <= k < b ==> recs[k].key != key
    ensures key in states[b] && states[b][key] == states[a][key]
  {
    if a < b {
      RecordStays(resend, recs, states, outs, room, a, b - 1, key);
      StepAt(resend, recs, states, outs, b - 1, room);
      StillThere(recs[b - 1].key, states[b - 1], states[b], key);
    }
  }

  lemma {:induction false} StillThere(other: Key, was: State, now: State, key: Key)
    requires OnlyChanges(other, was, now) && key != other && key in was
    ensures key in now && now[key] == was[key]
  {
  }

  /** Two passes over the same sessions, the second from where the first one left. */
  ghost predicate Again(resend: bool, recs: seq<Record>, states: seq<State>, outs: seq<Outcome>, states': seq<State>,
                        outs': seq<Outcome>)
  {
    && Pass(resend, recs, states, outs) && Pass(false, recs, states', outs') && states'[0] == states[|recs|]
    && OwnKeys(recs) && |states[0].Keys + KeysOf(recs)| <= MAX_SESSIONS
  }

  lemma {:induction false} KnownAgain(resend: bool, recs: seq<Record>, states: seq<State>, outs: seq<Outcome>,
                                      states': seq<State>, outs': seq<Outcome>, i: nat)
    requires Again(resend, recs, states, outs, states', outs') && i < |recs|
    requires outs[i].ok && recs[i].Due() && recs[i].spans != {} && recs[i].updatedAt != 0
    ensures KnownIn(states'[i], recs[i].key, recs[i].updatedAt)
  {
    var room, rec := states[0].Keys + KeysOf(recs), recs[i];
    StepAt(resend, recs, states, outs, i, room);
    StepAt(resend, recs, states, outs, |recs| - 1, room);
    RecordStays(resend, recs, states, outs, room, i + 1, |recs|, rec.key);
    RecordStays(false, recs, states', outs', room, 0, i, rec.key);
  }

  /** A second pass posts nothing of a session that did not fail and has a version, as long as the state has
      room for all sessions. */
  lemma {:induction false} NotSentAgain(resend: bool, recs: seq<Record>, states: seq<State>, outs: seq<Outcome>,
                                        states': seq<State>, outs': seq<Outcome>, i: nat)
    requires Again(resend, recs, states, outs, states', outs') && i < |recs|
    requires outs[i].ok && recs[i].updatedAt != 0
    ensures outs'[i].log == [] && outs'[i].ok
  {
    assert Exported(false, recs[i], states'[i], outs'[i], states'[i + 1]);
    if recs[i].Due() && recs[i].spans != {} {
      KnownAgain(resend, recs, states, outs, states', outs', i);
    } else if recs[i].spans == {} {
      NothingToSend(recs[i], states'[i], outs'[i], states'[i + 1]);
    }
  }

  lemma {:induction false} NothingToSend(rec: Record, was: State, out: Outcome, now: State)
    requires Exported(false, rec, was, out, now) && rec.spans == {}
    ensures out.log == [] && out.ok
  {
    if rec.Due() && !KnownIn(was, rec.key, rec.updatedAt) {
      NoSpans(out.built);
      assert out.built == [] && StaleIn(was, rec.key, false, out.built) == [];
      PostedIsFirst([], out.log);
    }
  }

  lemma {:induction false} NoSpans(built: seq<Span>)
    ensures built == [] || exists span :: span in built
  {
    if built != [] {
      assert built[0] in built;
    }
  }

  /** So if nothing failed, and every session has a version, it posts nothing at all. */
  lemma {:induction false} SecondPassIsQuiet(resend: bool, recs: seq<Record>, states: seq<State>, outs: seq<Outcome>,
                                             states': seq<State>, outs': seq<Outcome>)
    requires Again(resend, recs, states, outs, states', outs')
    requires forall i :: 0 <= i < |recs| ==> outs[i].ok && recs[i].updatedAt != 0
    ensures LogsOf(outs') == []
  {
    forall i | 0 <= i < |recs| ensures outs'[i].log == [] {
      NotSentAgain(resend, recs, states, outs, states', outs', i);
    }
    NoLogs(outs');
  }

  lemma {:induction false} NoLogs(outs: seq<Outcome>)
    requires forall i :: 0 <= i < |outs| ==> outs[i].log == []
    ensures LogsOf(outs) == []
  {
    if outs != [] {
      NoLogs(outs[..|outs| - 1]);
    }
  }

  // A session that has grown

  /** This session of a pass was rendered and every request of it accepted. */
  ghost predicate Delivered(resend: bool, rec: Record, was: State, out: Outcome)
  {
    rec.Due() && (resend || !KnownIn(was, rec.key, rec.updatedAt)) && out.ok && out.built != []
  }

  /** Every round of what was built is on record as it was built. */
  ghost predicate OnRecord(session: Session, built: seq<Span>)
  {
    forall r :: r in SortedRounds(built) ==> r in session.rounds && session.rounds[r] == OfRound(built, r)
  }

  /** Also those that were on record already and were not sent this time. */
  lemma {:induction false} AllOnRecord(resend: bool, rec: Record, was: State, out: Outcome, now: State)
    requires Exported(resend, rec, was, out, now) && Delivered(resend, rec, was, out)
    requires |was.Keys + {rec.key}| <= MAX_SESSIONS && |SortedRounds(out.built)| <= MAX_ROUNDS
    ensures rec.key in now && OnRecord(now[rec.key], out.built)
  {
    var stale := StaleIn(was, rec.key, resend, out.built);
    StaleRounds(SessionOf(was, rec.key).rounds, resend, out.built, SortedRounds(out.built));
    MarkedIs(was, rec.key, rec.updatedAt, None);
    FewPrints(SessionOf(was, rec.key).rounds, resend, out.built, SortedRounds(out.built));
    forall r | r in SortedRounds(out.built)
      ensures rec.key in now && r in now[rec.key].rounds && now[rec.key].rounds[r] == OfRound(out.built, r)
    {
      RoundsMarked(was, rec.key, rec.updatedAt, PrintsOf(out.built, stale), r);
    }
    assert SortedRounds(out.built) != [];
  }

  lemma {:induction false} FewPrints(known: map<int, Print>, resend: bool, built: seq<Span>, rounds: seq<int>)
    ensures |PrintsOf(built, Stale(known, resend, built, rounds))| <= |rounds|
  {
    var stale := Stale(known, resend, built, rounds);
    StaleShorter(known, resend, built, rounds);
    Distinct(stale);
    assert PrintsOf(built, stale).Keys == set r | r in stale;
    assert |PrintsOf(built, stale)| == |PrintsOf(built, stale).Keys|;
  }

  lemma {:induction false} StaleShorter(known: map<int, Print>, resend: bool, built: seq<Span>, rounds: seq<int>)
    ensures |Stale(known, resend, built, rounds)| <= |rounds|
  {
    if rounds != [] {
      StaleShorter(known, resend, built, rounds[1..]);
    }
  }

  lemma {:induction false} Distinct(rounds: seq<int>)
    ensures |set r | r in rounds| <= |rounds|
  {
    if rounds != [] {
      Distinct(rounds[1..]);
      assert rounds == [rounds[0]] + rounds[1..];
      assert (set r | r in rounds) == (set r | r in rounds[1..]) + {rounds[0]};
    }
  }

  /** A round of what was built before comes out otherwise now. */
  ghost predicate Changed(before: seq<Span>, now: seq<Span>, round: int)
  {
    round in SortedRounds(before) && OfRound(now, round) != OfRound(before, round)
  }

  /** The next time, what is posted is of rounds that have changed, and once all of it is accepted it is all of
      those. */
  lemma {:induction false} OnlyChangesPosted(rec: Record, was: State, out: Outcome, now: State, before: seq<Span>)
    requires Exported(false, rec, was, out, now) && rec.key in was && OnRecord(was[rec.key], before)
    ensures forall span :: span in Posted(out.log) && span.round in SortedRounds(before) ==>
                             Changed(before, out.built, span.round)
    ensures Delivered(false, rec, was, out) ==>
              forall span :: span in out.built && Changed(before, out.built, span.round) ==> span in Posted(out.log)
  {
    if rec.Due() && !KnownIn(was, rec.key, rec.updatedAt) {
      var stale := StaleIn(was, rec.key, false, out.built);
      StaleRounds(was[rec.key].rounds, false, out.built, SortedRounds(out.built));
      PostedIsFirst(FromRounds(out.built, stale), out.log);
      InRounds(out.built, stale);
      RoundsSorted(out.built);
    }
  }

  /** One pass and the next, over sessions that may have grown in between and others that have come or gone: of
      the rounds delivered by the first the second posts exactly those that have changed. */
  lemma {:induction false} OnlyChangesSent(resend: bool, recs: seq<Record>, states: seq<State>, outs: seq<Outcome>,
                                           recs': seq<Record>, states': seq<State>, outs': seq<Outcome>, i: nat,
                                           j: nat)
    requires Pass(resend, recs, states, outs) && Pass(false, recs', states', outs') && states'[0] == states[|recs|]
    requires OwnKeys(recs) && OwnKeys(recs') && |states[0].Keys + KeysOf(recs) + KeysOf(recs')| <= MAX_SESSIONS
    requires i < |recs| && j < |recs'| && recs'[j].key == recs[i].key
    requires Delivered(resend, recs[i], states[i], outs[i]) && |SortedRounds(outs[i].built)| <= MAX_ROUNDS
    ensures var before, after := outs[i].built, outs'[j].built;
      && (forall span :: span in Posted(outs'[j].log) && span.round in SortedRounds(before) ==>
                           Changed(before, after, span.round))
      && (Delivered(false, recs'[j], states'[j], outs'[j]) ==>
            forall span :: span in after && Changed(before, after, span.round) ==> span in Posted(outs'[j].log))
  {
    var room, key := states[0].Keys + KeysOf(recs) + KeysOf(recs'), recs[i].key;
    StepAt(resend, recs, states, outs, i, room);
    StateFits(resend, recs, states, outs, i, room);
    AllOnRecord(resend, recs[i], states[i], outs[i], states[i + 1]);
    RecordStays(resend, recs, states, outs, room, i + 1, |recs|, key);
    StateFits(resend, recs, states, outs, |recs|, room);
    RecordStays(false, recs', states', outs', room, 0, j, key);
    OnlyChangesPosted(recs'[j], states'[j], outs'[j], states'[j + 1], outs[i].built);
  }

  lemma {:induction false} StateFits(resend: bool, recs: seq<Record>, states: seq<State>, outs: seq<Outcome>, n: nat,
                                     room: set<Key>)
    requires Pass(resend, recs, states, outs) && n <= |recs|
    requires states[0].Keys <= room && KeysOf(recs) <= room && |room| <= MAX_SESSIONS
    ensures states[n].Keys <= room
    ensures n < |recs| ==> |states[n].Keys + {recs[n].key}| <= MAX_SESSIONS
  {
    if n > 0 {
      StepAt(resend, recs, states, outs, n - 1, room);
    }
    if n < |recs| {
      assert recs[n].key in KeysOf(recs);
      Fits(states[n].Keys + {recs[n].key}, room);
    }
  }
}
