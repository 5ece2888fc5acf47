/** Counting a transcript that its writer is still appending to, from where the last count ended. */
module CountStable {
  import opened ByteStrings
  import opened Lines
  import opened LineScan
  import opened Options

  const PRINT_WINDOW := 256

  /** What a source counts as a message. A line-local rule looks at one line at a time and can
      resume from an offset; any other rule is asked about the whole file every time. */
  datatype Counter = LineLocal(counts: Bytes -> bool, clean: Bytes -> Bytes) | Whole(total: Bytes -> nat)
  {
    ghost predicate Valid() {
      LineLocal? ==> clean([]) == []
    }
  }

  function CountIn(lines: seq<Bytes>, counts: Bytes -> bool): nat
  {
    if lines == [] then 0 else (if counts(lines[0]) then 1 else 0) + CountIn(lines[1..], counts)
  }

  /** The count of a file read from one end to the other. */
  function FullCount(counter: Counter, b: Bytes): nat
  {
    match counter
    case LineLocal(counts, clean) => CountIn(LinesOf(b, clean), counts)
    case Whole(total) => total(b)
  }

  /** Some line is longer than any scan accepts: scans give up there. */
  ghost predicate HasLong(b: Bytes)
  {
    exists at: int :: OverCap(b, at)
  }

  /** Too long is a line of more than 256 MiB; a shorter file has none. */
  lemma {:induction false} LongIs(b: Bytes)
    ensures HasLong(b) ==> |b| > 0x1000_0000
    ensures forall at: int ::
              OverCap(b, at) <==>
                0 <= at && at + 0x1000_0000 < |b| && forall k :: at <= k <= at + 0x1000_0000 ==> b[k] != 0x0a
  {
  }

  /** A fingerprint, as the bytes it is made from; a file that cannot be read has none. */
  datatype Print = NoPrint | PrintOf(bytes: Bytes)

  function TailPrint(b: Bytes, off: nat): Print
  {
    if off == 0 || off > |b| then NoPrint
    else PrintOf(b[if off < PRINT_WINDOW then 0 else off - PRINT_WINDOW..off])
  }

  datatype CountEntry = CountEntry(mod: int, size: nat, n: nat, tail: Print)

  /** A banked count describes the file's first `size` bytes. */
  ghost predicate Good(e: CountEntry, counter: Counter, content: Bytes)
  {
    && e.size <= |content|
    && (e.n == FullCount(counter, content[..e.size]) || HasLong(content[..e.size]))
  }

  /** What a stat tells of a file. */
  datatype FileStat = FileStat(present: bool, size: nat, mod: int)

  /** A transcript and whoever appends to it, and how it stood each time that the writer had run. */
  class Transcript {
    var content: Bytes
    var mod: int
    var present: bool
    ghost var past: seq<FileStat>

    function Now(): FileStat
      reads this
    {
      FileStat(present, |content|, mod)
    }

    /** The writer runs for a while: it appends, it may touch the time, it may delete the file. */
    method Write()
      modifies this
      ensures old(content) <= content && (present ==> old(present))
      ensures past == old(past) + [Now()]
    {
      var more: Bytes, time: int, kept: bool := *, *, *;
      content, mod, present := content + more, time, present && kept;
      past := past + [Now()];
    }

    /** A stat, of the file as the writer has left it. */
    method Stat() returns (stat: FileStat)
      modifies this
      ensures old(content) <= content && (present ==> old(present))
      ensures stat == Now() && past == old(past) + [stat]
    {
      Write();
      stat := FileStat(present, |content|, mod);
    }

    /** newlineBefore, as the writer lets it see the file. */
    method NewlineBefore(off: nat) returns (yes: bool)
      modifies this
      ensures old(content) <= content && (present ==> old(present)) && old(past) <= past
      ensures yes ==> off == 0 || (off <= |content| && content[off - 1] == NEWLINE)
      ensures present && off > 0 ==> (yes <==> off <= |content| && content[off - 1] == NEWLINE)
    {
      Write();
      yes := off == 0 || (present && off <= |content| && content[off - 1] == NEWLINE);
    }

    method Print(off: nat) returns (mark: Print)
      modifies this
      ensures old(content) <= content && (present ==> old(present)) && old(past) <= past
      ensures mark.NoPrint? || mark == TailPrint(content, off)
      ensures present ==> mark == TailPrint(content, off)
    {
      Write();
      mark := if present then TailPrint(content, off) else NoPrint;
    }

    /** The counter's answer for [from, EOF), which means nothing when the writer got in between. */
    method CountFile(counter: Counter, from: nat, bufferSize: nat) returns (n: nat, resumed: bool)
      requires counter.Valid() && bufferSize > 0 && from <= |content|
      modifies this
      ensures old(content) <= content && (present ==> old(present)) && old(past) <= past
      ensures resumed == counter.LineLocal?
      ensures present && content == old(content) && counter.LineLocal? ==>
                n == CountIn(LinesOf(content[from..], counter.clean), counter.counts) || HasLong(content)
      ensures present && content == old(content) && counter.Whole? ==> n == counter.total(content)
    {
      var before := content;
      Write();
      resumed := counter.LineLocal?;
      if !present || content != before {
        n := *;
      } else if counter.LineLocal? {
        n := CountLines(before, from, bufferSize, counter.counts, counter.clean);
      } else {
        n := counter.total(before);
      }
    }
  }

  method CountLines(data: Bytes, from: nat, bufferSize: nat, counts: Bytes -> bool, clean: Bytes -> Bytes)
    returns (n: nat)
    requires from <= |data| && bufferSize > 0 && clean([]) == []
    ensures n == CountIn(LinesOf(data[from..], clean), counts) || HasLong(data)
  {
    var lines, cut := EachLine(data, from, bufferSize, clean, _ => true);
    n := 0;
    for i := 0 to |lines|
      invariant n + CountIn(lines[i..], counts) == CountIn(lines, counts)
    {
      assert lines[i..][1..] == lines[i + 1..];
      if counts(lines[i]) {
        n := n + 1;
      }
    }
  }

  /** The number of a file's pieces between newlines that are not blank and that the rule accepts. */
  lemma {:induction false} CountInIs(lines: seq<Bytes>, counts: Bytes -> bool, accepted: set<nat>)
    requires forall i: nat :: i in accepted <==> i < |lines| && counts(lines[i])
    ensures CountIn(lines, counts) == |accepted|
    decreases |lines|
  {
    var n := |lines| - 1;
    if lines == [] {
      assert accepted == {};
    } else {
      CountInIs(lines[..n], counts, accepted - {n});
      CountInConcat(lines[..n], [lines[n]], counts);
      CountInOne(lines[n], counts);
      assert lines == lines[..n] + [lines[n]];
      assert |accepted| == |accepted - {n}| + if n in accepted then 1 else 0;
    }
  }

  lemma {:induction false} CountInConcat(a: seq<Bytes>, b: seq<Bytes>, counts: Bytes -> bool)
    ensures CountIn(a + b, counts) == CountIn(a, counts) + CountIn(b, counts)
  {
    if a == [] {
      assert a + b == b;
    } else {
      assert (a + b)[1..] == a[1..] + b;
      CountInConcat(a[1..], b, counts);
    }
  }

  /** For a line-local rule, a count cut at a newline boundary adds up. */
  lemma {:induction false} CountAtSeam(counter: Counter, b: Bytes, at: nat)
    requires counter.LineLocal? && counter.Valid()
    requires at <= |b| && (at > 0 ==> b[at - 1] == NEWLINE)
    ensures FullCount(counter, b)
         == FullCount(counter, b[..at]) + CountIn(LinesOf(b[at..], counter.clean), counter.counts)
  {
    LinesAtSeam(b, at, counter.clean);
    CountInConcat(LinesOf(b[..at], counter.clean), LinesOf(b[at..], counter.clean), counter.counts);
  }

  lemma {:induction false} LongGrows(b: Bytes, longer: Bytes)
    requires b <= longer && HasLong(b)
    ensures HasLong(longer)
  {
    var at: int :| OverCap(b, at);
    assert OverCap(longer, at);
  }

  /** A banked count stays true of a file that is only appended to. */
  lemma {:induction false} GoodStays(e: CountEntry, counter: Counter, content: Bytes, later: Bytes)
    requires Good(e, counter, content) && content <= later
    ensures Good(e, counter, later)
  {
    assert content[..e.size] == later[..e.size];
  }

  /** What the resumed count of a line-local rule is worth, whoever wrote the file: it is the full
      count exactly when the base still is the count of the bytes it stands for. */
  lemma {:induction false} ResumeExact(counter: Counter, content: Bytes, from: nat, base: nat)
    requires counter.LineLocal? && counter.Valid()
    requires from <= |content| && (from > 0 ==> content[from - 1] == NEWLINE)
    ensures base + CountIn(LinesOf(content[from..], counter.clean), counter.counts) == FullCount(counter, content)
       <==> base == FullCount(counter, content[..from])
  {
    CountAtSeam(counter, content, from);
  }

  /** What a scan of this content from this place counts, the base added to what it resumed. */
  function ScanCount(counter: Counter, content: Bytes, from: nat, base: nat): nat
    requires from <= |content|
  {
    match counter
    case LineLocal(counts, clean) => CountIn(LinesOf(content[from..], clean), counts) + if from > 0 then base else 0
    case Whole(total) => total(content)
  }

  /** A scan that nothing overlapped has counted the file: the base is the count of what it stands for, and
      the rest begins on a line of its own. */
  lemma {:induction false} QuietScan(counter: Counter, content: Bytes, from: nat, base: nat)
    requires counter.Valid() && from <= |content|
    requires from > 0 ==>
               && content[from - 1] == NEWLINE
               && (base == FullCount(counter, content[..from]) || HasLong(content[..from]))
    ensures ScanCount(counter, content, from, base) == FullCount(counter, content) || HasLong(content)
  {
    if counter.LineLocal? {
      if from == 0 {
        assert content[0..] == content;
      } else {
        CountAtSeam(counter, content, from);
        if HasLong(content[..from]) {
          LongGrows(content[..from], content);
        }
      }
    }
  }

  /** What went on in between is among what went on. */
  lemma {:induction false} SeenBetween(first: seq<FileStat>, later: seq<FileStat>, stat: FileStat, last: seq<FileStat>)
    requires first <= later && later + [stat] <= last
    ensures stat in last[|first|..]
  {
    assert last[|first|..][|later| - |first|] == stat;
  }

  /** Counts one transcript while its writer runs, resuming from the entry banked before. An entry comes back
      exactly when a stat after the scan tells what the one before it did; its count is the full count of the
      file's first `size` bytes, however the scan and the writer interleaved. */
  method CountOne(t: Transcript, counter: Counter, prev: Option<CountEntry>, bufferSize: nat)
    returns (banked: Option<CountEntry>, ghost post: FileStat)
    requires counter.Valid() && bufferSize > 0
    requires prev.Some? ==> Good(prev.value, counter, t.content)
    modifies t
    ensures old(t.content) <= t.content && old(t.past) <= t.past
    ensures banked.Some? ==> Good(banked.value, counter, t.content)
    ensures banked.Some? ==> banked.value.size == |old(t.content)| && banked.value.mod == old(t.mod)
    ensures banked.Some? && t.present ==> banked.value.tail == TailPrint(old(t.content), |old(t.content)|)
    ensures old(t.present) ==> post in t.past[|old(t.past)|..]
    ensures banked.Some? <==> old(t.present) && post == old(t.Now())
  {
    post := t.Now();
    if !t.present {
      return None, post;
    }
    var preMod, preSize := t.mod, |t.content|;
    ghost var seen := t.content;
    var n := CountAll(t, counter, prev, preSize, bufferSize);
    ghost var after, soFar := t.content, t.past;
    var stat := t.Stat();
    post := stat;
    if !stat.present || stat.size != preSize || stat.mod != preMod {
      SeenBetween(old(t.past), soFar, stat, t.past);
      return None, post;
    }
    assert t.content == after == seen;
    var tail := t.Print(preSize);
    banked := Some(CountEntry(preMod, preSize, n, tail));
    assert t.content[..preSize] == seen;
    SeenBetween(old(t.past), soFar, stat, t.past);
  }

  /** The number the scan comes to, the part it resumed included: the full count of a file that nothing was
      written to meanwhile. */
  method CountAll(t: Transcript, counter: Counter, prev: Option<CountEntry>, size: nat, bufferSize: nat)
    returns (n: nat)
    requires counter.Valid() && bufferSize > 0 && size <= |t.content|
    requires prev.Some? ==> Good(prev.value, counter, t.content)
    modifies t
    ensures old(t.content) <= t.content && (t.present ==> old(t.present)) && old(t.past) <= t.past
    ensures t.present && t.content == old(t.content) ==> n == FullCount(counter, t.content) || HasLong(t.content)
  {
    var from, base := ResumeAt(t, counter, prev, size);
    ghost var before := t.content;
    var resumed: bool;
    n, resumed := t.CountFile(counter, from, bufferSize);
    if from > 0 && resumed {
      n := n + base;
    }
    assert t.content == old(t.content) ==> t.content == before;
    QuietScan(counter, before, from, base);
  }

  /** Where a count may go on from, and what it has counted already: the end of the entry banked before, if the
      file has grown past it, a line begins there and the fingerprint is the same; else the beginning. */
  method ResumeAt(t: Transcript, counter: Counter, prev: Option<CountEntry>, size: nat) returns (from: nat, base: nat)
    requires prev.Some? ==> Good(prev.value, counter, t.content)
    requires size <= |t.content|
    modifies t
    ensures old(t.content) <= t.content && (t.present ==> old(t.present)) && old(t.past) <= t.past
    ensures from <= size && from <= |t.content|
    ensures from > 0 ==>
              && t.content[from - 1] == NEWLINE
              && (base == FullCount(counter, t.content[..from]) || HasLong(t.content[..from]))
    ensures t.present && size <= |old(t.content)| && prev.Some? ==>
              (from > 0 <==>
                && 0 < prev.value.size < size && old(t.content)[prev.value.size - 1] == NEWLINE
                && prev.value.tail == TailPrint(old(t.content), prev.value.size))
    ensures from > 0 ==> prev.Some? && from == prev.value.size && base == prev.value.n
  {
    from, base := 0, 0;
    if prev.Some? && size > prev.value.size {
      ghost var was := t.content;
      var boundary := t.NewlineBefore(prev.value.size);
      if boundary {
        var tail := t.Print(prev.value.size);
        if tail == prev.value.tail {
          from, base := prev.value.size, prev.value.n;
          assert t.content[..from] == was[..from];
        }
      }
    }
  }

  function Blanks(n: nat): Bytes
  {
    seq(n, _ => NEWLINE)
  }

  lemma {:induction false} BlankLines(n: nat, clean: Bytes -> Bytes)
    requires clean([]) == []
    ensures LinesOf(Blanks(n), clean) == []
  {
    if n > 0 {
      var b := Blanks(n);
      assert b[..0] == [] && b[1..] == Blanks(n - 1);
      LinesTakeOne(b, 0, clean);
      ShownOne(b[..0], clean);
      BlankLines(n - 1, clean);
    } else {
      ShownOne([], clean);
    }
  }

  lemma {:induction false} OneLineThenBlanks(c: Byte, n: nat, clean: Bytes -> Bytes)
    requires c != NEWLINE && clean([]) == [] && clean([c]) == [c]
    ensures LinesOf([c, NEWLINE] + Blanks(n), clean) == [[c]]
  {
    var b := [c, NEWLINE] + Blanks(n);
    assert b[..1] == [c] && b[2..] == Blanks(n);
    LinesTakeOne(b, 1, clean);
    ShownOne(b[..1], clean);
    BlankLines(n, clean);
  }

  /** Every test a resume from the end of `was` makes of the file it finds, `now`. */
  ghost predicate MayResume(was: Bytes, now: Bytes)
  {
    && |now| > |was|
    && (|was| > 0 ==> now[|was| - 1] == NEWLINE)
    && TailPrint(now, |was|) == TailPrint(was, |was|)
  }

  /** Within the window the fingerprint is the whole of what was counted. */
  lemma {:induction false} WindowSeesAll(was: Bytes, now: Bytes)
    requires MayResume(was, now) && |was| <= PRINT_WINDOW
    ensures was <= now
  {
    assert was[0..|was|] == was;
  }

  /** The resumed count, of what a file holds now from a count of what it held. */
  ghost predicate ResumesRight(counter: Counter, was: Bytes, now: Bytes)
    requires counter.LineLocal? && |was| <= |now|
  {
    FullCount(counter, was) + CountIn(LinesOf(now[|was|..], counter.clean), counter.counts) == FullCount(counter, now)
  }

  /** A one-byte line before as many blank lines as fill the fingerprint, in a file of n bytes. */
  function Padded(c: Byte, n: nat): Bytes
    requires n > PRINT_WINDOW
  {
    Blanks(n - PRINT_WINDOW - 1) + [c] + Blanks(PRINT_WINDOW)
  }

  /** A rule by which the line made of byte 109 alone is a message. */
  function OneByteMessages(): Counter
  {
    LineLocal(line => line == [109], line => line)
  }

  lemma {:induction false} PaddedSameTail(c: Byte, d: Byte, n: nat, more: Bytes)
    requires more != [] && n > PRINT_WINDOW
    ensures MayResume(Padded(c, n), Padded(d, n) + more)
  {
    var was, now := Padded(c, n), Padded(d, n) + more;
    assert was[n - PRINT_WINDOW..] == Blanks(PRINT_WINDOW);
    assert now[n - PRINT_WINDOW..n] == Blanks(PRINT_WINDOW);
  }

  lemma {:induction false} PaddedLines(c: Byte, n: nat, clean: Bytes -> Bytes)
    requires c != NEWLINE && n > PRINT_WINDOW && clean([]) == [] && clean([c]) == [c]
    ensures LinesOf(Padded(c, n), clean) == [[c]]
  {
    var before, rest := n - PRINT_WINDOW - 1, [c, NEWLINE] + Blanks(PRINT_WINDOW - 1);
    assert rest == [c] + Blanks(PRINT_WINDOW);
    assert Padded(c, n)[..before] == Blanks(before) && Padded(c, n)[before..] == rest;
    LinesAtSeam(Padded(c, n), before, clean);
    BlankLines(before, clean);
    OneLineThenBlanks(c, PRINT_WINDOW - 1, clean);
  }

  lemma {:induction false} PaddedCount(c: Byte, n: nat)
    requires c != NEWLINE && n > PRINT_WINDOW
    ensures FullCount(OneByteMessages(), Padded(c, n)) == if c == 109 then 1 else 0
  {
    PaddedLines(c, n, OneByteMessages().clean);
    CountInOne([c], OneByteMessages().counts);
    assert [c] == [109] <==> [c][0] == 109;
  }

  lemma {:induction false} CountInOne(line: Bytes, counts: Bytes -> bool)
    ensures CountIn([line], counts) == if counts(line) then 1 else 0
  {
    assert CountIn([line][1..], counts) == 0;
  }

  /** The fingerprint is a sample. A file of any size past the window can be rewritten before its last 256
      bytes and pass every test a resume makes, and the resumed count is wrong: here 1 + 1 for one message. */
  lemma {:induction false} RewriteFoolsResume(n: nat) returns (was: Bytes, now: Bytes)
    requires n > PRINT_WINDOW
    ensures |was| == n && MayResume(was, now) && !ResumesRight(OneByteMessages(), was, now)
    ensures FullCount(OneByteMessages(), was) == 1 && FullCount(OneByteMessages(), now) == 1
  {
    var counter, more := OneByteMessages(), [109, NEWLINE];
    was, now := Padded(109, n), Padded(120, n) + more;
    PaddedSameTail(109, 120, n, more);
    PaddedCount(109, n);
    PaddedCount(120, n);
    assert more == [109, NEWLINE] + Blanks(0);
    OneLineThenBlanks(109, 0, counter.clean);
    CountInOne([109], counter.counts);
    assert now[..n] == Padded(120, n) && now[n..] == more;
    CountAtSeam(counter, now, n);
  }

  /** A count resumed at this size is right whatever was done to the file, by every rule. */
  ghost predicate SafeSize(n: nat)
  {
    forall counter: Counter, was: Bytes, now: Bytes ::
      counter.LineLocal? && counter.Valid() && |was| == n && MayResume(was, now) ==> ResumesRight(counter, was, now)
  }

  /** That holds of exactly the sizes that the fingerprint covers. */
  lemma {:induction false} SafeExactlyWithinWindow(n: nat)
    ensures SafeSize(n) <==> n <= 256
  {
    if n <= PRINT_WINDOW {
      forall counter: Counter, was: Bytes, now: Bytes |
        counter.LineLocal? && counter.Valid() && |was| == n && MayResume(was, now)
        ensures ResumesRight(counter, was, now)
      {
        WindowSeesAll(was, now);
        assert was == now[..n];
        ResumeExact(counter, now, n, FullCount(counter, was));
      }
    } else {
      var was, now := RewriteFoolsResume(n);
      assert OneByteMessages().Valid();
    }
  }
}
