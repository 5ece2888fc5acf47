/** Looking for the last record of a transcript from its end, a window at a time. */
module TailScan {
  import opened ByteStrings
  import opened Lines
  import opened Options

  /** What a line yields to the search: a uuid, a time; None when it carries none. */
  type Probe = Bytes -> Option<nat>

  const TAIL_WINDOWS: seq<nat> := [64 * 1024, 512 * 1024, 4 * 1024 * 1024]

  /** The last piece that yields something: what a scan of every line would remember. */
  function LastOf(ps: seq<Bytes>, probe: Probe): Option<nat>
  {
    if ps == [] then None
    else
      var last := probe(ps[|ps| - 1]);
      if last.Some? then last else LastOf(ps[..|ps| - 1], probe)
  }

  /** The line it comes from, after which none yields anything; or there is no such line. */
  lemma {:induction false} LastOfIs(ps: seq<Bytes>, probe: Probe) returns (k: int)
    ensures LastOf(ps, probe).None? ==> forall i :: 0 <= i < |ps| ==> probe(ps[i]).None?
    ensures LastOf(ps, probe).Some? ==>
              && 0 <= k < |ps| && LastOf(ps, probe) == probe(ps[k])
              && forall i :: k < i < |ps| ==> probe(ps[i]).None?
  {
    k := |ps| - 1;
    if ps != [] && probe(ps[k]).None? {
      k := LastOfIs(ps[..k], probe);
    }
  }

  lemma {:induction false} LastOfConcat(a: seq<Bytes>, b: seq<Bytes>, probe: Probe)
    ensures LastOf(a + b, probe) == if LastOf(b, probe).Some? then LastOf(b, probe) else LastOf(a, probe)
  {
    if b == [] {
      assert a + b == a;
    } else {
      assert (a + b)[..|a + b| - 1] == a + b[..|b| - 1];
      LastOfConcat(a, b[..|b| - 1], probe);
    }
  }

  /** Where the whole lines of content[from..] begin: a window that does not begin at the start of
      the file drops everything to its first newline, or all when it has none. */
  function LineStart(content: Bytes, from: nat): (r: nat)
    requires from <= |content|
    ensures from <= r <= |content|
    ensures 0 < r < |content| ==> content[r - 1] == NEWLINE
    ensures from > 0 ==> forall k :: from <= k < r - 1 ==> content[k] != NEWLINE
  {
    if from == 0 then 0
    else
      var rest := content[from..];
      var cut := LineEnd(rest);
      assert cut < |rest| ==> content[from + cut] == rest[cut];
      assert forall k :: from <= k < from + cut ==> content[k] == rest[k - from];
      if cut == |rest| then |content| else from + cut + 1
  }

  /** What the last `window` bytes yield. */
  function InWindow(content: Bytes, window: nat, probe: Probe): Option<nat>
    requires window <= |content|
  {
    LastOf(Pieces(content[LineStart(content, |content| - window)..]), probe)
  }

  lemma {:induction false} NothingInEmpty(probe: Probe)
    requires probe([]).None?
    ensures LastOf(Pieces([]), probe).None?
  {
    var ps := Pieces([]);
    assert ps == [[]] && LastOf(ps[..0], probe).None?;
  }

  /** Bytes read before a line boundary only matter when what follows yields nothing. */
  lemma {:induction false} SeamBefore(content: Bytes, q: nat, p: nat, probe: Probe)
    requires q <= p <= |content| && (q < p ==> content[p - 1] == NEWLINE)
    requires LastOf(Pieces(content[p..]), probe).Some?
    ensures LastOf(Pieces(content[q..]), probe) == LastOf(Pieces(content[p..]), probe)
  {
    if q < p {
      assert content[q..] == content[q..p - 1] + [NEWLINE] + content[p..];
      PiecesAtSeam(content[q..p - 1], content[p..]);
      LastOfConcat(Pieces(content[q..p - 1]), Pieces(content[p..]), probe);
    }
  }

  /** A larger window yields what a smaller one did. */
  lemma {:induction false} LargerWindow(content: Bytes, small: nat, large: nat, probe: Probe)
    requires small <= large <= |content|
    requires probe([]).None?
    requires InWindow(content, small, probe).Some?
    ensures InWindow(content, large, probe) == InWindow(content, small, probe)
  {
    var s, l := |content| - small, |content| - large;
    var p, q := LineStart(content, s), LineStart(content, l);
    NothingInEmpty(probe);
    assert content[|content|..] == [];
    if s > 0 {
      assert content[p - 1] == NEWLINE;
      SeamBefore(content, q, p, probe);
    }
  }

  /** A window never yields anything but what the scan of every line would: its lines are the last
      lines of the file, whole. */
  lemma {:induction false} WindowAgrees(content: Bytes, window: nat, probe: Probe)
    requires window <= |content|
    requires probe([]).None?
    ensures InWindow(content, window, probe).Some? ==>
              InWindow(content, window, probe) == LastOf(Pieces(content), probe)
    ensures window == |content| ==> InWindow(content, window, probe) == LastOf(Pieces(content), probe)
  {
    assert content[0..] == content;
    if InWindow(content, window, probe).Some? {
      LargerWindow(content, window, |content|, probe);
    }
  }

  /** Scans the lines of a buffer backwards. */
  method ScanBack(buf: Bytes, probe: Probe) returns (found: Option<nat>)
    ensures found == LastOf(Pieces(buf), probe)
  {
    var lines := Pieces(buf);
    var i := |lines|;
    assert lines[..i] == lines;
    while i > 0
      invariant 0 <= i <= |lines| && LastOf(lines, probe) == LastOf(lines[..i], probe)
    {
      i := i - 1;
      found := probe(lines[i]);
      if found.Some? {
        return;
      }
      assert lines[..i + 1][..i] == lines[..i];
    }
    assert LastOf(lines[..0], probe) == None;
    found := None;
  }

  /** The whole lines of the last `window` bytes, from the end. */
  method ScanWindow(content: Bytes, window: nat, probe: Probe) returns (found: Option<nat>)
    requires window <= |content|
    ensures found == InWindow(content, window, probe)
  {
    found := ScanBack(content[LineStart(content, |content| - window)..], probe);
  }

  /** claudeLastMessageUUID: windows eight times larger each, to the whole file. */
  method LastInFile(content: Bytes, firstWindow: nat, probe: Probe) returns (found: Option<nat>)
    requires firstWindow > 0
    requires probe([]).None?
    ensures found == LastOf(Pieces(content), probe)
  {
    if |content| == 0 {
      NothingInEmpty(probe);
      return None;
    }
    var window := firstWindow;
    while true
      invariant window > 0
      decreases |content| - window
    {
      if window > |content| {
        window := |content|;
      }
      found := ScanWindow(content, window, probe);
      if found.Some? || window == |content| {
        WindowAgrees(content, window, probe);
        return;
      }
      window := window * 8;
    }
  }

  /** What the whole lines within the largest window yield last. */
  function InTail(content: Bytes, probe: Probe): Option<nat>
  {
    InWindow(content, if |content| <= TAIL_WINDOWS[2] then |content| else TAIL_WINDOWS[2], probe)
  }

  /** That is what the whole file yields last, or nothing; nothing only when no whole line that yields
      something is within the largest window. */
  lemma {:induction false} TailAgrees(content: Bytes, probe: Probe)
    requires probe([]).None?
    ensures InTail(content, probe).Some? ==> InTail(content, probe) == LastOf(Pieces(content), probe)
    ensures |content| <= TAIL_WINDOWS[2] ==> InTail(content, probe) == LastOf(Pieces(content), probe)
  {
    WindowAgrees(content, if |content| <= TAIL_WINDOWS[2] then |content| else TAIL_WINDOWS[2], probe);
  }

  /** The lines from p on yield something. */
  predicate YieldsFrom(content: Bytes, p: nat, probe: Probe)
    requires p <= |content|
  {
    LastOf(Pieces(content[p..]), probe).Some?
  }

  /** It finds something exactly when some line that yields something begins in the largest window, after a
      newline that is in it too, or in a file that is no longer. */
  lemma {:induction false} TailFinds(content: Bytes, probe: Probe)
    requires probe([]).None? && |content| > 4 * 1024 * 1024
    ensures InTail(content, probe).Some?
       <==> exists p: nat ::
              && |content| - 4 * 1024 * 1024 < p <= |content| && content[p - 1] == 0x0a
              && YieldsFrom(content, p, probe)
  {
    var from := |content| - 4 * 1024 * 1024;
    InTailIs(content, from, probe);
    if YieldsFrom(content, LineStart(content, from), probe) {
      WindowBegins(content, from, probe);
    } else if p: nat :| from < p <= |content| && content[p - 1] == 0x0a && YieldsFrom(content, p, probe) {
      YieldsEarlier(content, from, p, probe);
    }
  }

  lemma {:induction false} InTailIs(content: Bytes, from: nat, probe: Probe)
    requires from == |content| - 4 * 1024 * 1024
    ensures InTail(content, probe).Some? <==> YieldsFrom(content, LineStart(content, from), probe)
  {
  }

  lemma {:induction false} YieldsEarlier(content: Bytes, from: nat, p: nat, probe: Probe)
    requires 0 < from < p <= |content| && content[p - 1] == 0x0a && YieldsFrom(content, p, probe)
    ensures YieldsFrom(content, LineStart(content, from), probe)
  {
    FirstLineStart(content, from, p);
    SeamBefore(content, LineStart(content, from), p, probe);
  }

  lemma {:induction false} WindowBegins(content: Bytes, from: nat, probe: Probe)
    requires 0 < from <= |content| && probe([]).None?
    ensures var p := LineStart(content, from);
      YieldsFrom(content, p, probe) ==> from < p && content[p - 1] == 0x0a
  {
    NothingInEmpty(probe);
    assert content[|content|..] == [];
  }

  lemma {:induction false} FirstLineStart(content: Bytes, from: nat, p: nat)
    requires 0 < from < p <= |content| && content[p - 1] == 0x0a
    ensures LineStart(content, from) <= p
  {
  }

  /** lastRecordTime: three windows and no more. */
  method LastRecordTime(content: Bytes, probe: Probe) returns (found: Option<nat>)
    requires probe([]).None?
    ensures found == InTail(content, probe)
  {
    if |content| == 0 {
      NothingInEmpty(probe);
      assert content[LineStart(content, 0)..] == [];
      return None;
    }
    found := None;
    for i := 0 to |TAIL_WINDOWS|
      invariant found.None?
      invariant i == |TAIL_WINDOWS| ==> InTail(content, probe).None?
    {
      var window := if TAIL_WINDOWS[i] > |content| then |content| else TAIL_WINDOWS[i];
      found := ScanWindow(content, window, probe);
      WindowAnswers(content, window, probe);
      if found.Some? || window >= |content| {
        return;
      }
    }
  }

  /** What a window finds, the largest finds too. */
  lemma {:induction false} WindowAnswers(content: Bytes, window: nat, probe: Probe)
    requires probe([]).None? && window <= |content| && window <= TAIL_WINDOWS[2]
    ensures InWindow(content, window, probe).Some? || window == |content| || window == TAIL_WINDOWS[2] ==>
              InTail(content, probe) == InWindow(content, window, probe)
  {
    var largest := if |content| <= TAIL_WINDOWS[2] then |content| else TAIL_WINDOWS[2];
    if InWindow(content, window, probe).Some? {
      LargerWindow(content, window, largest, probe);
    }
  }
}
