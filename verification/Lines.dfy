/** Byte strings cut at newlines: the reference every line scan of this project is proved against. */
module Lines {
  import opened ByteStrings
  import opened Collections

  /** The first newline at or after the start, or the length when there is none. */
  function LineEnd(b: Bytes): (i: nat)
    ensures i <= |b|
    ensures NoNewline(b, i)
    ensures i < |b| ==> b[i] == NEWLINE
  {
    if b == [] || b[0] == NEWLINE then 0 else 1 + LineEnd(b[1..])
  }

  predicate NoNewline(b: Bytes, n: nat)
    requires n <= |b|
  {
    forall k :: 0 <= k < n ==> b[k] != NEWLINE
  }

  /** What splitting on the newline yields: always one piece more than there are newlines. */
  function Pieces(b: Bytes): (ps: seq<Bytes>)
    ensures ps != []
    decreases |b|
  {
    var i := LineEnd(b);
    if i == |b| then [b] else [b[..i]] + Pieces(b[i + 1..])
  }

  function Unsplit(ps: seq<Bytes>): Bytes
  {
    if ps == [] then [] else if |ps| == 1 then ps[0] else ps[0] + [NEWLINE] + Unsplit(ps[1..])
  }

  /** The pieces have no newline in them, and with newlines between them they are the text again. */
  lemma {:induction false} PiecesAre(b: Bytes)
    ensures Unsplit(Pieces(b)) == b
    ensures forall i, k :: 0 <= i < |Pieces(b)| && 0 <= k < |Pieces(b)[i]| ==> Pieces(b)[i][k] != 0x0a
    decreases |b|
  {
    var i := LineEnd(b);
    if i < |b| {
      PiecesAre(b[i + 1..]);
      assert Pieces(b)[1..] == Pieces(b[i + 1..]);
      assert b == b[..i] + [NEWLINE] + b[i + 1..];
    }
  }

  /** The pieces a reader is shown: cleaned (white space trimmed), and only those not blank. */
  function Shown(ps: seq<Bytes>, clean: Bytes -> Bytes): seq<Bytes>
  {
    if ps == [] then []
    else
      var line := clean(ps[0]);
      (if line == [] then [] else [line]) + Shown(ps[1..], clean)
  }

  lemma {:induction false} LineEndUnique(b: Bytes, i: nat)
    requires i <= |b| && NoNewline(b, i) && (i < |b| ==> b[i] == NEWLINE)
    ensures LineEnd(b) == i
  {
  }

  lemma {:induction false} SeamSlices(a: Bytes, b: Bytes, i: nat)
    requires i <= |a|
    ensures var whole := a + [NEWLINE] + b;
      && whole[..i] == a[..i]
      && whole[i + 1..] == if i == |a| then b else a[i + 1..] + [NEWLINE] + b
  {
  }

  /** The first newline of a text is the first of whatever it begins. */
  lemma {:induction false} SameLineEnd(a: Bytes, b: Bytes)
    ensures LineEnd(a + [NEWLINE] + b) == LineEnd(a)
  {
    LineEndUnique(a + [NEWLINE] + b, LineEnd(a));
  }

  lemma {:induction false} OnePiece(b: Bytes)
    requires LineEnd(b) == |b|
    ensures Pieces(b) == [b]
  {
  }

  lemma {:induction false} FirstPiece(b: Bytes, first: Bytes, rest: Bytes)
    requires LineEnd(b) < |b| && first == b[..LineEnd(b)] && rest == b[LineEnd(b) + 1..]
    ensures Pieces(b) == [first] + Pieces(rest)
  {
  }

  /** A text without a newline is the first piece of whatever it begins. */
  lemma {:induction false} OnlyPiece(a: Bytes, b: Bytes, whole: Bytes)
    requires LineEnd(a) == |a| && whole == a + [NEWLINE] + b
    ensures Pieces(whole) == Pieces(a) + Pieces(b)
  {
    SameLineEnd(a, b);
    SeamSlices(a, b, |a|);
    OnePiece(a);
    assert a[..|a|] == a;
    FirstPiece(whole, a, b);
  }

  /** Of another the first piece is that of whatever it begins, and the rest are of the rest. */
  lemma {:induction false} SameFirstPiece(a: Bytes, b: Bytes, whole: Bytes, i: nat)
    requires i == LineEnd(a) < |a| && whole == a + [NEWLINE] + b
    ensures Pieces(a) == [a[..i]] + Pieces(a[i + 1..])
    ensures Pieces(whole) == [a[..i]] + Pieces(a[i + 1..] + [NEWLINE] + b)
  {
    SameLineEnd(a, b);
    SeamSlices(a, b, i);
    FirstPiece(a, a[..i], a[i + 1..]);
    FirstPiece(whole, a[..i], a[i + 1..] + [NEWLINE] + b);
  }

  lemma {:induction false} FirstThenRest(first: Bytes, rest: seq<Bytes>, more: seq<Bytes>, ps: seq<Bytes>,
                                         all: seq<Bytes>)
    requires ps == [first] + rest && all == [first] + (rest + more)
    ensures all == ps + more
  {
    ConsConcat(first, rest, more);
  }

  /** A newline is a seam: the pieces of the two sides are the pieces of the whole. */
  lemma {:induction false} PiecesAtSeam(a: Bytes, b: Bytes)
    ensures Pieces(a + [NEWLINE] + b) == Pieces(a) + Pieces(b)
    decreases |a|
  {
    if LineEnd(a) == |a| {
      OnlyPiece(a, b, a + [NEWLINE] + b);
    } else {
      PiecesAtSeam(a[LineEnd(a) + 1..], b);
      SeamMoves(a, b, a + [NEWLINE] + b, LineEnd(a));
    }
  }

  lemma {:induction false} SeamMoves(a: Bytes, b: Bytes, whole: Bytes, i: nat)
    requires i == LineEnd(a) < |a| && whole == a + [NEWLINE] + b
    requires Pieces(a[i + 1..] + [NEWLINE] + b) == Pieces(a[i + 1..]) + Pieces(b)
    ensures Pieces(whole) == Pieces(a) + Pieces(b)
  {
    SameFirstPiece(a, b, whole, i);
    FirstThenRest(a[..i], Pieces(a[i + 1..]), Pieces(b), Pieces(a), Pieces(whole));
  }

  lemma {:induction false} ShownConcat(ps: seq<Bytes>, qs: seq<Bytes>, clean: Bytes -> Bytes)
    ensures Shown(ps + qs, clean) == Shown(ps, clean) + Shown(qs, clean)
  {
    if ps == [] {
      assert ps + qs == qs;
    } else {
      assert (ps + qs)[1..] == ps[1..] + qs;
      ShownConcat(ps[1..], qs, clean);
    }
  }

  function Cleaned(ps: seq<Bytes>, clean: Bytes -> Bytes): (lines: seq<Bytes>)
    ensures |lines| == |ps| && forall i :: 0 <= i < |ps| ==> lines[i] == clean(ps[i])
  {
    seq(|ps|, i requires 0 <= i < |ps| => clean(ps[i]))
  }

  function NotBlank(): Bytes -> bool
  {
    (line: Bytes) => line != []
  }

  lemma {:induction false} ShownIs(ps: seq<Bytes>, clean: Bytes -> Bytes)
    ensures Shown(ps, clean) == Filter(Cleaned(ps, clean), NotBlank())
  {
    if ps != [] {
      var n := |ps| - 1;
      ShownIs(ps[..n], clean);
      ShownConcat(ps[..n], [ps[n]], clean);
      assert ps == ps[..n] + [ps[n]] && [ps[n]][1..] == [];
      assert Cleaned(ps, clean)[..n] == Cleaned(ps[..n], clean);
    }
  }

  /** The lines of a byte string: what every scan of a transcript is meant to visit, in order. */
  function LinesOf(b: Bytes, clean: Bytes -> Bytes): seq<Bytes>
  {
    Shown(Pieces(b), clean)
  }

  /** Lines cut at a newline boundary add up. */
  lemma {:induction false} LinesAtSeam(b: Bytes, at: nat, clean: Bytes -> Bytes)
    requires at <= |b|
    requires at > 0 ==> b[at - 1] == NEWLINE
    requires clean([]) == []
    ensures LinesOf(b, clean) == LinesOf(b[..at], clean) + LinesOf(b[at..], clean)
  {
    if at == 0 {
      assert b[at..] == b;
    } else {
      LinesApart(b[..at - 1], b[at..], clean);
      LinesApart(b[..at - 1], [], clean);
      assert b == b[..at - 1] + [NEWLINE] + b[at..] && b[..at] == b[..at - 1] + [NEWLINE] + [];
    }
  }

  lemma {:induction false} LinesApart(a: Bytes, b: Bytes, clean: Bytes -> Bytes)
    ensures LinesOf(a + [NEWLINE] + b, clean) == LinesOf(a, clean) + LinesOf(b, clean)
  {
    PiecesAtSeam(a, b);
    ShownConcat(Pieces(a), Pieces(b), clean);
  }

  /** One line, ended by its newline, taken off the front. */
  lemma {:induction false} LinesTakeOne(b: Bytes, n: nat, clean: Bytes -> Bytes)
    requires n < |b| && NoNewline(b, n) && b[n] == NEWLINE
    ensures LinesOf(b, clean) == Shown([b[..n]], clean) + LinesOf(b[n + 1..], clean)
  {
    LineEndUnique(b, n);
    ShownConcat([b[..n]], Pieces(b[n + 1..]), clean);
  }

  /** A line taken while its newline is left behind: the empty line that follows is never shown. */
  lemma {:induction false} LinesLeaveNewline(b: Bytes, n: nat, clean: Bytes -> Bytes)
    requires n <= |b| && NoNewline(b, n) && (n < |b| ==> b[n] == NEWLINE)
    requires clean([]) == []
    ensures LinesOf(b, clean) == Shown([b[..n]], clean) + LinesOf(b[n..], clean)
  {
    if n == |b| {
      LineEndUnique(b, n);
      assert b[..n] == b && b[n..] == [];
    } else {
      LinesTakeOne(b, n, clean);
      var rest := b[n..];
      assert rest[..0] == [] && rest[1..] == b[n + 1..];
      LinesTakeOne(rest, 0, clean);
    }
  }
}
