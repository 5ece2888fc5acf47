/** The buffered line reader of a transcript scan, proved to hand over exactly the lines of the
    file: whatever the buffer size, however short the reads, however long the lines. */
module LineScan {
  import opened ByteStrings
  import opened Lines

  const SCAN_CHUNK := 64 * 1024

  const MAX_LINE_BYTES := 256 * 1024 * 1024

  datatype Outcome = Line(line: Bytes) | EndOfFile | TooLong

  /** A reader over an open file, which nobody writes to while it is scanned: the file's bytes and
      its position, a buffer, and the bytes buf[r..w] of it not yet handed over. */
  class LineReader {
    const data: Bytes
    var pos: nat
    const buf: array<Byte>
    var r: nat
    var w: nat
    var eof: bool

    /** Where in the file the first byte not yet handed over is. */
    function Start(): int
      reads this
    {
      pos - (w - r)
    }

    ghost predicate Valid()
      reads this, buf
    {
      && buf.Length > 0
      && r <= w <= buf.Length
      && 0 <= Start() && pos <= |data|
      && (eof ==> pos == |data|)
      && buf[r..w] == data[Start()..pos]
    }

    constructor (data: Bytes, from: nat, bufferSize: nat)
      requires bufferSize > 0 && from <= |data|
      ensures Valid() && this.data == data && Start() == from
      ensures fresh(buf)
    {
      this.data, pos := data, from;
      buf := new Byte[bufferSize];
      r, w, eof := 0, 0, false;
    }

    /** One read of the file into `into`, from index `at`. It may be short; only the end of the
        file may answer nothing. */
    method Read(into: array<Byte>, at: nat) returns (n: nat, atEnd: bool)
      requires at < into.Length && pos <= |data|
      modifies `pos, into
      ensures at + n <= into.Length && pos == old(pos) + n <= |data|
      ensures atEnd ==> pos == |data|
      ensures n == 0 ==> atEnd
      ensures into[..at + n] == old(into[..at]) + data[old(pos)..pos]
    {
      var room := if into.Length - at < |data| - pos then into.Length - at else |data| - pos;
      n :| 0 <= n <= room && (room > 0 ==> n > 0);
      forall k | 0 <= k < n {
        into[at + k] := data[pos + k];
      }
      pos := pos + n;
      atEnd :| (atEnd ==> pos == |data|) && (n == 0 ==> atEnd);
    }

    /** The next line, without its newline. A line longer than the buffer leaves its newline
        unread (see Gather), so the position afterwards is one of two. */
    method Next() returns (out: Outcome)
      requires Valid()
      modifies this, buf
      ensures !out.TooLong? ==> Valid()
      ensures out.EndOfFile? ==> Start() == old(Start()) == |data|
      ensures out.Line? ==> Handed(data, old(Start()), out.line, Start())
      ensures out.TooLong? ==> OverCap(data, old(Start()))
    {
      while true
        invariant Valid() && Start() == old(Start())
        decreases |data| - pos, !eof
      {
        var i := IndexNewline();
        if i < w {
          out := HandOver(i, i + 1);
          return;
        }
        if r > 0 {
          MoveToFront();
        }
        if w == buf.Length {
          out := Gather();
          return;
        }
        if eof {
          if w == 0 {
            return EndOfFile;
          }
          out := HandOver(w, w);
          return;
        }
        Fill();
      }
    }

    method IndexNewline() returns (i: nat)
      requires Valid()
      ensures r <= i <= w
      ensures OneLine(data, Start(), Start() + (i - r))
      ensures i < w ==> data[Start() + (i - r)] == NEWLINE
    {
      i := r;
      while i < w && buf[i] != NEWLINE
        invariant r <= i <= w
        invariant OneLine(data, Start(), Start() + (i - r))
      {
        assert buf[i] == buf[r..w][i - r];
        i := i + 1;
      }
      assert i < w ==> buf[i] == buf[r..w][i - r];
    }

    /** Hands over the buffered bytes up to index i and goes on at index next. */
    method Take(i: nat, next: nat) returns (line: Bytes)
      requires Valid() && r <= i <= next <= w
      modifies `r
      ensures Valid() && Start() == old(Start()) + (next - old(r))
      ensures |line| == i - old(r) && line == data[old(Start())..old(Start()) + |line|]
    {
      assert buf[r..i] == buf[r..w][..i - r];
      assert buf[next..w] == buf[r..w][next - r..];
      line := buf[r..i];
      r := next;
    }

    /** The line that ends at index i, before a newline or at the end of the file. */
    method HandOver(i: nat, next: nat) returns (out: Outcome)
      requires Valid() && r <= i <= next <= w && OneLine(data, Start(), Start() + (i - r))
      requires (next == i + 1 && data[Start() + (i - r)] == NEWLINE) || (next == i == w && r < w && pos == |data|)
      modifies `r
      ensures Valid() && out.Line? && Handed(data, old(Start()), out.line, Start())
    {
      var line := Take(i, next);
      return Line(line);
    }

    /** Everything still buffered belongs to one unfinished line: it moves to the front. */
    method MoveToFront()
      requires Valid()
      modifies `r, `w, buf
      ensures Valid() && Start() == old(Start())
      ensures r == 0
    {
      ghost var kept := buf[r..w];
      forall k | 0 <= k < w - r {
        buf[k] := buf[r + k];
      }
      r, w := 0, w - r;
      assert buf[r..w] == kept;
    }

    /** One more read, behind what is buffered. */
    method Fill()
      requires Valid() && r == 0 && w < buf.Length && !eof
      modifies `pos, `w, `eof, buf
      ensures Valid() && Start() == old(Start())
      ensures eof || pos > old(pos)
    {
      var n, atEnd := Read(buf, w);
      assert buf[..w + n] == buf[r..w + n];
      w := w + n;
      assert buf[r..w] == old(buf[r..w]) + data[old(pos)..pos];
      if atEnd {
        eof := true;
      }
    }

    /** A line that fills the buffer: its end is looked for without keeping what is passed, then
        the line is read back in one piece. The file is left AT the newline, not after it. */
    method Gather() returns (out: Outcome)
      requires Valid() && r == 0 && w == buf.Length
      requires OneLine(data, Start(), pos)
      modifies this
      ensures !out.TooLong? ==> Valid()
      ensures out.Line? ==> Handed(data, old(Start()), out.line, Start())
      ensures out.TooLong? ==> OverCap(data, old(Start()))
      ensures !out.EndOfFile?
    {
      var lineStart: nat := Start();
      var length, over := SeekEnd(lineStart, w);
      if over {
        return TooLong;
      }
      pos := lineStart + length;
      r, w := 0, 0;
      out := Line(data[lineStart..lineStart + length]);
    }

    /** Reads on to the end of the line, of which `passed` bytes have been read; only counts them. */
    method SeekEnd(lineStart: nat, passed: nat) returns (length: nat, over: bool)
      requires pos == lineStart + passed <= |data| && OneLine(data, lineStart, pos)
      modifies `pos
      ensures over ==> OverCap(data, lineStart)
      ensures !over ==>
                && passed <= length && lineStart + length <= |data|
                && OneLine(data, lineStart, lineStart + length)
                && (lineStart + length < |data| ==> data[lineStart + length] == NEWLINE)
    {
      length, over := passed, false;
      var chunk := new Byte[SCAN_CHUNK];
      while true
        invariant passed <= length && pos == lineStart + length <= |data|
        invariant OneLine(data, lineStart, lineStart + length)
        decreases |data| - pos
      {
        ghost var before := pos;
        var n, atEnd := Read(chunk, 0);
        var i := FirstNewline(chunk, n, before);
        if i < n {
          length := length + i;
          pos := lineStart + length + 1;
          return;
        }
        length := length + n;
        if length > MAX_LINE_BYTES {
          over := true;
          return;
        }
        if atEnd {
          return;
        }
      }
    }

    method FirstNewline(chunk: array<Byte>, n: nat, ghost from: nat) returns (i: nat)
      requires n <= chunk.Length && from + n <= |data| && chunk[..n] == data[from..from + n]
      ensures i <= n
      ensures OneLine(data, from, from + i)
      ensures i < n ==> data[from + i] == NEWLINE
    {
      i := 0;
      while i < n && chunk[i] != NEWLINE
        invariant i <= n
        invariant OneLine(data, from, from + i)
      {
        assert chunk[i] == chunk[..n][i];
        i := i + 1;
      }
      assert i < n ==> chunk[i] == chunk[..n][i];
    }
  }

  /** No newline in data[from..to]. */
  ghost predicate OneLine(data: Bytes, from: int, to: int)
    requires 0 <= from <= to <= |data|
  {
    forall k :: from <= k < to ==> data[k] != NEWLINE
  }

  /** One call handed over the line that starts at `from`: all of it and nothing else. The scan
      goes on after its newline, or on that newline, or at the end of the file. */
  ghost predicate Handed(data: Bytes, from: int, line: Bytes, next: int)
  {
    && 0 <= from && from + |line| <= |data|
    && line == data[from..from + |line|]
    && OneLine(data, from, from + |line|)
    && (from + |line| < |data| ==> data[from + |line|] == NEWLINE)
    && (next == from + |line| + 1 <= |data| || (next == from + |line| && line != []))
  }

  /** The line that starts at `from` is longer than a scan accepts. */
  ghost predicate OverCap(data: Bytes, from: int)
  {
    0 <= from && from + MAX_LINE_BYTES < |data| && OneLine(data, from, from + MAX_LINE_BYTES + 1)
  }

  /** What a callback that may ask to stop is handed: the lines in order, to the first one after
      which it says no. `more` answers for the lines handed over so far. */
  ghost predicate HandedOver(got: seq<Bytes>, lines: seq<Bytes>, more: seq<Bytes> -> bool)
  {
    && got <= lines
    && Going(got, more)
    && (got == lines || (got != [] && !more(got)))
  }

  /** The callback asked for more after every line but, perhaps, the last. */
  ghost predicate Going(got: seq<Bytes>, more: seq<Bytes> -> bool)
  {
    forall k :: 0 < k < |got| ==> more(got[..k])
  }

  lemma {:induction false} GoingOn(got: seq<Bytes>, line: Bytes, more: seq<Bytes> -> bool)
    requires Going(got, more) && (got == [] || more(got))
    ensures Going(got + [line], more)
  {
    forall k | 0 < k < |got| + 1 ensures more((got + [line])[..k]) {
      assert (got + [line])[..k] == got[..k];
      assert got[..|got|] == got;
    }
  }

  /** So the outcome of a scan does not depend on its buffer or on how the reads were cut. */
  lemma {:induction false} HandedOverOnce(got: seq<Bytes>, again: seq<Bytes>, lines: seq<Bytes>,
                                          more: seq<Bytes> -> bool)
    requires HandedOver(got, lines, more) && HandedOver(again, lines, more)
    ensures got == again
  {
    var n := if |got| < |again| then |got| else |again|;
    assert got[..n] == lines[..n] == again[..n];
    assert got[..|got|] == got && again[..|again|] == again;
  }

  lemma {:induction false} ShownOne(line: Bytes, clean: Bytes -> Bytes)
    ensures Shown([line], clean) == if clean(line) == [] then [] else [clean(line)]
  {
    assert Shown([line][1..], clean) == [];
  }

  /** One step of the scan takes one line off what is left to show. */
  lemma {:induction false} HandedStep(data: Bytes, from: int, line: Bytes, next: int, clean: Bytes -> Bytes)
    requires Handed(data, from, line, next)
    requires clean([]) == []
    ensures from < next <= |data|
    ensures LinesOf(data[from..], clean) == Shown([line], clean) + LinesOf(data[next..], clean)
  {
    var b, n := data[from..], |line|;
    assert b[..n] == line && NoNewline(b, n) && b[next - from..] == data[next..];
    if next == from + n + 1 {
      LinesTakeOne(b, n, clean);
    } else {
      LinesLeaveNewline(b, n, clean);
    }
  }

  /** The lines a reader has still to show. */
  ghost function Left(data: Bytes, at: int, clean: Bytes -> Bytes): seq<Bytes>
    requires 0 <= at <= |data|
  {
    LinesOf(data[at..], clean)
  }

  /** Part-way through a scan: `got` handed over, `left` to come, and nobody said stop. */
  ghost predicate Midway(got: seq<Bytes>, left: seq<Bytes>, all: seq<Bytes>, more: seq<Bytes> -> bool)
  {
    all == got + left && Going(got, more) && (got == [] || more(got))
  }

  lemma {:induction false} MidwayCut(got: seq<Bytes>, left: seq<Bytes>, all: seq<Bytes>, more: seq<Bytes> -> bool)
    requires Midway(got, left, all, more)
    ensures got <= all
    ensures left == [] ==> HandedOver(got, all, more)
  {
  }

  lemma {:induction false} MidwayStep(got: seq<Bytes>, line: Bytes, left: seq<Bytes>, all: seq<Bytes>,
                                      more: seq<Bytes> -> bool)
    requires Midway(got, [line] + left, all, more)
    ensures more(got + [line]) ==> Midway(got + [line], left, all, more)
    ensures !more(got + [line]) ==> HandedOver(got + [line], all, more)
  {
    GoingOn(got, line, more);
    assert all == (got + [line]) + left;
  }

  /** The scan met the line at `at`, having handed over all before it. */
  ghost predicate CutAt(data: Bytes, from: int, at: int, got: seq<Bytes>, clean: Bytes -> Bytes,
                        more: seq<Bytes> -> bool)
  {
    && 0 <= from <= at <= |data| && Going(got, more) && (got == [] || more(got))
    && LinesOf(data[from..], clean) == got + LinesOf(data[at..], clean)
  }

  /** One line of the scan, trimmed: an empty one is blank, and nobody is shown it. */
  method NextTrimmed(reader: LineReader, clean: Bytes -> Bytes) returns (out: Outcome)
    requires reader.Valid()
    requires clean([]) == []
    modifies reader, reader.buf
    ensures !out.TooLong? ==> reader.Valid()
    ensures out.EndOfFile? ==> Left(reader.data, old(reader.Start()), clean) == []
    ensures out.Line? ==> reader.Start() > old(reader.Start())
    ensures out.Line? && out.line == [] ==>
              Left(reader.data, old(reader.Start()), clean) == Left(reader.data, reader.Start(), clean)
    ensures out.Line? && out.line != [] ==>
              Left(reader.data, old(reader.Start()), clean) == [out.line] + Left(reader.data, reader.Start(), clean)
    ensures out.TooLong? ==> OverCap(reader.data, old(reader.Start()))
  {
    ghost var start := reader.Start();
    out := reader.Next();
    if out.Line? {
      HandedStep(reader.data, start, out.line, reader.Start(), clean);
      ShownOne(out.line, clean);
      out := Line(clean(out.line));
    } else if out.EndOfFile? {
      ShownOne([], clean);
    }
  }

  /** Walks the lines of a file from a byte offset. `cut` says the scan met a line over the cap
      and gave up there. */
  method EachLine(data: Bytes, from: nat, bufferSize: nat, clean: Bytes -> Bytes, more: seq<Bytes> -> bool)
    returns (got: seq<Bytes>, cut: bool)
    requires from <= |data| && bufferSize > 0
    requires clean([]) == []
    ensures !cut ==> HandedOver(got, LinesOf(data[from..], clean), more)
    ensures cut ==> exists at: int :: from <= at && OverCap(data, at) && CutAt(data, from, at, got, clean, more)
  {
    var reader := new LineReader(data, from, bufferSize);
    got, cut := [], false;
    ghost var all := Left(data, from, clean);
    while true
      invariant fresh(reader) && fresh(reader.buf) && reader.data == data
      invariant reader.Valid() && from <= reader.Start()
      invariant Midway(got, Left(data, reader.Start(), clean), all, more)
      decreases |data| - reader.Start()
    {
      MidwayCut(got, Left(data, reader.Start(), clean), all, more);
      ghost var at := reader.Start();
      var out := NextTrimmed(reader, clean);
      if out.EndOfFile? {
        return;
      }
      if out.TooLong? {
        cut := true;
        assert CutAt(data, from, at, got, clean, more);
        return;
      }
      if out.line != [] {
        MidwayStep(got, out.line, Left(data, reader.Start(), clean), all, more);
        got := got + [out.line];
        if !more(got) {
          return;
        }
      }
    }
  }
}
