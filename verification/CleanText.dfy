/** Taking terminal control sequences out of text cut for display. */
module CleanText {

  import opened ByteStrings
  import opened Collections

  type Text = seq<Byte>

  const TAB: Byte := 0x09
  const BEL: Byte := 0x07
  const ESC: Byte := 0x1b
  const BACKSLASH: Byte := 0x5c

  /** A control character worth removing: tab and newline are layout and stay. */
  predicate IsControl(c: Byte)
  {
    (c < 0x20 && c != TAB && c != NEWLINE) || c == 0x7f
  }

  predicate Clean(s: Text)
  {
    forall i :: 0 <= i < |s| ==> !IsControl(s[i])
  }

  // ---- UTF-8, as section 4 of RFC 3629 tabulates it ----

  predicate Cont(c: Byte) { 0x80 <= c <= 0xbf }

  /** The length of the well-formed sequence s starts with, or 0. */
  function RuneLen(s: Text): (n: nat)
    ensures n <= |s| && n <= 4
    ensures n > 1 ==> s[0] >= 0x80 && forall i :: 1 <= i < n ==> Cont(s[i])
  {
    if s == [] then 0
    else if s[0] < 0x80 then 1
    else if |s| >= 2 && 0xc2 <= s[0] <= 0xdf && Cont(s[1]) then 2
    else if |s| >= 3 && 0xe0 <= s[0] <= 0xef && Cont(s[1]) && Cont(s[2])
            && (s[0] == 0xe0 ==> s[1] >= 0xa0) && (s[0] == 0xed ==> s[1] <= 0x9f) then 3
    else if |s| >= 4 && 0xf0 <= s[0] <= 0xf4 && Cont(s[1]) && Cont(s[2]) && Cont(s[3])
            && (s[0] == 0xf0 ==> s[1] >= 0x90) && (s[0] == 0xf4 ==> s[1] <= 0x8f) then 4
    else 0
  }

  predicate ValidUtf8(s: Text)
  {
    s == [] || (RuneLen(s) > 0 && ValidUtf8(s[RuneLen(s)..]))
  }

  /** How far decoding one rune moves: over a malformed byte, by one. */
  function DecodeLen(s: Text): (n: nat)
    requires s != []
    ensures 1 <= n <= |s|
    ensures n > 1 ==> n == RuneLen(s)
  {
    if RuneLen(s) > 0 then RuneLen(s) else 1
  }

  // ---- where a sequence ends ----

  predicate CsiFinal(c: Byte) { 0x40 <= c <= 0x7e }

  predicate StringOpener(c: Byte) { c == 0x5d || c == 0x50 || c == 0x58 || c == 0x5e || c == 0x5f }

  predicate Intermediate(c: Byte) { 0x20 <= c <= 0x2f }

  /** The first final byte of a control sequence from i on ends it; none takes the rest. */
  function CsiEnd(s: Text, i: nat): (n: nat)
    requires i <= |s|
    ensures i <= n <= |s| && (i < |s| ==> i < n)
    ensures n < |s| ==> s[n - 1] < 0x80
    decreases |s| - i
  {
    if i == |s| then i else if CsiFinal(s[i]) then i + 1 else CsiEnd(s, i + 1)
  }

  /** A control string runs to BEL, or to the string terminator ESC backslash. */
  function StringEnd(s: Text, i: nat): (n: nat)
    requires i <= |s|
    ensures i <= n <= |s| && (i < |s| ==> i < n)
    ensures n < |s| ==> s[n - 1] < 0x80
    decreases |s| - i
  {
    if i == |s| then i
    else if s[i] == BEL then i + 1
    else if s[i] == ESC && i + 1 < |s| && s[i + 1] == BACKSLASH then i + 2
    else StringEnd(s, i + 1)
  }

  /** Intermediates, then one final byte; anything else is not part of the sequence. */
  function NfEnd(s: Text, i: nat): (n: nat)
    requires i <= |s|
    ensures i <= n <= |s|
    ensures n > i ==> s[n - 1] < 0x80
    decreases |s| - i
  {
    if i == |s| then i
    else if 0x30 <= s[i] <= 0x7e then i + 1
    else if Intermediate(s[i]) then NfEnd(s, i + 1)
    else i
  }

  function EscapeLen(s: Text): (n: nat)
    requires s != []
    ensures 1 <= n <= |s|
  {
    if |s| < 2 then |s|
    else
      var c := s[1];
      if c == 0x5b then CsiEnd(s, 2)
      else if StringOpener(c) then StringEnd(s, 2)
      else if Intermediate(c) then NfEnd(s, 2)
      else if 0x30 <= c <= 0x7e then 2
      else 1
  }

  /** The source's loops. */
  method EscapeSequenceLen(s: Text) returns (n: nat)
    requires s != [] && s[0] == ESC
    ensures n == EscapeLen(s)
  {
    if |s| < 2 {
      return |s|;
    }
    var c := s[1];
    if c == 0x5b {
      var i := 2;
      while i < |s|
        invariant 2 <= i <= |s| && CsiEnd(s, 2) == CsiEnd(s, i)
      {
        if CsiFinal(s[i]) {
          return i + 1;
        }
        i := i + 1;
      }
      return |s|;
    }
    if StringOpener(c) {
      var i := 2;
      while i < |s|
        invariant 2 <= i <= |s| && StringEnd(s, 2) == StringEnd(s, i)
      {
        if s[i] == BEL {
          return i + 1;
        }
        if s[i] == ESC && i + 1 < |s| && s[i + 1] == BACKSLASH {
          return i + 2;
        }
        i := i + 1;
      }
      return |s|;
    }
    if Intermediate(c) {
      var i := 2;
      while i < |s|
        invariant 2 <= i <= |s| && NfEnd(s, 2) == NfEnd(s, i)
      {
        var b := s[i];
        if 0x30 <= b <= 0x7e {
          return i + 1;
        }
        if b < 0x20 || b > 0x2f {
          return i;
        }
        i := i + 1;
      }
      return |s|;
    }
    if 0x30 <= c <= 0x7e {
      return 2;
    }
    return 1;
  }

  function Strip(s: Text): Text
    decreases |s|
  {
    if s == [] then []
    else if s[0] == ESC then Strip(s[EscapeLen(s)..])
    else if s[0] < 0x80 && IsControl(s[0]) then Strip(s[1..])
    else s[..DecodeLen(s)] + Strip(s[DecodeLen(s)..])
  }

  method HasControl(s: Text) returns (dirty: bool)
    ensures dirty <==> !Clean(s)
  {
    for i := 0 to |s|
      invariant Clean(s[..i])
    {
      if IsControl(s[i]) {
        return true;
      }
    }
    return false;
  }

  /** What stripping makes of the rest of the text, from one place of the loop to the next. */
  lemma {:induction false} StripFrom(s: Text, i: nat)
    requires i < |s|
    ensures s[i] == ESC ==> Strip(s[i..]) == Strip(s[i + EscapeLen(s[i..])..])
    ensures s[i] != ESC && IsControl(s[i]) ==> Strip(s[i..]) == Strip(s[i + 1..])
    ensures !IsControl(s[i]) ==>
              var n := DecodeLen(s[i..]);
              Strip(s[i..]) == s[i..i + n] + Strip(s[i + n..])
  {
    var rest := s[i..];
    assert rest[EscapeLen(rest)..] == s[i + EscapeLen(rest)..];
    assert rest[1..] == s[i + 1..];
    assert rest[DecodeLen(rest)..] == s[i + DecodeLen(rest)..] && rest[..DecodeLen(rest)] == s[i..i + DecodeLen(rest)];
  }

  /** What has been kept so far, and what stripping makes of the rest. */
  ghost predicate Midway(kept: Text, s: Text, i: nat)
  {
    i <= |s| && kept + Strip(s[i..]) == Strip(s)
  }

  lemma {:induction false} MidwayStep(kept: Text, s: Text, i: nat)
    requires i < |s| && Midway(kept, s, i)
    ensures s[i] == ESC ==> Midway(kept, s, i + EscapeLen(s[i..]))
    ensures s[i] != ESC && IsControl(s[i]) ==> Midway(kept, s, i + 1)
    ensures !IsControl(s[i]) ==> Midway(kept + s[i..i + DecodeLen(s[i..])], s, i + DecodeLen(s[i..]))
  {
    StripFrom(s, i);
  }

  lemma {:induction false} MidwayEnds(kept: Text, s: Text)
    ensures Midway([], s, 0)
    ensures Midway(kept, s, |s|) ==> kept == Strip(s)
  {
    assert s[0..] == s && s[|s|..] == [];
  }

  /** The source's loop, its fast path first. */
  method StripTerminalControls(s: Text) returns (out: Text)
    ensures out == Strip(s)
  {
    var dirty := HasControl(s);
    if !dirty {
      CleanIsKept(s);
      return s;
    }
    out := [];
    var i := 0;
    MidwayEnds(out, s);
    while i < |s|
      invariant 0 <= i <= |s| && Midway(out, s, i)
    {
      var c := s[i];
      MidwayStep(out, s, i);
      if c == ESC {
        var n := EscapeSequenceLen(s[i..]);
        i := i + n;
      } else if c < 0x80 && IsControl(c) {
        i := i + 1;
      } else {
        var size := DecodeLen(s[i..]);
        out := out + s[i..i + size];
        i := i + size;
      }
    }
    MidwayEnds(out, s);
  }

  lemma {:induction false} CleanIsKept(s: Text)
    requires Clean(s)
    ensures Strip(s) == s
    decreases |s|
  {
    if s != [] {
      CleanIsKept(s[DecodeLen(s)..]);
      assert s == s[..DecodeLen(s)] + s[DecodeLen(s)..];
    }
  }

  lemma {:induction false} StripIsClean(s: Text)
    ensures forall c :: c in Strip(s) ==> (c >= 0x20 || c == 0x09 || c == 0x0a) && c != 0x7f
  {
    StripCleans(s);
    assert forall i :: 0 <= i < |Strip(s)| ==> !IsControl(Strip(s)[i]);
  }

  lemma {:induction false} StripCleans(s: Text)
    ensures Clean(Strip(s))
    decreases |s|
  {
    if s != [] {
      if s[0] == ESC {
        StripCleans(s[EscapeLen(s)..]);
      } else if s[0] < 0x80 && IsControl(s[0]) {
        StripCleans(s[1..]);
      } else {
        StripCleans(s[DecodeLen(s)..]);
        assert Clean(s[..DecodeLen(s)]);
      }
    }
  }

  /** The two together: no control is left, cleaning twice is cleaning once, and text that needs no
      cleaning, and only that, comes back as it is. */
  lemma {:induction false} StripIsIdempotent(s: Text)
    ensures Strip(Strip(s)) == Strip(s)
    ensures Strip(s) == s <==> forall c :: c in s ==> (c >= 0x20 || c == 0x09 || c == 0x0a) && c != 0x7f
  {
    StripCleans(s);
    CleanIsKept(Strip(s));
    StripIsClean(s);
    if forall c :: c in s ==> (c >= 0x20 || c == 0x09 || c == 0x0a) && c != 0x7f {
      assert forall i :: 0 <= i < |s| ==> s[i] in s;
      CleanIsKept(s);
    }
  }

  /** In valid UTF-8, the byte after an ASCII byte starts a rune: so does the end. */
  lemma {:induction false} BoundaryAfterAscii(s: Text, i: nat)
    requires ValidUtf8(s) && 0 < i <= |s|
    requires s[i - 1] < 0x80 || i == |s|
    ensures ValidUtf8(s[i..])
    decreases |s|
  {
    var n := RuneLen(s);
    if i == |s| {
      assert s[i..] == [];
    } else if i > n {
      assert s[n..][i - n - 1] == s[i - 1];
      BoundaryAfterAscii(s[n..], i - n);
      assert s[n..][i - n..] == s[i..];
    }
  }

  /** Every sequence ends where a rune may start. */
  lemma {:induction false} EscapeCut(s: Text)
    requires s != [] && s[0] == ESC
    ensures EscapeLen(s) == |s| || s[EscapeLen(s) - 1] < 0x80
  {
  }

  lemma {:induction false} RunesConcat(a: Text, b: Text)
    requires a != [] && RuneLen(a) == |a| && ValidUtf8(b)
    ensures ValidUtf8(a + b)
  {
    assert RuneLen(a + b) == |a|;
    assert (a + b)[|a|..] == b;
  }

  /** Cleaning never cuts a rune in half: valid UTF-8 stays valid. */
  lemma {:induction false} StripKeepsUtf8(s: Text)
    requires ValidUtf8(s)
    ensures ValidUtf8(Strip(s))
    decreases |s|
  {
    if s != [] {
      if s[0] == ESC {
        EscapeCut(s);
        BoundaryAfterAscii(s, EscapeLen(s));
        StripKeepsUtf8(s[EscapeLen(s)..]);
      } else {
        var n := RuneLen(s);
        StripKeepsUtf8(s[n..]);
        if !(s[0] < 0x80 && IsControl(s[0])) {
          RunesConcat(s[..n], Strip(s[n..]));
        }
      }
    }
  }

  // ---- the standards' grammar, and what is left of decorated text ----

  predicate AllIn(s: Text, lo: int, hi: int)
  {
    forall i :: 0 <= i < |s| ==> lo <= s[i] as int <= hi
  }

  /** Sections 5.4 and 5.6 of ECMA-48 and section 13.2 of ECMA-35: control sequences, control strings
      (which terminals also let BEL end), escapes with intermediates, and two-byte escapes. */
  datatype Sequence =
    | Csi(parameters: Text, intermediates: Text, final: Byte)
    | ControlString(opener: Byte, body: Text, bel: bool)
    | Nf(intermediates: Text, final: Byte)
    | TwoByte(c: Byte)
  {
    predicate WellFormed() {
      match this
      case Csi(parameters, intermediates, final) =>
        AllIn(parameters, 0x30, 0x3f) && AllIn(intermediates, 0x20, 0x2f) && 0x40 <= final <= 0x7e
      case ControlString(opener, body, _) =>
        StringOpener(opener) && BEL !in body && ESC !in body
      case Nf(intermediates, final) =>
        intermediates != [] && AllIn(intermediates, 0x20, 0x2f) && 0x30 <= final <= 0x7e
      case TwoByte(c) =>
        0x30 <= c <= 0x7e && c != 0x5b && !StringOpener(c)
    }

    function Text(): Text {
      match this
      case Csi(parameters, intermediates, final) => [ESC, 0x5b] + parameters + intermediates + [final]
      case ControlString(opener, body, bel) => [ESC, opener] + body + if bel then [BEL] else [ESC, BACKSLASH]
      case Nf(intermediates, final) => [ESC] + intermediates + [final]
      case TwoByte(c) => [ESC, c]
    }
  }

  lemma {:induction false} CsiEndsAt(s: Text, i: nat, end: nat)
    requires i <= end < |s| && CsiFinal(s[end]) && forall k :: i <= k < end ==> !CsiFinal(s[k])
    ensures CsiEnd(s, i) == end + 1
    decreases end - i
  {
    if i < end {
      CsiEndsAt(s, i + 1, end);
    }
  }

  lemma {:induction false} StringEndsAt(s: Text, i: nat, end: nat)
    requires i <= end < |s| && forall k :: i <= k < end ==> s[k] != BEL && s[k] != ESC
    requires s[end] == BEL || (s[end] == ESC && end + 1 < |s| && s[end + 1] == BACKSLASH)
    ensures StringEnd(s, i) == if s[end] == BEL then end + 1 else end + 2
    decreases end - i
  {
    if i < end {
      StringEndsAt(s, i + 1, end);
    }
  }

  lemma {:induction false} NfEndsAt(s: Text, i: nat, end: nat)
    requires i <= end < |s| && 0x30 <= s[end] <= 0x7e && forall k :: i <= k < end ==> Intermediate(s[k])
    ensures NfEnd(s, i) == end + 1
    decreases end - i
  {
    if i < end {
      NfEndsAt(s, i + 1, end);
    }
  }

  lemma {:induction false} CsiMeasured(parameters: Text, intermediates: Text, final: Byte, rest: Text)
    requires Csi(parameters, intermediates, final).WellFormed()
    ensures EscapeLen(Csi(parameters, intermediates, final).Text() + rest) == 3 + |parameters| + |intermediates|
  {
    var inner := parameters + intermediates;
    var s := Csi(parameters, intermediates, final).Text() + rest;
    assert s == [ESC, 0x5b] + inner + [final] + rest;
    forall k | 2 <= k < 2 + |inner| ensures !CsiFinal(s[k]) {
      assert s[k] == inner[k - 2];
    }
    CsiEndsAt(s, 2, 2 + |inner|);
  }

  lemma {:induction false} StringMeasured(opener: Byte, body: Text, bel: bool, rest: Text)
    requires ControlString(opener, body, bel).WellFormed()
    ensures EscapeLen(ControlString(opener, body, bel).Text() + rest) == 2 + |body| + if bel then 1 else 2
  {
    var s := ControlString(opener, body, bel).Text() + rest;
    forall k | 2 <= k < 2 + |body| ensures s[k] != BEL && s[k] != ESC {
      assert s[k] == body[k - 2];
    }
    StringEndsAt(s, 2, 2 + |body|);
  }

  lemma {:induction false} NfMeasured(intermediates: Text, final: Byte, rest: Text)
    requires Nf(intermediates, final).WellFormed()
    ensures EscapeLen(Nf(intermediates, final).Text() + rest) == 2 + |intermediates|
  {
    var s := Nf(intermediates, final).Text() + rest;
    forall k | 1 <= k < 1 + |intermediates| ensures Intermediate(s[k]) {
      assert s[k] == intermediates[k - 1];
    }
    NfEndsAt(s, 2, 1 + |intermediates|);
  }

  lemma {:induction false} CsiEndIs(s: Text, i: nat)
    requires i <= |s|
    ensures forall k :: i <= k < CsiEnd(s, i) - 1 ==> !(0x40 <= s[k] <= 0x7e)
    ensures i < CsiEnd(s, i) && (CsiEnd(s, i) < |s| || 0x40 <= s[|s| - 1] <= 0x7e) ==>
              0x40 <= s[CsiEnd(s, i) - 1] <= 0x7e
    decreases |s| - i
  {
    if i < |s| {
      CsiEndIs(s, i + 1);
    }
  }

  /** The string that begins at i is over before n: by BEL, or by ESC and a backslash. */
  predicate StringOver(s: Text, i: nat, n: nat)
  {
    i < n <= |s| && (s[n - 1] == 0x07 || (i + 1 < n && s[n - 2] == 0x1b && s[n - 1] == 0x5c))
  }

  lemma {:induction false} StringEndIs(s: Text, i: nat)
    requires i <= |s|
    ensures forall n :: i < n < StringEnd(s, i) ==> !StringOver(s, i, n)
    ensures StringEnd(s, i) < |s| ==> StringOver(s, i, StringEnd(s, i))
    decreases |s| - i
  {
    if i < |s| {
      StringEndIs(s, i + 1);
      var end := StringEnd(s, i);
      forall n | i < n < end ensures !StringOver(s, i, n) {
        assert i + 1 < n ==> !StringOver(s, i + 1, n);
      }
    }
  }

  lemma {:induction false} NfEndIs(s: Text, i: nat)
    requires i <= |s|
    ensures forall k :: i <= k < NfEnd(s, i) - 1 ==> 0x20 <= s[k] <= 0x2f
    ensures var n := NfEnd(s, i);
      n > i ==> 0x20 <= s[n - 1] <= 0x7e && (n < |s| && s[n - 1] < 0x30 ==> !(0x20 <= s[n] <= 0x7e))
    ensures NfEnd(s, i) == i < |s| ==> !(0x20 <= s[i] <= 0x7e)
    decreases |s| - i
  {
    if i < |s| && Intermediate(s[i]) {
      NfEndIs(s, i + 1);
    }
  }

  /** How far any sequence goes, finished or not. A control sequence goes to its first final byte, a control string
      to what ends it, and both to the end of the text when it has no such thing; an escape with intermediates goes
      through its final byte, or up to the first byte that cannot belong to it; and before anything else the ESC
      stands alone. */
  lemma {:induction false} EscapeMeasured(s: Text)
    requires |s| >= 2
    ensures
      var n, c := EscapeLen(s), s[1];
      && (c == 0x5b ==>
            && 2 <= n && (forall k :: 2 <= k < n - 1 ==> !(0x40 <= s[k] <= 0x7e))
            && (n < |s| ==> n > 2 && 0x40 <= s[n - 1] <= 0x7e))
      && (c in {0x5d, 0x50, 0x58, 0x5e, 0x5f} ==>
            (forall k :: 2 < k < n ==> !StringOver(s, 2, k)) && (n < |s| ==> StringOver(s, 2, n)))
      && (0x20 <= c <= 0x2f ==>
            && 2 <= n && (forall k :: 2 <= k < n - 1 ==> 0x20 <= s[k] <= 0x2f)
            && (n > 2 ==> 0x20 <= s[n - 1] <= 0x7e)
            && (n < |s| && (n == 2 || s[n - 1] < 0x30) ==> !(0x20 <= s[n] <= 0x7e)))
      && (0x30 <= c <= 0x7e && c !in {0x5b, 0x5d, 0x50, 0x58, 0x5e, 0x5f} ==> n == 2)
      && (c < 0x20 || c > 0x7e ==> n == 1)
  {
    CsiEndIs(s, 2);
    StringEndIs(s, 2);
    NfEndIs(s, 2);
  }

  /** A well-formed sequence is measured exactly, whatever follows it. */
  lemma {:induction false} SequenceMeasured(q: Sequence, rest: Text)
    requires q.WellFormed()
    ensures EscapeLen(q.Text() + rest) == |q.Text()|
  {
    match q
    case Csi(parameters, intermediates, final) => CsiMeasured(parameters, intermediates, final, rest);
    case ControlString(opener, body, bel) => StringMeasured(opener, body, bel, rest);
    case Nf(intermediates, final) => NfMeasured(intermediates, final, rest);
    case TwoByte(c) =>
  }

  lemma {:induction false} ContByte(s: Text)
    requires s != [] && Cont(s[0])
    ensures Strip(s) == [s[0]] + Strip(s[1..])
  {
  }

  lemma {:induction false} ContRun(s: Text, k: nat)
    requires k <= |s| && forall i :: 0 <= i < k ==> Cont(s[i])
    ensures Strip(s) == s[..k] + Strip(s[k..])
  {
    if k > 0 {
      ContByte(s);
      ContRun(s[1..], k - 1);
      assert s[1..][k - 1..] == s[k..] && s[1..][..k - 1] == s[1..k];
      Regroup(s, k, Strip(s[k..]));
    } else {
      assert s[0..] == s;
    }
  }

  lemma {:induction false} StripRune(s: Text, n: nat)
    requires s != [] && !IsControl(s[0]) && n == DecodeLen(s)
    ensures Strip(s) == s[..n] + Strip(s[n..])
    ensures forall i :: 1 <= i < n ==> Cont(s[i])
  {
  }

  lemma {:induction false} StripTail(s: Text, n: nat)
    requires 1 <= n <= |s| && forall i :: 1 <= i < n ==> Cont(s[i])
    ensures Strip(s[1..]) == s[1..n] + Strip(s[n..])
  {
    var tail := s[1..];
    assert forall i :: 0 <= i < n - 1 ==> tail[i] == s[i + 1];
    ContRun(tail, n - 1);
    assert tail[n - 1..] == s[n..] && tail[..n - 1] == s[1..n];
  }

  /** A byte that is kept is kept by itself, wherever the runes around it fall. */
  lemma {:induction false} StripByte(s: Text)
    requires s != [] && !IsControl(s[0])
    ensures Strip(s) == [s[0]] + Strip(s[1..])
  {
    var n := DecodeLen(s);
    StripRune(s, n);
    StripTail(s, n);
    Regroup(s, n, Strip(s[n..]));
  }

  lemma {:induction false} Regroup(s: Text, n: nat, more: Text)
    requires 1 <= n <= |s|
    ensures s[..n] + more == [s[0]] + (s[1..n] + more)
  {
  }

  lemma {:induction false} StripPlain(a: Text, b: Text)
    requires Clean(a)
    ensures Strip(a + b) == a + Strip(b)
  {
    if a == [] {
      assert a + b == b;
    } else {
      var rest, all := a[1..], a + b;
      assert all[0] == a[0] && all[1..] == rest + b;
      StripByte(all);
      StripPlain(rest, b);
      ConsConcat(a[0], rest, Strip(b));
      assert a == [a[0]] + rest;
    }
  }

  /** Text as a program that colours its output writes it. */
  datatype Token = Plain(text: Text) | Control(q: Sequence) | Single(c: Byte)
  {
    predicate WellFormed() {
      match this
      case Plain(text) => forall c :: c in text ==> (c >= 0x20 || c == 0x09 || c == 0x0a) && c != 0x7f
      case Control(q) => q.WellFormed()
      case Single(c) => c != ESC && ((c < 0x20 && c != 0x09 && c != 0x0a) || c == 0x7f)
    }

    function Text(): Text {
      match this
      case Plain(text) => text
      case Control(q) => q.Text()
      case Single(c) => [c]
    }
  }

  predicate Decorated(ts: seq<Token>)
  {
    forall i :: 0 <= i < |ts| ==> ts[i].WellFormed()
  }

  function Written(ts: seq<Token>): Text
  {
    if ts == [] then [] else ts[0].Text() + Written(ts[1..])
  }

  function Visible(ts: seq<Token>): Text
  {
    if ts == [] then [] else (if ts[0].Plain? then ts[0].text else []) + Visible(ts[1..])
  }

  lemma {:induction false} StripSingle(c: Byte, rest: Text)
    requires IsControl(c) && c != ESC
    ensures Strip([c] + rest) == Strip(rest)
  {
    assert ([c] + rest)[1..] == rest;
  }

  /** Decorate and strip is the identity: exactly the sequences and the single control characters come off, and
      all the text stays. */
  lemma {:induction false} StripUndecorates(ts: seq<Token>)
    requires Decorated(ts)
    ensures Strip(Written(ts)) == Visible(ts)
  {
    if ts != [] {
      var rest := Written(ts[1..]);
      StripUndecorates(ts[1..]);
      if ts[0].Plain? {
        assert forall i :: 0 <= i < |ts[0].text| ==> ts[0].text[i] in ts[0].text;
        StripPlain(ts[0].text, rest);
      } else if ts[0].Single? {
        StripSingle(ts[0].c, rest);
      } else {
        var w := ts[0].q.Text();
        SequenceMeasured(ts[0].q, rest);
        assert (w + rest)[0] == ESC && (w + rest)[|w|..] == rest;
      }
    }
  }
}
