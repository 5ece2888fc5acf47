/** Paging cursors on the wire: a decimal offset in padded base64 (section 4 of RFC 4648). */
module Cursor {
  import opened Options

  newtype Octet = b: int | 0 <= b < 256

  type Text = seq<Octet>

  const PAD: Octet := 61            // '='
  const MAX_INT := 0x7FFF_FFFF_FFFF_FFFF

  /** The alphabet: A-Z a-z 0-9 + /. */
  function Letter(v: int): (c: Octet)
    requires 0 <= v < 64
  {
    if v < 26 then (v + 65) as Octet
    else if v < 52 then (v - 26 + 97) as Octet
    else if v < 62 then (v - 52 + 48) as Octet
    else if v == 62 then 43 else 47
  }

  function Value(c: Octet): (v: Option<int>)
    ensures v.Some? ==> 0 <= v.value < 64
  {
    if 65 <= c <= 90 then Some(c as int - 65)
    else if 97 <= c <= 122 then Some(c as int - 97 + 26)
    else if 48 <= c <= 57 then Some(c as int - 48 + 52)
    else if c == 43 then Some(62)
    else if c == 47 then Some(63)
    else None
  }

  function Encode64(b: Text): Text
  {
    if b == [] then []
    else
      var b0 := b[0] as int;
      var b1 := if |b| > 1 then b[1] as int else 0;
      var b2 := if |b| > 2 then b[2] as int else 0;
      var first := [Letter(b0 / 4), Letter(b0 % 4 * 16 + b1 / 16)];
      if |b| == 1 then first + [PAD, PAD]
      else if |b| == 2 then first + [Letter(b1 % 16 * 4), PAD]
      else first + [Letter(b1 % 16 * 4 + b2 / 64), Letter(b2 % 64)] + Encode64(b[3..])
  }

  /** Whole quanta of four; padding only in the last one. */
  function Decode64(s: Text): Option<Text>
  {
    if s == [] then Some([])
    else if |s| < 4 then None
    else
      var v0, v1, v2, v3 := Value(s[0]), Value(s[1]), Value(s[2]), Value(s[3]);
      if v0.None? || v1.None? then None
      else
        var o0 := (v0.value * 4 + v1.value / 16) as Octet;
        if |s| == 4 && s[2] == PAD && s[3] == PAD then Some([o0])
        else if v2.None? then None
        else
          var o1 := (v1.value % 16 * 16 + v2.value / 4) as Octet;
          if |s| == 4 && s[3] == PAD then Some([o0, o1])
          else if v3.None? then None
          else
            var o2 := (v2.value % 4 * 64 + v3.value) as Octet;
            var rest := Decode64(s[4..]);
            if rest.None? then None else Some([o0, o1, o2] + rest.value)
  }

  lemma {:induction false} LetterValue(v: int)
    requires 0 <= v < 64
    ensures Value(Letter(v)) == Some(v) && Letter(v) != PAD
  {
  }

  /** Three octets through four sextets and back. */
  lemma {:induction false} Quantum(b0: int, b1: int, b2: int)
    requires 0 <= b0 < 256 && 0 <= b1 < 256 && 0 <= b2 < 256
    ensures 0 <= b0 / 4 < 64 && 0 <= b0 % 4 * 16 + b1 / 16 < 64
    ensures 0 <= b1 % 16 * 4 + b2 / 64 < 64 && 0 <= b2 % 64 < 64
    ensures b0 / 4 * 4 + (b0 % 4 * 16 + b1 / 16) / 16 == b0
    ensures (b0 % 4 * 16 + b1 / 16) % 16 * 16 + (b1 % 16 * 4 + b2 / 64) / 4 == b1
    ensures (b1 % 16 * 4 + b2 / 64) % 4 * 64 + b2 % 64 == b2
  {
  }

  /** A full quantum at the front decodes on its own. */
  lemma {:induction false} DecodeFull(v0: int, v1: int, v2: int, v3: int, rest: Text)
    requires 0 <= v0 < 64 && 0 <= v1 < 64 && 0 <= v2 < 64 && 0 <= v3 < 64
    ensures Decode64([Letter(v0), Letter(v1), Letter(v2), Letter(v3)] + rest)
         == var tail := Decode64(rest);
            if tail.None? then None
            else Some([(v0 * 4 + v1 / 16) as Octet, (v1 % 16 * 16 + v2 / 4) as Octet, (v2 % 4 * 64 + v3) as Octet]
                      + tail.value)
  {
    var s := [Letter(v0), Letter(v1), Letter(v2), Letter(v3)] + rest;
    assert s[4..] == rest;
    LetterValue(v0);
    LetterValue(v1);
    LetterValue(v2);
    LetterValue(v3);
  }

  lemma {:induction false} DecodePadded(v0: int, v1: int, v2: int)
    requires 0 <= v0 < 64 && 0 <= v1 < 64 && 0 <= v2 < 64
    ensures Decode64([Letter(v0), Letter(v1), PAD, PAD]) == Some([(v0 * 4 + v1 / 16) as Octet])
    ensures Decode64([Letter(v0), Letter(v1), Letter(v2), PAD])
         == Some([(v0 * 4 + v1 / 16) as Octet, (v1 % 16 * 16 + v2 / 4) as Octet])
  {
    LetterValue(v0);
    LetterValue(v1);
    LetterValue(v2);
  }

  function OctetAt(b: Text, k: nat): int
  {
    if k < |b| then b[k] as int else 0
  }

  /** The sextets a text starts with, and how its first octets come back from them. */
  lemma {:induction false} EncodeShape(b: Text) returns (v0: int, v1: int, v2: int, v3: int)
    requires b != []
    ensures 0 <= v0 < 64 && 0 <= v1 < 64 && 0 <= v2 < 64 && 0 <= v3 < 64
    ensures v0 * 4 + v1 / 16 == OctetAt(b, 0)
    ensures v1 % 16 * 16 + v2 / 4 == OctetAt(b, 1)
    ensures v2 % 4 * 64 + v3 == OctetAt(b, 2)
    ensures Encode64(b) == if |b| == 1 then [Letter(v0), Letter(v1), PAD, PAD]
                           else if |b| == 2 then [Letter(v0), Letter(v1), Letter(v2), PAD]
                           else [Letter(v0), Letter(v1), Letter(v2), Letter(v3)] + Encode64(b[3..])
  {
    var b0, b1, b2 := OctetAt(b, 0), OctetAt(b, 1), OctetAt(b, 2);
    Quantum(b0, b1, b2);
    v0, v1, v2, v3 := b0 / 4, b0 % 4 * 16 + b1 / 16, b1 % 16 * 4 + b2 / 64, b2 % 64;
  }

  lemma {:induction false} ShortDecodes(b: Text)
    requires 1 <= |b| <= 2
    ensures Decode64(Encode64(b)) == Some(b)
  {
    var v0, v1, v2, v3 := EncodeShape(b);
    DecodePadded(v0, v1, v2);
    assert b == if |b| == 1 then [b[0]] else [b[0], b[1]];
  }

  lemma {:induction false} ThreeOctets(o0: Octet, o1: Octet, o2: Octet, v0: int, v1: int, v2: int, v3: int, rest: Text)
    requires 0 <= v0 < 64 && 0 <= v1 < 64 && 0 <= v2 < 64 && 0 <= v3 < 64
    requires o0 as int == v0 * 4 + v1 / 16 && o1 as int == v1 % 16 * 16 + v2 / 4 && o2 as int == v2 % 4 * 64 + v3
    requires Decode64(rest).Some?
    ensures Decode64([Letter(v0), Letter(v1), Letter(v2), Letter(v3)] + rest)
         == Some([o0, o1, o2] + Decode64(rest).value)
  {
    DecodeFull(v0, v1, v2, v3, rest);
  }

  lemma {:induction false} QuantumDecodes(b: Text)
    requires |b| > 2 && Decode64(Encode64(b[3..])) == Some(b[3..])
    ensures Decode64(Encode64(b)) == Some([b[0], b[1], b[2]] + b[3..])
  {
    var v0, v1, v2, v3 := EncodeShape(b);
    ThreeOctets(b[0], b[1], b[2], v0, v1, v2, v3, Encode64(b[3..]));
  }

  lemma {:induction false} DecodeEncode64(b: Text)
    ensures Decode64(Encode64(b)) == Some(b)
    decreases |b|
  {
    if |b| > 2 {
      DecodeEncode64(b[3..]);
      QuantumDecodes(b);
      assert b == [b[0], b[1], b[2]] + b[3..];
    } else if b != [] {
      ShortDecodes(b);
    }
  }

  function Itoa(n: nat): (s: Text)
    ensures s != []
  {
    if n < 10 then [(n + 48) as Octet] else Itoa(n / 10) + [(n % 10 + 48) as Octet]
  }

  /** Decimal digits, and nothing else. */
  function Digits(s: Text): Option<nat>
  {
    if s == [] || !(48 <= s[|s| - 1] <= 57) then None
    else
      var d := s[|s| - 1] as int - 48;
      if |s| == 1 then Some(d)
      else
        var head := Digits(s[..|s| - 1]);
        if head.None? then None else Some(head.value * 10 + d)
  }

  lemma {:induction false} DigitsItoa(n: nat)
    ensures Digits(Itoa(n)) == Some(n)
  {
    if n >= 10 {
      DigitsItoa(n / 10);
      var s := Itoa(n);
      assert s[..|s| - 1] == Itoa(n / 10);
    }
  }

  /** A sign may come first. */
  function Atoi(s: Text): (n: Option<int>)
    ensures n.Some? ==> -MAX_INT <= n.value <= MAX_INT
  {
    var signed := s != [] && (s[0] == 43 || s[0] == 45);
    var n := Digits(if signed then s[1..] else s);
    if n.None? || n.value > MAX_INT then None
    else if signed && s[0] == 45 then Some(-(n.value as int)) else Some(n.value as int)
  }

  lemma {:induction false} ItoaUnsigned(n: nat)
    ensures 48 <= Itoa(n)[0] <= 57
  {
    if n >= 10 {
      ItoaUnsigned(n / 10);
    }
  }

  function EncodeCursor(offset: nat): Text
  {
    Encode64(Itoa(offset))
  }

  /** Anything that is not a cursor reads as the first page. */
  function DecodeCursor(raw: Text): nat
  {
    var decoded := Decode64(raw);
    if decoded.None? then 0
    else
      var n := Atoi(decoded.value);
      if n.None? || n.value < 0 then 0 else n.value
  }

  lemma {:induction false} CursorRoundTrip(offset: nat)
    requires offset <= MAX_INT
    ensures DecodeCursor(EncodeCursor(offset)) == offset
  {
    DecodeEncode64(Itoa(offset));
    DigitsItoa(offset);
    ItoaUnsigned(offset);
  }

  /** A byte of base64: A-Z a-z 0-9 + / or the padding. */
  predicate InAlphabet(c: Octet)
  {
    65 <= c <= 90 || 97 <= c <= 122 || 48 <= c <= 57 || c == 43 || c == 47 || c == 61
  }

  lemma {:induction false} DecodesWhole(s: Text)
    requires Decode64(s).Some?
    ensures |s| % 4 == 0 && forall k :: 0 <= k < |s| ==> InAlphabet(s[k])
    decreases |s|
  {
    if |s| > 4 || (|s| == 4 && Decode64(s[4..]).Some?) {
      DecodesWhole(s[4..]);
      assert forall k :: 4 <= k < |s| ==> s[k] == s[4..][k - 4];
    }
  }

  lemma {:induction false} DigitsAre(s: Text)
    ensures Digits(s).Some? <==> s != [] && forall k :: 0 <= k < |s| ==> 48 <= s[k] <= 57
  {
    if |s| > 1 {
      DigitsAre(s[..|s| - 1]);
    }
  }

  /** What leads anywhere but to the first page is whole quanta of base64, of decimal digits with a plus sign
      before them or none, and within the width of an int. */
  lemma {:induction false} NotACursor(raw: Text)
    requires DecodeCursor(raw) != 0
    ensures DecodeCursor(raw) <= 0x7FFF_FFFF_FFFF_FFFF
    ensures |raw| % 4 == 0 && forall k :: 0 <= k < |raw| ==> InAlphabet(raw[k])
    ensures Decode64(raw).Some?
    ensures var t := Decode64(raw).value;
      && t != [] && (t[0] == 43 || 48 <= t[0] <= 57)
      && forall k :: 1 <= k < |t| ==> 48 <= t[k] <= 57
  {
    DecodesWhole(raw);
    var t := Decode64(raw).value;
    DigitsAre(t);
    if t != [] {
      DigitsAre(t[1..]);
      assert forall k :: 1 <= k < |t| ==> t[k] == t[1..][k - 1];
    }
  }
}
