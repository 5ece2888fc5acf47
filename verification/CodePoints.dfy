/** Text as the characters it encodes, by the definition of UTF-8 in section 3 of RFC 3629: the reference for what
    is well formed, and for what counting in characters counts. */
module CodePoints {
  import opened ByteStrings
  import opened CleanText
  import opened Snippet

  predicate IsScalar(c: int)
  {
    0 <= c < 0xd800 || 0xe000 <= c < 0x11_0000
  }

  function Encoding(c: int): (s: Text)
    requires IsScalar(c)
    ensures 1 <= |s| <= 4
  {
    if c < 0x80 then [c as Byte]
    else if c < 0x800 then [(0xc0 + c / 64) as Byte, (0x80 + c % 64) as Byte]
    else if c < 0x1_0000 then
      [(0xe0 + c / 4096) as Byte, (0x80 + c / 64 % 64) as Byte, (0x80 + c % 64) as Byte]
    else
      [(0xf0 + c / 262144) as Byte, (0x80 + c / 4096 % 64) as Byte, (0x80 + c / 64 % 64) as Byte,
       (0x80 + c % 64) as Byte]
  }

  /** What tells the longer encodings from overlong ones, from surrogates and from numbers too large. */
  lemma {:induction false} LeadBytes(c: int)
    requires IsScalar(c)
    ensures 0x80 <= c < 0x800 ==> 2 <= c / 64 < 32
    ensures 0x800 <= c < 0x1_0000 ==>
              0 <= c / 4096 < 16 && (c / 4096 == 0 ==> c / 64 % 64 >= 32) && (c / 4096 == 13 ==> c / 64 % 64 < 32)
    ensures 0x1_0000 <= c ==>
              && 0 <= c / 262144 <= 4
              && (c / 262144 == 0 ==> c / 4096 % 64 >= 16) && (c / 262144 == 4 ==> c / 4096 % 64 < 16)
  {
  }

  /** A sequence is told by its own bytes. */
  lemma {:induction false} OnlyFirst(e: Text, rest: Text)
    requires e != [] && RuneLen(e) == |e|
    ensures RuneLen(e + rest) == |e|
  {
  }

  function Low(b: Byte): int
  {
    b as int % 64
  }

  /** The character that a well-formed sequence of bytes stands for. */
  lemma {:induction false} CharacterAt(s: Text) returns (c: int)
    requires RuneLen(s) > 0
    ensures IsScalar(c) && s[..RuneLen(s)] == Encoding(c)
  {
    match RuneLen(s)
    case 1 => c := s[0] as int;
    case 2 => c := CharacterOfTwo(s);
    case 3 => c := CharacterOfThree(s);
    case _ => c := CharacterOfFour(s);
  }

  lemma {:induction false} CharacterOfTwo(s: Text) returns (c: int)
    requires RuneLen(s) == 2
    ensures IsScalar(c) && s[..2] == Encoding(c)
  {
    c := (s[0] as int - 0xc0) * 64 + Low(s[1]);
  }

  lemma {:induction false} CharacterOfThree(s: Text) returns (c: int)
    requires RuneLen(s) == 3
    ensures IsScalar(c) && s[..3] == Encoding(c)
  {
    var a, b, d := s[0] as int - 0xe0, Low(s[1]), Low(s[2]);
    c := (a * 64 + b) * 64 + d;
    ThreeBytes(a, b, d, c);
  }

  lemma {:induction false} CharacterOfFour(s: Text) returns (c: int)
    requires RuneLen(s) == 4
    ensures IsScalar(c) && s[..4] == Encoding(c)
  {
    var a, b, d, e := s[0] as int - 0xf0, Low(s[1]), Low(s[2]), Low(s[3]);
    c := ((a * 64 + b) * 64 + d) * 64 + e;
    FourBytes64(a, b, d, e, c);
  }

  lemma {:induction false} ThreeBytes(a: int, b: int, d: int, c: int)
    requires 0 <= a < 16 && 0 <= b < 64 && 0 <= d < 64 && c == (a * 64 + b) * 64 + d
    ensures c / 4096 == a && c / 64 % 64 == b && c % 64 == d
  {
    assert c / 64 == a * 64 + b;
  }

  lemma {:induction false} FourBytes64(a: int, b: int, d: int, e: int, c: int)
    requires 0 <= a < 8 && 0 <= b < 64 && 0 <= d < 64 && 0 <= e < 64 && c == ((a * 64 + b) * 64 + d) * 64 + e
    ensures c / 262144 == a && c / 4096 % 64 == b && c / 64 % 64 == d && c % 64 == e
  {
    assert c / 64 == (a * 64 + b) * 64 + d;
    assert c / 4096 == a * 64 + b;
  }

  /** The bytes of one character. */
  predicate IsRune(r: Text)
  {
    r != [] && RuneLen(r) == |r|
  }

  /** They are those that encode a Unicode scalar value. */
  lemma {:induction false} RuneIs(r: Text)
    ensures IsRune(r) <==> exists c: int :: IsScalar(c) && Encoding(c) == r
  {
    if IsRune(r) {
      var c := CharacterAt(r);
      assert r[..|r|] == r;
    }
    if c: int :| IsScalar(c) && Encoding(c) == r {
      LeadBytes(c);
    }
  }

  lemma {:induction false} EllipsisIs()
    ensures IsScalar(0x2026) && Encoding(0x2026) == MARK
  {
  }

  // Texts as sequences of characters

  predicate AllRunes(rs: seq<Text>)
  {
    forall i :: 0 <= i < |rs| ==> IsRune(rs[i])
  }

  function Join(rs: seq<Text>): Text
  {
    if rs == [] then [] else rs[0] + Join(rs[1..])
  }

  lemma {:induction false} JoinFront(rs: seq<Text>, s: Text, n: nat)
    requires AllRunes(rs) && rs != [] && s == Join(rs) && n == |rs[0]|
    ensures 1 <= n <= |s| && RuneLen(s) == n && DecodeLen(s) == n
    ensures s[..n] == rs[0] && s[n..] == Join(rs[1..])
  {
    OnlyFirst(rs[0], Join(rs[1..]));
  }

  /** Well-formed UTF-8 is a sequence of characters. */
  lemma {:induction false} ValidIsJoined(s: Text)
    ensures ValidUtf8(s) <==> exists rs: seq<Text> :: AllRunes(rs) && Join(rs) == s
  {
    if ValidUtf8(s) {
      var rs := Characters(s);
    }
    if rs: seq<Text> :| AllRunes(rs) && Join(rs) == s {
      JoinIsValid(rs);
    }
  }

  lemma {:induction false} OneRune(s: Text, n: nat)
    requires n == RuneLen(s) > 0
    ensures IsRune(s[..n])
  {
  }

  lemma {:induction false} Characters(s: Text) returns (rs: seq<Text>)
    requires ValidUtf8(s)
    ensures AllRunes(rs) && Join(rs) == s
    decreases |s|
  {
    rs := [];
    if s != [] {
      var n := RuneLen(s);
      OneRune(s, n);
      var rest := Characters(s[n..]);
      rs := [s[..n]] + rest;
      assert rs[1..] == rest;
    }
  }

  lemma {:induction false} JoinIsValid(rs: seq<Text>)
    requires AllRunes(rs)
    ensures ValidUtf8(Join(rs))
  {
    if rs != [] {
      JoinFront(rs, Join(rs), |rs[0]|);
      JoinIsValid(rs[1..]);
    }
  }

  /** What is counted are the characters. */
  lemma {:induction false} RunesAre(rs: seq<Text>)
    requires AllRunes(rs)
    ensures Runes(Join(rs)) == |rs|
  {
    if rs != [] {
      JoinFront(rs, Join(rs), |rs[0]|);
      RunesAre(rs[1..]);
    }
  }

  function LastOf(rs: seq<Text>, n: nat): seq<Text>
  {
    if |rs| < n then rs else rs[|rs| - n..]
  }

  function FirstOf(rs: seq<Text>, n: nat): seq<Text>
  {
    if |rs| < n then rs else rs[..n]
  }

  function Without(rs: seq<Text>, n: nat): seq<Text>
  {
    if |rs| < n then [] else rs[n..]
  }

  lemma {:induction false} FirstStep(rs: seq<Text>, n: nat)
    requires rs != [] && n > 0
    ensures Join(FirstOf(rs, n)) == rs[0] + Join(FirstOf(rs[1..], n - 1))
    ensures Without(rs, n) == Without(rs[1..], n - 1)
  {
    assert FirstOf(rs, n)[0] == rs[0] && FirstOf(rs, n)[1..] == FirstOf(rs[1..], n - 1);
  }

  /** The first characters, and what is left without them. */
  lemma {:induction false} FirstAre(rs: seq<Text>, n: nat)
    requires AllRunes(rs)
    ensures First(Join(rs), n) == Join(FirstOf(rs, n)) && Drop(Join(rs), n) == Join(Without(rs, n))
  {
    if n == 0 {
      assert rs[..0] == [] && rs[0..] == rs;
    } else if rs != [] {
      JoinFront(rs, Join(rs), |rs[0]|);
      FirstAre(rs[1..], n - 1);
      FirstStep(rs, n);
    }
  }

  lemma {:induction false} LastAre(rs: seq<Text>, n: nat)
    requires AllRunes(rs)
    ensures Last(Join(rs), n) == Join(LastOf(rs, n))
  {
    RunesAre(rs);
    if |rs| > n {
      FirstAre(rs, |rs| - n);
    } else {
      assert |rs| == n ==> rs[0..] == rs;
    }
  }

  lemma {:induction false} ShownAre(before: seq<Text>, after: seq<Text>, radius: nat, n: nat)
    requires AllRunes(before) && AllRunes(after)
    ensures Shown(Join(before), Join(after), radius, n)
         == (if |before| > radius then [0xe2, 0x80, 0xa6] else [])
            + (Join(LastOf(before, radius)) + Join(FirstOf(after, n)))
            + (if |after| > n then [0xe2, 0x80, 0xa6] else [])
  {
    RunesAre(before);
    RunesAre(after);
    LastAre(before, radius);
    FirstAre(after, n);
  }

  lemma {:induction false} Sides(text: Text, a: Text, b: Text)
    requires text == a + b
    ensures text[..|a|] == a && text[|a|..] == b
  {
  }

  /** A snippet in characters: the last ones before the hit, the hit and the first ones after it, and an ellipsis
      at either end where the text goes on. */
  lemma {:induction false} AroundIs(text: Text, before: seq<Text>, after: seq<Text>, needle: seq<Text>, radius: nat)
    requires AllRunes(before) && AllRunes(after) && AllRunes(needle)
    requires text == Join(before) + Join(after)
    ensures Around(text, Join(needle), |Join(before)|, radius)
         == (if |before| > radius then [0xe2, 0x80, 0xa6] else [])
            + (Join(LastOf(before, radius)) + Join(FirstOf(after, radius + |needle|)))
            + (if |after| > radius + |needle| then [0xe2, 0x80, 0xa6] else [])
  {
    Sides(text, Join(before), Join(after));
    RunesAre(needle);
    ShownAre(before, after, radius, radius + |needle|);
  }
}
