/** The snippet around a search hit: so many characters on each side, though the text is bytes. A byte
    window is cut first and then narrowed; that never costs a character, in malformed text either. */
module Snippet {
  import opened ByteStrings
  import opened CleanText
  import opened Options

  const MARK: Text := [0xe2, 0x80, 0xa6]

  // Counting in characters

  function Runes(s: Text): nat
    decreases |s|
  {
    if s == [] then 0 else 1 + Runes(s[DecodeLen(s)..])
  }

  function First(s: Text, n: nat): Text
    decreases n
  {
    if n == 0 || s == [] then [] else s[..DecodeLen(s)] + First(s[DecodeLen(s)..], n - 1)
  }

  function Drop(s: Text, n: nat): Text
    decreases n
  {
    if n == 0 || s == [] then s else Drop(s[DecodeLen(s)..], n - 1)
  }

  function Last(s: Text, n: nat): Text
  {
    if Runes(s) <= n then s else Drop(s, Runes(s) - n)
  }

  /** Decoding the text from its start comes to this place. */
  ghost predicate Boundary(s: Text, i: nat)
    decreases |s|
  {
    i == 0 || (s != [] && DecodeLen(s) <= i <= |s| && Boundary(s[DecodeLen(s)..], i - DecodeLen(s)))
  }

  lemma {:induction false} FirstRune(s: Text, i: nat)
    requires 0 < i <= |s|
    ensures RuneLen(s[..i]) > 0 ==> RuneLen(s) == RuneLen(s[..i])
    ensures 0 < RuneLen(s) <= i ==> RuneLen(s[..i]) == RuneLen(s)
  {
  }

  lemma {:induction false} Slices(s: Text, n: nat, i: nat)
    requires n <= i <= |s|
    ensures s[n..][..i - n] == s[..i][n..] && s[n..][i - n..] == s[i..]
    ensures s[..i][..n] == s[..n]
  {
  }

  /** Past the first character, a boundary is still one. */
  lemma {:induction false} BoundaryOn(s: Text, i: nat)
    requires Boundary(s, i) && i > 0
    ensures s != [] && DecodeLen(s) <= i <= |s| && DecodeLen(s[..i]) == DecodeLen(s)
    ensures Boundary(s[DecodeLen(s)..], i - DecodeLen(s))
    ensures s[DecodeLen(s)..][..i - DecodeLen(s)] == s[..i][DecodeLen(s)..]
    ensures s[DecodeLen(s)..][i - DecodeLen(s)..] == s[i..]
  {
    FirstRune(s, i);
    Slices(s, DecodeLen(s), i);
  }

  lemma {:induction false} BoundaryFits(s: Text, i: nat)
    requires Boundary(s, i)
    ensures i <= |s|
  {
  }

  /** What comes before the boundary is one character and what comes before it in the rest. */
  lemma {:induction false} BoundaryBefore(s: Text, i: nat, rest: Text, j: nat)
    requires 0 < i <= |s| && Boundary(s, i)
    requires rest == s[DecodeLen(s)..] && j == i - DecodeLen(s)
    ensures j <= |rest| && Boundary(rest, j) && rest[j..] == s[i..]
    ensures Runes(s) == 1 + Runes(rest) && Runes(s[..i]) == 1 + Runes(rest[..j])
    ensures s[..i] != [] && DecodeLen(s[..i]) == DecodeLen(s)
    ensures s[..i][DecodeLen(s)..] == rest[..j] && s[..i][..DecodeLen(s)] == s[..DecodeLen(s)]
  {
    BoundaryOn(s, i);
    Slices(s, DecodeLen(s), i);
    BoundaryFits(rest, j);
  }

  lemma {:induction false} RunesSplit(s: Text, i: nat)
    requires i <= |s| && Boundary(s, i)
    ensures Runes(s) == Runes(s[..i]) + Runes(s[i..])
    decreases |s|
  {
    if i == 0 {
      assert s[0..] == s;
    } else {
      BoundaryOn(s, i);
      var rest, j := s[DecodeLen(s)..], i - DecodeLen(s);
      BoundaryBefore(s, i, rest, j);
      RunesSplit(rest, j);
    }
  }

  lemma {:induction false} FirstSplit(s: Text, i: nat, n: nat)
    requires i <= |s| && Boundary(s, i) && Runes(s[..i]) >= n
    ensures First(s, n) == First(s[..i], n)
    decreases |s|
  {
    if i > 0 && n > 0 {
      BoundaryOn(s, i);
      var rest, j := s[DecodeLen(s)..], i - DecodeLen(s);
      BoundaryBefore(s, i, rest, j);
      FirstSplit(rest, j, n - 1);
    }
  }

  /** The characters before a boundary dropped, what is left begins there. */
  lemma {:induction false} DropTo(s: Text, i: nat)
    requires i <= |s| && Boundary(s, i)
    ensures Drop(s, Runes(s[..i])) == s[i..]
    decreases |s|
  {
    if i == 0 {
      assert s[0..] == s;
    } else {
      BoundaryOn(s, i);
      var rest, j := s[DecodeLen(s)..], i - DecodeLen(s);
      BoundaryBefore(s, i, rest, j);
      DropTo(rest, j);
    }
  }

  lemma {:induction false} DropTwice(s: Text, n: nat, m: nat)
    ensures Drop(Drop(s, n), m) == Drop(s, n + m)
    decreases n
  {
    if n > 0 && s != [] {
      DropTwice(s[DecodeLen(s)..], n - 1, m);
    }
  }

  lemma {:induction false} DropSplit(s: Text, i: nat, n: nat)
    requires i <= |s| && Boundary(s, i) && Runes(s[..i]) <= n
    ensures Drop(s, n) == Drop(s[i..], n - Runes(s[..i]))
  {
    DropTo(s, i);
    DropTwice(s, Runes(s[..i]), n - Runes(s[..i]));
  }

  lemma {:induction false} LastSplit(s: Text, i: nat, n: nat)
    requires i <= |s| && Boundary(s, i) && Runes(s[i..]) >= n
    ensures Last(s, n) == Last(s[i..], n)
  {
    RunesSplit(s, i);
    if Runes(s) <= n {
      NoRunes(s[..i]);
      assert s[0..] == s;
    } else {
      DropSplit(s, i, Runes(s) - n);
    }
  }

  lemma {:induction false} NoRunes(s: Text)
    ensures Runes(s) == 0 <==> s == []
  {
  }

  lemma {:induction false} DropShorter(s: Text, n: nat)
    ensures |Drop(s, n)| <= |s| && (n > 0 && s != [] ==> |Drop(s, n)| < |s|)
    decreases n
  {
    if n > 0 && s != [] {
      DropShorter(s[DecodeLen(s)..], n - 1);
    }
  }

  /** A character takes four bytes at most. */
  lemma {:induction false} FourBytes(s: Text)
    ensures |s| <= 4 * Runes(s)
    decreases |s|
  {
    if s != [] {
      FourBytes(s[DecodeLen(s)..]);
    }
  }

  /** A byte that does not continue a character is a boundary, whatever is before it. */
  lemma {:induction false} Aligned(s: Text, i: nat)
    requires i <= |s| && (i == |s| || !Cont(s[i]))
    ensures Boundary(s, i)
    decreases |s|
  {
    if i > 0 {
      var n := DecodeLen(s);
      assert i >= n;
      var rest := s[n..];
      assert i < |s| ==> rest[i - n] == s[i];
      Aligned(rest, i - n);
    }
  }

  /** So is the end of a stretch of valid UTF-8. */
  lemma {:induction false} ValidAfter(s: Text, i: nat)
    requires i <= |s| && ValidUtf8(s[..i])
    ensures Boundary(s, i)
    decreases |s|
  {
    if i > 0 {
      FirstRune(s, i);
      Slices(s, RuneLen(s), i);
      ValidAfter(s[RuneLen(s)..], i - RuneLen(s));
    }
  }

  // The hit

  function Lower(c: Byte): Byte
  {
    if 0x41 <= c <= 0x5a then c + 0x20 else c
  }

  predicate MatchAt(s: Text, needle: Text, i: nat)
  {
    i + |needle| <= |s| && forall j :: 0 <= j < |needle| ==> Lower(s[i + j]) == needle[j]
  }

  /** Byte by byte: the same, but for a capital letter of ASCII where the needle has the small one. */
  lemma {:induction false} MatchIs(s: Text, needle: Text, i: nat)
    ensures MatchAt(s, needle, i)
       <==> && i + |needle| <= |s|
            && forall j :: 0 <= j < |needle| ==>
                 || (s[i + j] == needle[j] && (needle[j] < 0x41 || needle[j] > 0x5a))
                 || (0x61 <= needle[j] <= 0x7a && s[i + j] == needle[j] - 0x20)
  {
    if MatchAt(s, needle, i) {
      assert forall j :: 0 <= j < |needle| ==> Lower(s[i + j]) == needle[j];
    }
  }

  ghost predicate FirstMatch(s: Text, needle: Text, i: nat)
  {
    MatchAt(s, needle, i) && forall k: nat :: k < i ==> !MatchAt(s, needle, k)
  }

  ghost predicate NoMatch(s: Text, needle: Text)
  {
    forall k: nat :: !MatchAt(s, needle, k)
  }

  /** IndexFold: the first place where the needle is, whatever the case of its ASCII letters. */
  method IndexFold(s: Text, needle: Text) returns (at: Option<nat>)
    ensures at.Some? ==> FirstMatch(s, needle, at.value)
    ensures at.None? ==> NoMatch(s, needle)
  {
    if |needle| == 0 {
      return Some(0);
    }
    var i := 0;
    while i + |needle| <= |s|
      invariant forall k: nat :: k < i ==> !MatchAt(s, needle, k)
    {
      var j := 0;
      while j < |needle| && Lower(s[i + j]) == needle[j]
        invariant 0 <= j <= |needle|
        invariant forall k :: 0 <= k < j ==> Lower(s[i + k]) == needle[k]
      {
        j := j + 1;
      }
      if j == |needle| {
        return Some(i);
      }
      i := i + 1;
    }
    return None;
  }

  lemma {:induction false} FoldedRune(a: Text, b: Text)
    requires |a| == |b| && forall j :: 0 <= j < |a| ==> Lower(a[j]) == b[j]
    ensures RuneLen(a) == RuneLen(b)
  {
    assert |a| > 0 ==> Lower(a[0]) == b[0];
    assert |a| > 1 ==> Lower(a[1]) == b[1];
    assert |a| > 2 ==> Lower(a[2]) == b[2];
    assert |a| > 3 ==> Lower(a[3]) == b[3];
  }

  /** Folding the case of ASCII letters changes no character's length. */
  lemma {:induction false} FoldedRunes(a: Text, b: Text)
    requires |a| == |b| && (forall j :: 0 <= j < |a| ==> Lower(a[j]) == b[j]) && ValidUtf8(b)
    ensures ValidUtf8(a) && Runes(a) == Runes(b)
    decreases |a|
  {
    if a != [] {
      FoldedRune(a, b);
      var n := RuneLen(a);
      assert forall j :: 0 <= j < |a| - n ==> a[n..][j] == a[n + j] && b[n..][j] == b[n + j];
      FoldedRunes(a[n..], b[n..]);
    }
  }

  /** The bytes of a hit are as many characters as the needle has. */
  lemma {:induction false} HitRunes(s: Text, needle: Text, i: nat)
    requires ValidUtf8(needle) && MatchAt(s, needle, i)
    ensures ValidUtf8(s[i..][..|needle|]) && Runes(s[i..][..|needle|]) == Runes(needle)
  {
    var hit := s[i..][..|needle|];
    assert forall j :: 0 <= j < |needle| ==> hit[j] == s[i + j];
    FoldedRunes(hit, needle);
  }

  /** A hit begins and ends between characters. */
  lemma {:induction false} HitBoundaries(s: Text, needle: Text, i: nat)
    requires ValidUtf8(needle) && MatchAt(s, needle, i) && (needle == [] ==> i == 0)
    ensures Boundary(s, i) && Boundary(s[i..], |needle|)
  {
    if needle != [] {
      assert Lower(s[i]) == needle[0];
      Aligned(s, i);
    }
    HitRunes(s, needle, i);
    ValidAfter(s[i..], |needle|);
  }

  // The trims

  lemma {:induction false} RestAfter(s: Text, i: nat)
    requires i < |s|
    ensures var size := DecodeLen(s[i..]);
      i + size <= |s| && s[i..][size..] == s[i + size..] && s[..i + size] == s[..i] + s[i..][..size]
  {
  }

  /** Where the character after the one at i begins. */
  function Next(s: Text, i: nat): (j: nat)
    requires i < |s|
    ensures i < j <= |s|
  {
    i + DecodeLen(s[i..])
  }

  /** So many characters are still to be dropped from i on, and what is left then is `all`. */
  ghost predicate ToDrop(s: Text, i: nat, drop: int, all: Text)
  {
    i <= |s| && drop >= 0 && Drop(s[i..], drop) == all
  }

  lemma {:induction false} DropOnce(s: Text, rest: Text, n: nat)
    requires s != [] && n > 0 && rest == s[DecodeLen(s)..]
    ensures Drop(s, n) == Drop(rest, n - 1)
  {
  }

  lemma {:induction false} DropNext(s: Text, i: nat, drop: int, all: Text)
    requires i < |s| && ToDrop(s, i, drop, all) && drop > 0
    ensures ToDrop(s, Next(s, i), drop - 1, all)
  {
    RestAfter(s, i);
    DropOnce(s[i..], s[Next(s, i)..], drop);
  }

  lemma {:induction false} DropEnds(s: Text, i: nat, drop: int, all: Text)
    requires ToDrop(s, i, drop, all) && (drop == 0 || i == |s|)
    ensures s[i..] == all
  {
  }

  lemma {:induction false} DropBegins(s: Text, n: nat)
    requires Runes(s) > n
    ensures ToDrop(s, 0, Runes(s) - n, Last(s, n))
  {
    assert s[0..] == s;
  }

  method TrimFromLeft(s: Text, n: nat) returns (r: Text)
    ensures r == Last(s, n)
  {
    var count := Runes(s);
    if count <= n {
      return s;
    }
    var drop, i := count - n, 0;
    ghost var all := Last(s, n);
    DropBegins(s, n);
    while i < |s|
      invariant ToDrop(s, i, drop, all)
    {
      if drop == 0 {
        DropEnds(s, i, drop, all);
        return s[i..];
      }
      DropNext(s, i, drop, all);
      drop, i := drop - 1, Next(s, i);
    }
    DropEnds(s, i, drop, all);
    return [];
  }

  /** With so many more characters from i on, what is kept is `all`. */
  ghost predicate ToKeep(s: Text, i: nat, more: int, all: Text)
  {
    i <= |s| && more >= 0 && s[..i] + First(s[i..], more) == all
  }

  lemma {:induction false} FirstOnce(s: Text, part: Text, rest: Text, n: nat)
    requires s != [] && n > 0 && part == s[..DecodeLen(s)] && rest == s[DecodeLen(s)..]
    ensures First(s, n) == part + First(rest, n - 1)
  {
  }

  lemma {:induction false} KeptMore(kept: Text, part: Text, rest: Text, first: Text, all: Text)
    requires kept + first == all && first == part + rest
    ensures (kept + part) + rest == all
  {
  }

  lemma {:induction false} KeepNext(s: Text, i: nat, more: int, all: Text)
    requires i < |s| && ToKeep(s, i, more, all) && more > 0
    ensures ToKeep(s, Next(s, i), more - 1, all)
  {
    var tail, part, rest := s[i..], s[i..Next(s, i)], s[Next(s, i)..];
    RestAfter(s, i);
    FirstOnce(tail, part, rest, more);
    KeptMore(s[..i], part, First(rest, more - 1), First(tail, more), all);
  }

  lemma {:induction false} KeepBegins(s: Text, n: nat)
    ensures ToKeep(s, 0, n, First(s, n))
  {
    assert s[0..] == s;
  }

  lemma {:induction false} KeepEnds(s: Text, i: nat, more: int, all: Text)
    requires ToKeep(s, i, more, all) && (more == 0 || i == |s|)
    ensures s[..i] == all
  {
    assert s[..i] + [] == s[..i];
  }

  method TrimFromRight(s: Text, n: nat) returns (r: Text)
    ensures r == First(s, n)
  {
    var count, i := 0, 0;
    ghost var all := First(s, n);
    KeepBegins(s, n);
    while i < |s|
      invariant 0 <= count <= n && ToKeep(s, i, n - count, all)
    {
      if count == n {
        KeepEnds(s, i, 0, all);
        return s[..i];
      }
      KeepNext(s, i, n - count, all);
      i, count := Next(s, i), count + 1;
    }
    KeepEnds(s, i, n - count, all);
    return s;
  }

  method Truncate(s: Text, limit: nat, mark: Text) returns (r: Text)
    ensures r == if Runes(s) <= limit then s else First(s, limit) + mark
  {
    if Runes(s) <= limit {
      return s;
    }
    var cut := TrimFromRight(s, limit);
    return cut + mark;
  }

  // The window

  /** What a snippet is meant to be, counted in characters throughout. */
  function Around(s: Text, needle: Text, i: nat, radius: nat): Text
    requires i <= |s|
  {
    Shown(s[..i], s[i..], radius, radius + Runes(needle))
  }

  /** The last characters of what is before, the first n of what comes after. */
  function Shown(before: Text, after: Text, radius: nat, n: nat): Text
  {
    Marked(Runes(before) > radius, Last(before, radius), First(after, n), Runes(after) > n)
  }

  /** Each end that something was cut off carries a mark. */
  function Marked(cutLeft: bool, head: Text, tail: Text, cutRight: bool): Text
  {
    (if cutLeft then MARK else []) + (head + tail) + (if cutRight then MARK else [])
  }

  /** What the byte window keeps on the left is what matters there. */
  lemma {:induction false} LeftOfHit(before: Text, lo: nat, radius: nat)
    requires lo <= |before| && (lo < |before| ==> !Cont(before[lo]) || lo == 0)
    requires lo > 0 ==> |before| - lo >= 4 * radius
    ensures Last(before[lo..], radius) == Last(before, radius)
    ensures (lo > 0 || |Last(before[lo..], radius)| < |before| - lo) <==> Runes(before) > radius
  {
    if lo == 0 {
      assert before[0..] == before;
      LastAll(before, radius);
    } else {
      Aligned(before, lo);
      FourBytes(before[lo..]);
      LastSplit(before, lo, radius);
      RunesSplit(before, lo);
      NoRunes(before[..lo]);
    }
  }

  lemma {:induction false} LastAll(s: Text, n: nat)
    ensures |Last(s, n)| < |s| <==> Runes(s) > n
  {
    if Runes(s) > n {
      DropShorter(s, Runes(s) - n);
    }
  }

  lemma {:induction false} FirstWhole(s: Text, n: nat)
    requires Runes(s) <= n
    ensures First(s, n) == s
    decreases n
  {
    if s != [] {
      FirstWhole(s[DecodeLen(s)..], n - 1);
    }
  }

  lemma {:induction false} FirstAll(s: Text, n: nat)
    ensures |First(s, n)| < |s| <==> Runes(s) > n
    decreases |s|
  {
    if n > 0 && s != [] {
      FirstAll(s[DecodeLen(s)..], n - 1);
    }
  }

  lemma {:induction false} RightOfHit(after: Text, hit: nat, hi: nat, radius: nat, n: nat)
    requires hit <= hi <= |after| && ValidUtf8(after[..hit])
    requires hi < |after| ==> hi - hit >= 4 * radius && !Cont(after[hi])
    requires n == radius + Runes(after[..hit])
    ensures First(after[..hi], n) == First(after, n)
    ensures (hi < |after| || |First(after[..hi], n)| < hi) <==> Runes(after) > n
  {
    if hi == |after| {
      assert after[..hi] == after;
      FirstAll(after, n);
    } else {
      Aligned(after, hi);
      EnoughRunes(after, hit, hi, radius);
      FirstSplit(after, hi, n);
      RunesSplit(after, hi);
      NoRunes(after[hi..]);
    }
  }

  lemma {:induction false} EnoughRunes(after: Text, hit: nat, hi: nat, radius: nat)
    requires hit <= hi <= |after| && ValidUtf8(after[..hit]) && hi - hit >= 4 * radius
    ensures Runes(after[..hi]) >= radius + Runes(after[..hit])
  {
    var shown := after[..hi];
    assert shown[..hit] == after[..hit];
    ValidAfter(shown, hit);
    RunesSplit(shown, hit);
    FourBytes(shown[hit..]);
  }

  /** A byte window four times the radius wide, moved out to where no character is cut. */
  ghost predicate WindowOf(text: Text, needle: Text, i: nat, lo: nat, hi: nat, radius: nat)
  {
    && MatchAt(text, needle, i) && (needle == [] ==> i == 0)
    && lo <= i && (lo > 0 ==> i - lo >= 4 * radius && (lo < |text| ==> !Cont(text[lo])))
    && i + |needle| <= hi <= |text| && (hi < |text| ==> hi - i - |needle| >= 4 * radius && !Cont(text[hi]))
  }

  /** What is kept of two stretches of bytes either side of the hit, of which the left one begins at lo
      and more text follows the right one if `more`. */
  function Kept(left: Text, right: Text, lo: nat, more: bool, radius: nat, n: nat): Text
  {
    var head, tail := Last(left, radius), First(right, n);
    Marked(lo > 0 || |head| < |left|, head, tail, more || |tail| < |right|)
  }

  function KeptOf(before: Text, after: Text, lo: nat, h: nat, radius: nat, n: nat): Text
    requires lo <= |before| && h <= |after|
  {
    Kept(before[lo..], after[..h], lo, h < |after|, radius, n)
  }

  /** The text either side of where the hit begins, and how much of it is in the byte window. */
  ghost predicate Sides(before: Text, after: Text, hit: nat, lo: nat, h: nat, radius: nat, n: nat)
  {
    && hit <= |after| && ValidUtf8(after[..hit]) && n == radius + Runes(after[..hit])
    && lo <= |before| && (lo > 0 && lo < |before| ==> !Cont(before[lo]))
    && (lo > 0 ==> |before| - lo >= 4 * radius)
    && hit <= h <= |after| && (h < |after| ==> h - hit >= 4 * radius && !Cont(after[h]))
  }

  lemma {:induction false} TwoSides(text: Text, needle: Text, i: nat, lo: nat, hi: nat, radius: nat)
    requires WindowOf(text, needle, i, lo, hi, radius)
    ensures |needle| <= hi - i <= |text[i..]| && |text[..i]| == i
    ensures hi - i < |text[i..]| ==> hi - i - |needle| >= 4 * radius && !Cont(text[i..][hi - i])
    ensures lo > 0 && lo < |text[..i]| ==> !Cont(text[..i][lo])
  {
  }

  /** What is cut from the byte window, `before` from lo on and `after` up to h, is what would be cut from
      the whole text. */
  lemma {:induction false} EnoughAround(before: Text, after: Text, hit: nat, lo: nat, h: nat, radius: nat, n: nat)
    requires Sides(before, after, hit, lo, h, radius, n)
    ensures KeptOf(before, after, lo, h, radius, n) == Shown(before, after, radius, n)
  {
    LeftOfHit(before, lo, radius);
    RightOfHit(after, hit, h, radius, n);
  }

  lemma {:induction false} WindowIsEnough(text: Text, needle: Text, i: nat, lo: nat, hi: nat, radius: nat, n: nat)
    returns (before: Text, after: Text)
    requires ValidUtf8(needle) && WindowOf(text, needle, i, lo, hi, radius)
    requires n == radius + Runes(needle)
    ensures before == text[..i] && after == text[i..]
    ensures lo <= i <= hi <= |text| && KeptOf(before, after, lo, hi - i, radius, n) == Shown(before, after, radius, n)
  {
    before, after := text[..i], text[i..];
    HitRunes(text, needle, i);
    TwoSides(text, needle, i, lo, hi, radius);
    EnoughAround(before, after, |needle|, lo, hi - i, radius, n);
  }

  lemma {:induction false} FirstUpTo(s: Text, i: nat)
    requires i <= |s| && Boundary(s, i)
    ensures First(s, Runes(s[..i])) == s[..i]
  {
    FirstSplit(s, i, Runes(s[..i]));
    FirstWhole(s[..i], Runes(s[..i]));
  }

  /** The hit itself is in its snippet, whole, after what is shown before it. */
  lemma {:induction false} HitIsShown(text: Text, needle: Text, i: nat, radius: nat)
    requires ValidUtf8(needle) && MatchAt(text, needle, i) && (needle == [] ==> i == 0)
    ensures text[i..][..|needle|] <= First(text[i..], radius + Runes(needle))
  {
    HitBoundaries(text, needle, i);
    HitRunes(text, needle, i);
    FirstUpTo(text[i..], |needle|);
    FirstMore(text[i..], Runes(needle), radius + Runes(needle));
  }

  lemma {:induction false} FirstMore(s: Text, n: nat, more: nat)
    requires n <= more
    ensures First(s, n) <= First(s, more)
    decreases n
  {
    if n > 0 && s != [] {
      FirstMore(s[DecodeLen(s)..], n - 1, more - 1);
    }
  }

  ghost predicate IsAround(text: Text, needle: Text, radius: nat, out: Text)
  {
    forall i: nat :: FirstMatch(text, needle, i) ==> out == Around(text, needle, i, radius)
  }

  /** SnippetAround, from cleaned text on: around the first hit, so many characters on each side and no
      fewer; without one, the beginning of the text. */
  method SnippetAround(text: Text, needle: Text, radius: nat) returns (out: Text)
    ensures ValidUtf8(needle) ==> IsAround(text, needle, radius, out)
    ensures NoMatch(text, needle) ==> out == if Runes(text) <= radius * 2 then text else First(text, radius * 2) + MARK
  {
    var found := IndexFold(text, needle);
    if found.None? {
      out := Truncate(text, radius * 2, MARK);
      return;
    }
    var idx := found.value;
    assert needle == [] ==> MatchAt(text, needle, 0);
    var lo, hi := OpenWindow(text, needle, idx, radius);
    out := CutOut(text, idx, lo, hi, radius, radius + Runes(needle));
    CutIsAround(text, needle, idx, lo, hi, radius, out);
  }

  lemma {:induction false} CutIsAround(text: Text, needle: Text, i: nat, lo: nat, hi: nat, radius: nat, out: Text)
    requires FirstMatch(text, needle, i) && WindowOf(text, needle, i, lo, hi, radius)
    requires out == KeptOf(text[..i], text[i..], lo, hi - i, radius, radius + Runes(needle))
    ensures !NoMatch(text, needle)
    ensures ValidUtf8(needle) ==> IsAround(text, needle, radius, out)
  {
    if ValidUtf8(needle) {
      var before, after := WindowIsEnough(text, needle, i, lo, hi, radius, radius + Runes(needle));
      FoundAround(text, needle, i, radius, out);
    }
  }

  /** What of the byte window is kept, marked where something was cut. */
  method CutOut(text: Text, idx: nat, lo: nat, hi: nat, radius: nat, n: nat) returns (out: Text)
    requires lo <= idx <= hi <= |text|
    ensures out == KeptOf(text[..idx], text[idx..], lo, hi - idx, radius, n)
  {
    var head := TrimFromLeft(text[lo..idx], radius);
    var tail := TrimFromRight(text[idx..hi], n);
    out := head + tail;
    if lo > 0 || |head| < idx - lo {
      out := MARK + out;
    }
    if hi < |text| || |tail| < hi - idx {
      out := out + MARK;
    }
    MarkedIs(lo > 0 || |head| < idx - lo, head, tail, hi < |text| || |tail| < hi - idx, out);
    SameStretches(text, idx, lo, hi, radius, n);
  }

  lemma {:induction false} MarkedIs(cutLeft: bool, head: Text, tail: Text, cutRight: bool, out: Text)
    requires out == (if cutLeft then MARK + (head + tail) else head + tail) + (if cutRight then MARK else [])
    ensures out == Marked(cutLeft, head, tail, cutRight)
  {
  }

  lemma {:induction false} SameStretches(text: Text, idx: nat, lo: nat, hi: nat, radius: nat, n: nat)
    requires lo <= idx <= hi <= |text|
    ensures KeptOf(text[..idx], text[idx..], lo, hi - idx, radius, n)
         == Kept(text[lo..idx], text[idx..hi], lo, hi < |text|, radius, n)
  {
    assert text[..idx][lo..] == text[lo..idx] && text[idx..][..hi - idx] == text[idx..hi];
  }

  lemma {:induction false} FoundAround(text: Text, needle: Text, idx: nat, radius: nat, out: Text)
    requires FirstMatch(text, needle, idx) && out == Around(text, needle, idx, radius)
    ensures IsAround(text, needle, radius, out)
  {
    forall i: nat | FirstMatch(text, needle, i) ensures i == idx {
      assert MatchAt(text, needle, i) && MatchAt(text, needle, idx);
    }
  }

  /** Its byte window. */
  method OpenWindow(text: Text, needle: Text, idx: nat, radius: nat) returns (lo: nat, hi: nat)
    requires MatchAt(text, needle, idx) && (needle == [] ==> idx == 0)
    ensures WindowOf(text, needle, idx, lo, hi, radius)
  {
    lo := if idx < radius * 4 then 0 else idx - radius * 4;
    hi := if idx + |needle| + radius * 4 > |text| then |text| else idx + |needle| + radius * 4;
    while lo > 0 && Cont(text[lo])
      invariant 0 <= lo <= idx && (lo > 0 ==> idx - lo >= radius * 4)
    {
      lo := lo - 1;
    }
    while hi < |text| && Cont(text[hi])
      invariant idx + |needle| <= hi <= |text| && (hi < |text| ==> hi - idx - |needle| >= radius * 4)
    {
      hi := hi + 1;
    }
  }
}
