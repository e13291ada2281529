/** Cutting a report at a byte budget without leaving half a character at the seam. */
module Utf8Cut {

  type Byte = b: nat | b < 256

  type Text = seq<Byte>

  // --- UTF-8 ------------------------------------------------------------------

  predicate Tail(b: Byte) {
    0x80 <= b <= 0xBF
  }

  /** The length of the character `s` begins with, by the grammar of section 4 of
      RFC 3629; 0 when there is none. */
  function RuneSize(s: Text): (n: nat)
    ensures n <= |s| && n <= 4
  {
    if s == [] then 0
    else
      var a := s[0];
      if a < 0x80 then 1
      else if 0xC2 <= a <= 0xDF then
        if |s| >= 2 && Tail(s[1]) then 2 else 0
      else if 0xE0 <= a <= 0xEF then
        var low := if a == 0xE0 then 0xA0 else 0x80;
        var high := if a == 0xED then 0x9F else 0xBF;
        if |s| >= 3 && low <= s[1] <= high && Tail(s[2]) then 3 else 0
      else if 0xF0 <= a <= 0xF4 then
        var low := if a == 0xF0 then 0x90 else 0x80;
        var high := if a == 0xF4 then 0x8F else 0xBF;
        if |s| >= 4 && low <= s[1] <= high && Tail(s[2]) && Tail(s[3]) then 4 else 0
      else 0
  }

  predicate Valid(s: Text) {
    s == [] || (RuneSize(s) > 0 && Valid(s[RuneSize(s)..]))
  }

  /** The encoder of section 3 of RFC 3629. */
  function Encode(cp: nat): Text
    requires cp < 0x110000 && !(0xD800 <= cp <= 0xDFFF)
  {
    if cp < 0x80 then [cp]
    else if cp < 0x800 then [0xC0 + cp / 64, 0x80 + cp % 64]
    else if cp < 0x10000 then [0xE0 + cp / 4096, 0x80 + cp / 64 % 64, 0x80 + cp % 64]
    else [0xF0 + cp / 262144, 0x80 + cp / 4096 % 64, 0x80 + cp / 64 % 64, 0x80 + cp % 64]
  }

  /** The ranges of the second byte shut out overlong forms, surrogates and what lies
      beyond U+10FFFF. */
  lemma ThreeByteRanges(cp: nat)
    requires 0x800 <= cp < 0x10000 && !(0xD800 <= cp <= 0xDFFF)
    ensures cp / 4096 == 0 ==> cp / 64 % 64 >= 32
    ensures cp / 4096 == 13 ==> cp / 64 % 64 < 32
  {
    assert cp / 64 == cp / 4096 * 64 + cp / 64 % 64;
  }

  lemma FourByteRanges(cp: nat)
    requires 0x10000 <= cp < 0x110000
    ensures cp / 262144 <= 4
    ensures cp / 262144 == 0 ==> cp / 4096 % 64 >= 16
    ensures cp / 262144 == 4 ==> cp / 4096 % 64 < 16
  {
    assert cp / 4096 == cp / 262144 * 64 + cp / 4096 % 64;
  }

  lemma ThreeByteShape(s: Text)
    requires |s| >= 3 && 0xE0 <= s[0] <= 0xEF && Tail(s[1]) && Tail(s[2])
    requires (s[0] == 0xE0 ==> s[1] >= 0xA0) && (s[0] == 0xED ==> s[1] <= 0x9F)
    ensures RuneSize(s) == 3
  {
  }

  lemma FourByteShape(s: Text)
    requires |s| >= 4 && 0xF0 <= s[0] <= 0xF4 && Tail(s[1]) && Tail(s[2]) && Tail(s[3])
    requires (s[0] == 0xF0 ==> s[1] >= 0x90) && (s[0] == 0xF4 ==> s[1] <= 0x8F)
    ensures RuneSize(s) == 4
  {
  }

  /** The grammar reads back what the encoder writes, whatever follows. */
  lemma EncodedIsOneRune(cp: nat, rest: Text)
    requires cp < 0x110000 && !(0xD800 <= cp <= 0xDFFF)
    ensures RuneSize(Encode(cp) + rest) == |Encode(cp)|
  {
    var s := Encode(cp) + rest;
    if 0x800 <= cp < 0x10000 {
      ThreeByteRanges(cp);
      assert s[0] == 0xE0 + cp / 4096 && s[1] == 0x80 + cp / 64 % 64 && s[2] == 0x80 + cp % 64;
      ThreeByteShape(s);
    } else if cp >= 0x10000 {
      FourByteRanges(cp);
      assert s[0] == 0xF0 + cp / 262144 && s[1] == 0x80 + cp / 4096 % 64;
      assert s[2] == 0x80 + cp / 64 % 64 && s[3] == 0x80 + cp % 64;
      FourByteShape(s);
    }
  }

  predicate Encodes(s: Text, cp: nat) {
    cp < 0x110000 && !(0xD800 <= cp <= 0xDFFF) && s[..RuneSize(s)] == Encode(cp)
  }

  lemma ThreeBytesDecode(s: Text) returns (cp: nat)
    requires RuneSize(s) == 3
    ensures Encodes(s, cp)
  {
    var high := Shifted(s[0] - 0xE0, s[1] - 0x80);
    cp := Shifted(high, s[2] - 0x80);
    assert cp / 4096 == cp / 64 / 64;
    assert s[..3] == [s[0], s[1], s[2]];
  }

  lemma FourBytesDecode(s: Text) returns (cp: nat)
    requires RuneSize(s) == 4
    ensures Encodes(s, cp)
  {
    var high := Shifted(s[0] - 0xF0, s[1] - 0x80);
    var mid := Shifted(high, s[2] - 0x80);
    cp := Shifted(mid, s[3] - 0x80);
    assert cp / 4096 == cp / 64 / 64 && cp / 262144 == cp / 4096 / 64;
    assert s[..4] == [s[0], s[1], s[2], s[3]];
  }

  /** And nothing else does: what the grammar reads as a character is the encoding of one. */
  lemma GrammarIsTheEncoder(s: Text) returns (cp: nat)
    requires RuneSize(s) > 0
    ensures cp < 0x110000 && !(0xD800 <= cp <= 0xDFFF)
    ensures s[..RuneSize(s)] == Encode(cp)
  {
    if RuneSize(s) == 1 {
      cp := s[0];
    } else if RuneSize(s) == 2 {
      cp := Shifted(s[0] - 0xC0, s[1] - 0x80);
      assert s[..2] == [s[0], s[1]];
    } else if RuneSize(s) == 3 {
      cp := ThreeBytesDecode(s);
    } else {
      cp := FourBytesDecode(s);
    }
  }

  /** Six more bits. */
  lemma Shifted(high: nat, low: nat) returns (cp: nat)
    requires low < 64
    ensures cp == high * 64 + low && cp / 64 == high && cp % 64 == low
  {
    cp := high * 64 + low;
  }

  // --- The loop ---------------------------------------------------------------

  predicate RuneStart(b: Byte) {
    !Tail(b)
  }

  /** The search of `DecodeLastRune`: down from `i`, no further than `lim`. */
  function LastStart(s: Text, i: int, lim: nat): (r: int)
    requires -1 <= i < |s|
    ensures r >= -1 && r <= i
    ensures lim <= r ==> r >= 0 && RuneStart(s[r])
    ensures forall k :: r < k <= i && lim <= k ==> !RuneStart(s[k])
    ensures r < lim ==> r == i || r == lim as int - 1
    decreases i + 1
  {
    if i < lim || RuneStart(s[i]) then i else LastStart(s, i - 1, lim)
  }

  /** Whether the last rune decodes as an error of width at most one. */
  predicate BadTail(s: Text)
    requires s != []
  {
    var end := |s|;
    s[end - 1] >= 0x80 &&
    var lim := if end < 4 then 0 else end - 4;
    var found := LastStart(s, end - 2, lim);
    var start := if found < 0 then 0 else found;
    RuneSize(s[start..]) != end - start
  }

  /** What the loop leaves of `s`. */
  function Repaired(s: Text): Text {
    if s != [] && BadTail(s) then Repaired(s[..|s| - 1]) else s
  }

  method TruncateOutput(s: Text, max: nat, notice: Text) returns (out: Text)
    ensures out == if |s| <= max then s else Repaired(s[..max]) + notice
  {
    if |s| <= max {
      return s;
    }
    var cut := s[..max];
    while |cut| > 0
      invariant Repaired(cut) == Repaired(s[..max])
      decreases |cut|
    {
      if !BadTail(cut) {
        break;
      }
      cut := cut[..|cut| - 1];
    }
    out := cut + notice;
  }

  // --- What the loop does to valid text ---------------------------------------

  /** The last character boundary of `s` at or before `max`. */
  function Boundary(s: Text, max: nat): (n: nat)
    requires Valid(s) && max <= |s|
    ensures n <= max
    decreases |s|
  {
    if s == [] || RuneSize(s) > max then 0 else RuneSize(s) + Boundary(s[RuneSize(s)..], max - RuneSize(s))
  }

  /** A cut text is whole characters and then a proper part of one. */
  predicate PartOfRune(t: Text) {
    |t| <= 3
    && (t != [] ==> Lead(t[0]))
    && (forall i :: 1 <= i < |t| ==> Tail(t[i]))
    && (t != [] ==> RuneSize(t) == 0)
  }

  predicate Lead(b: Byte) {
    0xC2 <= b <= 0xF4
  }

  lemma RuneShape(s: Text)
    requires RuneSize(s) > 0
    ensures RuneSize(s[..RuneSize(s)]) == RuneSize(s)
    ensures RuneStart(s[0]) && forall i :: 1 <= i < RuneSize(s) ==> Tail(s[i])
    ensures RuneSize(s) > 1 ==> s[0] >= 0x80
  {
  }

  lemma RunePart(s: Text, j: nat)
    requires j < RuneSize(s)
    ensures PartOfRune(s[..j])
  {
  }

  lemma TakeSplits(s: Text, n: nat, b: nat)
    requires n + b <= |s|
    ensures s[..n + b] == s[..n] + s[n..][..b]
  {
  }

  lemma SliceOfDrop(s: Text, n: nat, i: nat, j: nat)
    requires i <= j && n + j <= |s|
    ensures s[n + i..n + j] == s[n..][i..j]
  {
  }

  /** One character further: what holds of the rest holds of the whole. */
  lemma BoundaryStep(s: Text, max: nat, b: nat)
    requires 0 < RuneSize(s) && RuneSize(s) + b <= max <= |s|
    requires Valid(s[RuneSize(s)..][..b])
    ensures Valid(s[..RuneSize(s) + b])
    ensures s[RuneSize(s) + b..max] == s[RuneSize(s)..][b..max - RuneSize(s)]
  {
    var n := RuneSize(s);
    RuneShape(s);
    ValidPrepend(s[..n], s[n..][..b]);
    TakeSplits(s, n, b);
    SliceOfDrop(s, n, b, max - n);
  }

  /** The first character does not fit. */
  lemma NothingFits(s: Text, max: nat)
    requires max < RuneSize(s)
    ensures Valid(s[..0]) && PartOfRune(s[0..max])
  {
    RunePart(s, max);
    assert s[0..max] == s[..max];
  }

  lemma BoundaryMoves(s: Text, max: nat)
    requires Valid(s) && 0 < RuneSize(s) <= max <= |s|
    ensures Valid(s[RuneSize(s)..])
    ensures Boundary(s, max) == RuneSize(s) + Boundary(s[RuneSize(s)..], max - RuneSize(s))
  {
  }

  lemma {:induction false} BoundarySplits(s: Text, max: nat)
    requires Valid(s) && max <= |s|
    ensures Valid(s[..Boundary(s, max)])
    ensures PartOfRune(s[Boundary(s, max)..max])
    decreases |s|
  {
    var n := RuneSize(s);
    if s == [] {
      assert s[0..0] == [];
    } else if n <= max {
      BoundaryMoves(s, max);
      BoundarySplits(s[n..], max - n);
      BoundaryStep(s, max, Boundary(s[n..], max - n));
    } else {
      NothingFits(s, max);
    }
  }

  lemma ValidPrepend(rune: Text, rest: Text)
    requires rune != [] && RuneSize(rune) == |rune| && Valid(rest)
    ensures Valid(rune + rest)
  {
    RuneSizeExtends(rune, rest);
    assert (rune + rest)[|rune|..] == rest;
  }

  /** Valid text ends in a character. */
  lemma {:induction false} LastRune(s: Text) returns (n: nat)
    requires Valid(s) && s != []
    ensures 1 <= n <= |s| && n <= 4 && RuneSize(s[|s| - n..]) == n
    decreases |s|
  {
    var k := RuneSize(s);
    if s[k..] == [] {
      n := k;
      assert s[|s| - n..] == s;
    } else {
      n := LastRune(s[k..]);
      assert s[k..][|s[k..]| - n..] == s[|s| - n..];
    }
  }

  lemma WholeTailIsGood(s: Text)
    requires Valid(s) && s != []
    ensures !BadTail(s)
  {
    var n := LastRune(s);
    var r := s[|s| - n..];
    RuneShape(r);
    assert s[|s| - n] == r[0];
    assert forall i :: 1 <= i < n ==> s[|s| - n + i] == r[i];
    if s[|s| - 1] >= 0x80 {
      assert n > 1;
      var lim := if |s| < 4 then 0 else |s| - 4;
      var found := LastStart(s, |s| - 2, lim);
      assert RuneStart(s[|s| - n]);
      assert found == |s| - n;
    }
  }

  /** The last byte begins a character that is not there: no longer suffix is a character
      either, since only its first byte could be a lead. */
  lemma LeadAloneIsBad(whole: Text, b: Byte)
    requires Lead(b)
    ensures BadTail(whole + [b])
  {
    var s := whole + [b];
    var end := |s|;
    var lim := if end < 4 then 0 else end - 4;
    var found := LastStart(s, end - 2, lim);
    var start := if found < 0 then 0 else found;
    var x := s[start..];
    assert x[|x| - 1] == b;
    NoLeadInside(x);
  }

  lemma NoLeadInside(x: Text)
    requires x != [] && Lead(x[|x| - 1])
    ensures RuneSize(x) != |x|
  {
    if RuneSize(x) > 0 {
      RuneShape(x);
    }
  }

  /** The search of the loop stops at the lead of the part. */
  lemma LongPartIsBad(whole: Text, t: Text)
    requires PartOfRune(t) && |t| > 1
    ensures BadTail(whole + t)
  {
    var s := whole + t;
    var end := |s|;
    assert forall i :: 0 <= i < |t| ==> s[|whole| + i] == t[i];
    var lim := if end < 4 then 0 else end - 4;
    var found := LastStart(s, end - 2, lim);
    assert RuneStart(s[|whole|]);
    assert found == |whole|;
    assert s[found..] == t;
  }

  lemma PartTailIsBad(whole: Text, t: Text)
    requires PartOfRune(t) && t != []
    ensures BadTail(whole + t)
  {
    if |t| == 1 {
      assert t == [t[0]];
      LeadAloneIsBad(whole, t[0]);
    } else {
      LongPartIsBad(whole, t);
    }
  }

  /** A part of a character one byte shorter is a part of it still. */
  lemma PartShrinks(t: Text)
    requires PartOfRune(t) && t != []
    ensures PartOfRune(t[..|t| - 1])
  {
    var t1 := t[..|t| - 1];
    assert t == t1 + [t[|t| - 1]];
    if RuneSize(t1) > 0 {
      RuneSizeExtends(t1, [t[|t| - 1]]);
    }
  }

  /** One turn of the loop. */
  lemma RepairStep(s: Text)
    requires s != [] && BadTail(s)
    ensures Repaired(s) == Repaired(s[..|s| - 1])
  {
  }

  lemma RepairEnds(s: Text)
    requires s == [] || !BadTail(s)
    ensures Repaired(s) == s
  {
  }

  lemma OneByteOff(whole: Text, t: Text)
    requires PartOfRune(t) && t != []
    ensures PartOfRune(t[..|t| - 1])
    ensures Repaired(whole + t) == Repaired(whole + t[..|t| - 1])
  {
    var s := whole + t;
    PartTailIsBad(whole, t);
    PartShrinks(t);
    RepairStep(s);
    assert s[..|s| - 1] == whole + t[..|t| - 1];
  }

  lemma WholeStays(whole: Text)
    requires Valid(whole)
    ensures Repaired(whole) == whole
  {
    if whole != [] {
      WholeTailIsGood(whole);
    }
    RepairEnds(whole);
  }

  lemma {:induction false} RepairedIsWhole(whole: Text, t: Text)
    requires Valid(whole) && PartOfRune(t)
    ensures Repaired(whole + t) == whole
    decreases |t|
  {
    if t == [] {
      assert whole + t == whole;
      WholeStays(whole);
    } else {
      OneByteOff(whole, t);
      RepairedIsWhole(whole, t[..|t| - 1]);
    }
  }

  lemma {:induction false} ValidStrip(whole: Text, t: Text)
    requires Valid(whole) && Valid(whole + t)
    ensures Valid(t)
    decreases |whole|
  {
    if whole == [] {
      assert whole + t == t;
    } else {
      var n := RuneSize(whole);
      var s := whole + t;
      RuneSizeExtends(whole, t);
      assert s[n..] == whole[n..] + t;
      ValidStrip(whole[n..], t);
    }
  }

  lemma RuneSizeExtends(p: Text, t: Text)
    requires RuneSize(p) > 0
    ensures RuneSize(p + t) == RuneSize(p)
  {
  }

  lemma RepairedAtBoundary(s: Text, max: nat)
    requires Valid(s) && max <= |s|
    ensures Repaired(s[..max]) == s[..Boundary(s, max)]
  {
    var b := Boundary(s, max);
    BoundarySplits(s, max);
    assert s[..max] == s[..b] + s[b..max];
    RepairedIsWhole(s[..b], s[b..max]);
  }

  lemma LongerIsInvalid(s: Text, max: nat, m: nat)
    requires Valid(s) && max <= |s| && Boundary(s, max) < m <= max
    ensures !Valid(s[..m])
  {
    var b := Boundary(s, max);
    BoundarySplits(s, max);
    assert s[..m] == s[..b] + s[b..max][..m - b];
    PartIsInvalid(s[..b], s[b..max], s[b..max][..m - b]);
  }

  /** For valid text over the budget, what is kept is a prefix, is valid, loses at most
      three bytes of the budget, and no longer prefix within it is valid. */
  lemma KeptIsLongestValidPrefix(s: Text, max: nat)
    requires Valid(s) && |s| > max
    ensures var kept := Repaired(s[..max]);
      && kept <= s && Valid(kept)
      && |kept| <= max <= |kept| + 3
      && forall m :: |kept| < m <= max ==> !Valid(s[..m])
  {
    RepairedAtBoundary(s, max);
    BoundarySplits(s, max);
    forall m | Boundary(s, max) < m <= max ensures !Valid(s[..m]) {
      LongerIsInvalid(s, max, m);
    }
  }

  lemma PartIsInvalid(whole: Text, t: Text, t1: Text)
    requires Valid(whole) && PartOfRune(t) && t1 <= t && t1 != []
    ensures !Valid(whole + t1)
  {
    if Valid(whole + t1) {
      ValidStrip(whole, t1);
      assert t == t1 + t[|t1|..];
      RuneSizeExtends(t1, t[|t1|..]);
    }
  }
}
