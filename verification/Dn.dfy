/** Distinguished names: splitting one at its bare commas, reading the value of a
    component, naming the parent.

    The string form of a DN is that of RFC 4514, sections 2.4 and 3; a backslash makes
    the next character literal.  Hex pairs are not expanded by the code either. */
module Dn {
  import opened Basics
  import opened Text

  const BACKSLASH: char := '\\'

  // --- splitDN ----------------------------------------------------------------

  /** What the loop still appends to `parts`; `some` says whether it holds any yet. */
  function Scan(s: string, current: string, escaped: bool, some: bool): seq<string> {
    if s == "" then
      if current != "" || some then [Trim(current)] else []
    else if escaped then Scan(s[1..], current + [s[0]], false, some)
    else if s[0] == BACKSLASH then Scan(s[1..], current + [s[0]], true, some)
    else if s[0] == ',' then [Trim(current)] + Scan(s[1..], "", false, true)
    else Scan(s[1..], current + [s[0]], false, some)
  }

  function Split(dn: string): seq<string> {
    Scan(dn, "", false, false)
  }

  method SplitDN(dn: string) returns (parts: seq<string>)
    ensures parts == Split(dn)
  {
    parts := [];
    var current := "";
    var escaped := false;
    for i := 0 to |dn|
      invariant parts + Scan(dn[i..], current, escaped, parts != []) == Split(dn)
    {
      var r := dn[i];
      assert dn[i..][1..] == dn[i + 1..];
      if escaped {
        current := current + [r];
        escaped := false;
      } else if r == BACKSLASH {
        current := current + [r];
        escaped := true;
      } else if r == ',' {
        parts := parts + [Trim(current)];
        current := "";
      } else {
        current := current + [r];
      }
    }
    if |current| > 0 || |parts| > 0 {
      parts := parts + [Trim(current)];
    }
  }

  function Join(parts: seq<string>): string {
    if parts == [] then ""
    else if |parts| == 1 then parts[0]
    else parts[0] + "," + Join(parts[1..])
  }

  // --- Escapes ----------------------------------------------------------------

  /** Whether a backslash is still waiting for its character after `s`. */
  function Open(s: string, escaped: bool): bool {
    if s == "" then escaped else Open(s[1..], !escaped && s[0] == BACKSLASH)
  }

  /** A component whose last backslash has lost the character it escaped. */
  predicate Dangling(s: string) {
    Open(s, false)
  }

  /** The commas that separate. */
  function BareCommas(s: string, escaped: bool): nat {
    if s == "" then 0
    else (if !escaped && s[0] == ',' then 1 else 0) + BareCommas(s[1..], !escaped && s[0] == BACKSLASH)
  }

  /** The components `splitDN` returns: trimmed, without a bare comma. */
  predicate Clean(s: string) {
    Trimmed(s) && BareCommas(s, false) == 0
  }

  lemma {:induction false} OpenConcat(a: string, b: string, escaped: bool)
    ensures Open(a + b, escaped) == Open(b, Open(a, escaped))
    ensures BareCommas(a + b, escaped) == BareCommas(a, escaped) + BareCommas(b, Open(a, escaped))
  {
    if a == "" {
      assert a + b == b;
    } else {
      assert (a + b)[1..] == a[1..] + b;
      OpenConcat(a[1..], b, !escaped && a[0] == BACKSLASH);
    }
  }

  /** One component per bare comma, and one more. */
  lemma {:induction false} ScanCounts(s: string, current: string, escaped: bool, some: bool)
    requires s != "" || current != "" || some
    ensures |Scan(s, current, escaped, some)| == 1 + BareCommas(s, escaped)
  {
    if s == "" {
    } else {
      if !escaped && s[0] == ',' {
        ScanCounts(s[1..], "", false, true);
      } else {
        ScanCounts(s[1..], current + [s[0]], !escaped && s[0] == BACKSLASH, some);
      }
    }
  }

  /** Text without a bare comma goes into the current component. */
  lemma {:induction false} ScanComponent(a: string, rest: string, current: string, escaped: bool, some: bool)
    requires BareCommas(a, escaped) == 0
    ensures Scan(a + rest, current, escaped, some) == Scan(rest, current + a, Open(a, escaped), some)
  {
    if a == "" {
      assert a + rest == rest && current + a == current;
    } else {
      assert (a + rest)[1..] == a[1..] + rest;
      ScanComponent(a[1..], rest, current + [a[0]], !escaped && a[0] == BACKSLASH, some);
      assert current + [a[0]] + a[1..] == current + a;
    }
  }

  /** Spaces at the start of a component neither open nor close an escape. */
  lemma {:induction false} SpacesAreNeutral(s: string)
    requires Blank(s)
    ensures Open(s, false) == false && BareCommas(s, false) == 0
  {
    if s == "" {
    } else {
      SpacesAreNeutral(s[1..]);
    }
  }

  lemma TrimIsClean(s: string)
    requires BareCommas(s, false) == 0
    ensures Clean(Trim(s))
  {
    var lead, trail := TrimSplits(s);
    var r := Trim(s);
    SpacesAreNeutral(lead);
    OpenConcat(lead + r, trail, false);
    OpenConcat(lead, r, false);
  }

  lemma {:induction false} ScanIsClean(s: string, current: string, escaped: bool, some: bool)
    requires BareCommas(current, false) == 0 && Open(current, false) == escaped
    ensures forall i :: 0 <= i < |Scan(s, current, escaped, some)| ==> Clean(Scan(s, current, escaped, some)[i])
  {
    if s == "" {
      TrimIsClean(current);
    } else {
      OpenConcat(current, [s[0]], false);
      if !escaped && s[0] == ',' {
        TrimIsClean(current);
        ScanIsClean(s[1..], "", false, true);
      } else {
        ScanIsClean(s[1..], current + [s[0]], !escaped && s[0] == BACKSLASH, some);
      }
    }
  }

  // --- Joining and splitting again --------------------------------------------

  predicate NoneDangles(parts: seq<string>) {
    forall i :: 0 <= i < |parts| - 1 ==> !Dangling(parts[i])
  }

  lemma {:induction false} JoinSplits(parts: seq<string>, some: bool)
    requires parts != [] && (forall p :: p in parts ==> Clean(p)) && NoneDangles(parts)
    requires some || parts != [""]
    ensures Scan(Join(parts), "", false, some) == parts
  {
    var p := parts[0];
    assert Clean(p);
    TrimmedStays(p);
    assert "" + p == p;
    if |parts| == 1 {
      assert p + "" == p;
      ScanComponent(p, "", "", false, some);
    } else {
      var tail := parts[1..];
      TailKeeps(parts);
      ScanFirst(p, Join(tail), some);
      JoinSplits(tail, true);
    }
  }

  /** A component that does not dangle ends at the comma. */
  lemma ScanFirst(p: string, rest: string, some: bool)
    requires Clean(p) && !Dangling(p)
    ensures Scan(p + "," + rest, "", false, some) == [p] + Scan(rest, "", false, true)
  {
    TrimmedStays(p);
    var t := "," + rest;
    assert p + "," + rest == p + t && "" + p == p && t[1..] == rest;
    ScanComponent(p, t, "", false, some);
  }

  lemma TailKeeps(parts: seq<string>)
    requires |parts| > 1 && forall p :: p in parts ==> Clean(p)
    ensures forall p :: p in parts[1..] ==> Clean(p)
    ensures NoneDangles(parts) <==> !Dangling(parts[0]) && NoneDangles(parts[1..])
  {
    var tail := parts[1..];
    assert forall i :: 0 <= i < |tail| ==> tail[i] == parts[i + 1];
    if NoneDangles(parts) {
      assert !Dangling(parts[0]);
    }
    if !Dangling(parts[0]) && NoneDangles(tail) {
      forall i | 0 <= i < |parts| - 1 ensures !Dangling(parts[i]) {
        if i > 0 { assert !Dangling(tail[i - 1]); }
      }
    }
  }

  lemma {:induction false} JoinBareCommas(parts: seq<string>)
    requires parts != [] && forall p :: p in parts ==> Clean(p)
    ensures BareCommas(Join(parts), false) <= |parts| - 1
    ensures BareCommas(Join(parts), false) == |parts| - 1 <==> NoneDangles(parts)
  {
    if |parts| > 1 {
      TailKeeps(parts);
      CommaAfter(parts[0], Join(parts[1..]));
      JoinBareCommas(parts[1..]);
    } else {
      assert Clean(parts[0]);
    }
  }

  lemma CommaAfter(p: string, rest: string)
    requires Clean(p)
    ensures BareCommas(p + "," + rest, false) == (if Dangling(p) then 0 else 1) + BareCommas(rest, false)
  {
    var t := "," + rest;
    assert p + "," + rest == p + t && t[1..] == rest;
    OpenConcat(p, t, false);
  }

  /** Components joined with commas split back into themselves exactly when none but the
      last dangles (and they are not the one empty component). */
  lemma ResplitExactly(parts: seq<string>)
    requires parts != [] && forall p :: p in parts ==> Clean(p)
    ensures Split(Join(parts)) == parts <==> NoneDangles(parts) && parts != [""]
  {
    if NoneDangles(parts) && parts != [""] {
      JoinSplits(parts, false);
    } else if parts != [""] && Split(Join(parts)) == parts {
      JoinBareCommas(parts);
      assert Join(parts) != "";
      ScanCounts(Join(parts), "", false, false);
    }
  }

  // --- The components as written ----------------------------------------------

  /** The text between the bare commas, untrimmed. */
  function Pieces(s: string, escaped: bool): (r: seq<string>)
    ensures |r| > 0
  {
    if s == "" then [""]
    else if !escaped && s[0] == ',' then [""] + Pieces(s[1..], false)
    else
      var rest := Pieces(s[1..], !escaped && s[0] == BACKSLASH);
      [[s[0]] + rest[0]] + rest[1..]
  }

  /** They are the text, cut at bare commas, of which none is left; and every one but the
      last has all its escapes complete. */
  lemma {:induction false} PiecesAreTheText(s: string, escaped: bool)
    ensures Join(Pieces(s, escaped)) == s && Closed(Pieces(s, escaped), escaped)
  {
    if s == "" {
    } else if !escaped && s[0] == ',' {
      PiecesAreTheText(s[1..], false);
      EmptyPieceFirst(Pieces(s[1..], false));
      assert s == "," + s[1..];
    } else {
      var open := !escaped && s[0] == BACKSLASH;
      PiecesAreTheText(s[1..], open);
      HeadGrows(s[0], Pieces(s[1..], open), escaped, open);
      assert s == [s[0]] + s[1..];
    }
  }

  /** No bare comma in any piece, no escape left open in any but the last; `escaped`: the
      first begins inside an escape. */
  predicate Closed(ps: seq<string>, escaped: bool) {
    && (forall i :: 0 <= i < |ps| ==> BareCommas(ps[i], i == 0 && escaped) == 0)
    && (forall i :: 0 <= i < |ps| - 1 ==> !Open(ps[i], i == 0 && escaped))
  }

  lemma EmptyPieceFirst(rest: seq<string>)
    requires rest != [] && Closed(rest, false)
    ensures Join([""] + rest) == "," + Join(rest) && Closed([""] + rest, false)
  {
    var ps := [""] + rest;
    assert ps[1..] == rest;
    assert "" + "," == ",";
  }

  lemma HeadGrows(c: char, rest: seq<string>, escaped: bool, open: bool)
    requires rest != [] && open == (!escaped && c == BACKSLASH) && (escaped || c != ',') && Closed(rest, open)
    ensures var ps := [[c] + rest[0]] + rest[1..]; Join(ps) == [c] + Join(rest) && Closed(ps, escaped)
  {
    JoinGrows(c, rest);
    var ps := [[c] + rest[0]] + rest[1..];
    assert ps[0][1..] == rest[0];
    assert forall i :: 0 < i < |ps| ==> ps[i] == rest[i];
  }

  lemma JoinGrows(c: char, rest: seq<string>)
    requires rest != []
    ensures Join([[c] + rest[0]] + rest[1..]) == [c] + Join(rest)
  {
    var ps := [[c] + rest[0]] + rest[1..];
    assert ps[1..] == rest[1..];
    if |rest| > 1 {
      assert [c] + rest[0] + "," + Join(rest[1..]) == [c] + (rest[0] + "," + Join(rest[1..]));
    } else {
      assert Join(ps) == ps[0];
    }
  }

  /** `splitDN` returns the pieces, trimmed; `current` has been read of the first. */
  lemma {:induction false} SplitTrimsPieces(s: string, current: string, escaped: bool, some: bool)
    requires s != "" || current != "" || some
    ensures TrimmedPieces(Scan(s, current, escaped, some), current, Pieces(s, escaped))
  {
    if s == "" {
      assert current + "" == current;
    } else if !escaped && s[0] == ',' {
      SplitTrimsPieces(s[1..], "", false, true);
      CommaTrims(Scan(s[1..], "", false, true), current, Pieces(s[1..], false));
    } else {
      var open := !escaped && s[0] == BACKSLASH;
      SplitTrimsPieces(s[1..], current + [s[0]], open, some);
      CharTrims(Scan(s[1..], current + [s[0]], open, some), current, s[0], Pieces(s[1..], open));
    }
  }

  predicate TrimmedPieces(parts: seq<string>, current: string, ps: seq<string>) {
    && |parts| == |ps| > 0 && parts[0] == Trim(current + ps[0])
    && forall i :: 0 < i < |ps| ==> parts[i] == Trim(ps[i])
  }

  lemma CommaTrims(parts: seq<string>, current: string, ps: seq<string>)
    requires TrimmedPieces(parts, "", ps)
    ensures TrimmedPieces([Trim(current)] + parts, current, [""] + ps)
  {
    assert current + "" == current && "" + ps[0] == ps[0];
  }

  lemma CharTrims(parts: seq<string>, current: string, c: char, ps: seq<string>)
    requires TrimmedPieces(parts, current + [c], ps)
    ensures TrimmedPieces(parts, current, [[c] + ps[0]] + ps[1..])
  {
    assert current + [c] + ps[0] == current + ([c] + ps[0]);
  }

  /** The spaces at the end of `p` begin with one that a backslash escapes. */
  predicate EndsInEscapedSpace(p: string) {
    exists k :: 0 <= k < |p| && Open(p[..k], false) && Blank(p[k..])
  }

  lemma {:induction false} OpenEndsInBackslash(s: string, escaped: bool)
    requires s != "" && Open(s, escaped)
    ensures s[|s| - 1] == BACKSLASH
  {
    if |s| == 1 {
    } else {
      OpenEndsInBackslash(s[1..], !escaped && s[0] == BACKSLASH);
    }
  }

  /** Trimming cuts an escape in two exactly when a component ends in an escaped space. */
  lemma TrimDanglesExactly(p: string)
    requires !Open(p, false)
    ensures Dangling(Trim(p)) <==> EndsInEscapedSpace(p)
  {
    var lead, trail := TrimSplits(p);
    var kept := lead + Trim(p);
    assert p == kept + trail;
    SpacesAreNeutral(lead);
    OpenConcat(lead, Trim(p), false);
    assert trail == "" ==> kept == p;
    if Dangling(Trim(p)) {
      assert p[..|kept|] == kept && p[|kept|..] == trail;
    }
    if k :| 0 <= k < |p| && Open(p[..k], false) && Blank(p[k..]) {
      OpenEndsInBackslash(p[..k], false);
      CutIsWhereBlanksBegin(p, k, lead, Trim(p), trail);
      assert p[..k] == kept;
    }
  }

  lemma CutIsWhereBlanksBegin(p: string, k: nat, lead: string, r: string, trail: string)
    requires 0 < k < |p| && !IsSpace(p[k - 1]) && Blank(p[k..])
    requires p == lead + r + trail && Blank(lead) && Blank(trail) && Trimmed(r)
    ensures k == |lead + r|
  {
    var n := |lead + r|;
    assert forall i :: 0 <= i < |lead| ==> p[i] == lead[i];
    assert forall i :: n <= i < |p| ==> p[i] == trail[i - n];
    assert forall i :: k <= i < |p| ==> p[i] == p[k..][i - k];
    assert r != "" ==> p[n - 1] == r[|r| - 1];
  }

  lemma BlankTrimsToNothing(p: string)
    ensures Trim(p) == "" <==> Blank(p)
  {
    var lead, trail := TrimSplits(p);
    if Trim(p) == "" {
      assert p == lead + trail;
    } else {
      assert p[|lead|] == Trim(p)[0];
    }
  }

  lemma TailResplits(dn: string)
    requires |Split(dn)| >= 2
    ensures var tail := Split(dn)[1..];
      Split(Join(tail)) == tail <==> NoneDangles(tail) && tail != [""]
  {
    ScanIsClean(dn, "", false, false);
    var tail := Split(dn)[1..];
    assert forall p :: p in tail ==> Clean(p) by {
      forall p | p in tail ensures Clean(p) {
        var i :| 0 <= i < |tail| && tail[i] == p;
        assert p == Split(dn)[i + 1];
      }
    }
    ResplitExactly(tail);
  }

  /** The parent's DN, as `parentOU` builds it from the components after the first,
      splits back into those components exactly when, in the DN as written, no component
      between the first and the last ends in an escaped space (and what follows the first
      is not one blank component). */
  lemma ParentResplitsExactly(dn: string)
    requires |Split(dn)| >= 2
    ensures var ps, tail := Pieces(dn, false), Split(dn)[1..];
      && |Split(dn)| == |ps|
      && (Split(Join(tail)) == tail <==>
            && (forall i :: 1 <= i < |ps| - 1 ==> !EndsInEscapedSpace(ps[i]))
            && !(|ps| == 2 && Blank(ps[1])))
  {
    var ps, parts := Pieces(dn, false), Split(dn);
    SplitTrimsPieces(dn, "", false, false);
    PiecesAreTheText(dn, false);
    TailResplits(dn);
    var tail := parts[1..];
    forall i | 1 <= i < |ps| - 1 ensures Dangling(tail[i - 1]) <==> EndsInEscapedSpace(ps[i]) {
      TrimDanglesExactly(ps[i]);
    }
    assert NoneDangles(tail) <==> forall i :: 1 <= i < |ps| - 1 ==> !EndsInEscapedSpace(ps[i]) by {
      NoneDanglesFrom(tail, ps);
    }
    BlankTrimsToNothing(ps[1]);
    assert tail == [""] <==> |ps| == 2 && tail[0] == "";
  }

  lemma NoneDanglesFrom(tail: seq<string>, ps: seq<string>)
    requires |ps| == |tail| + 1
    requires forall i :: 1 <= i < |ps| - 1 ==> (Dangling(tail[i - 1]) <==> EndsInEscapedSpace(ps[i]))
    ensures NoneDangles(tail) <==> forall i :: 1 <= i < |ps| - 1 ==> !EndsInEscapedSpace(ps[i])
  {
    if NoneDangles(tail) {
      forall i | 1 <= i < |ps| - 1 ensures !EndsInEscapedSpace(ps[i]) {
        assert !Dangling(tail[i - 1]);
      }
    } else {
      var i :| 0 <= i < |tail| - 1 && Dangling(tail[i]);
      assert EndsInEscapedSpace(ps[i + 1]);
    }
  }

  /** The failing family: an organisational unit whose name ends in an escaped space,
      which RFC 4514 allows, between plain components. */
  lemma EscapedSpaceIsCut(a: string, u: string, c: string)
    requires PlainText(a) && PlainText(u) && PlainText(c)
    ensures var dn := a + "," + (u + "\\ " + "," + c);
      Split(dn) == [a, u + "\\", c] && Split(Join(Split(dn)[1..])) != Split(dn)[1..]
  {
    var b := u + "\\ ";
    var cut := u + "\\";
    PlainIsClean(a);
    PlainIsClean(u);
    PlainIsClean(c);
    OpenConcat(u, "\\ ", false);
    OpenConcat(u, "\\", false);
    assert "\\ "[1..] == " " && " "[1..] == "" && "\\"[1..] == "";
    assert b[..|b| - 1] == cut;
    assert TrimLeft(b) == b && TrimRight(b) == TrimRight(cut) == cut;
    var dn := a + "," + (b + "," + c);
    ScanFirst(a, b + "," + c, false);
    ScanRaw(b, c, true);
    ScanComponent(c, "", "", false, true);
    assert c + "" == c && "" + c == c;
    var tail := Split(dn)[1..];
    assert tail == [cut, c];
    TailResplits(dn);
    assert Dangling(tail[0]);
  }

  predicate PlainText(s: string) {
    s != "" && Trimmed(s) && forall i :: 0 <= i < |s| ==> s[i] != ',' && s[i] != BACKSLASH
  }

  lemma PlainIsClean(s: string)
    requires PlainText(s)
    ensures Clean(s) && !Dangling(s) && Trim(s) == s
  {
    NoSpecials(s);
    TrimmedStays(s);
  }

  lemma {:induction false} NoSpecials(s: string)
    requires forall i :: 0 <= i < |s| ==> s[i] != ',' && s[i] != BACKSLASH
    ensures !Open(s, false) && BareCommas(s, false) == 0
  {
    if s == "" {
    } else {
      NoSpecials(s[1..]);
    }
  }

  /** A raw component ends at its comma and is trimmed. */
  lemma ScanRaw(p: string, rest: string, some: bool)
    requires BareCommas(p, false) == 0 && !Open(p, false)
    ensures Scan(p + "," + rest, "", false, some) == [Trim(p)] + Scan(rest, "", false, true)
  {
    var t := "," + rest;
    assert p + "," + rest == p + t && "" + p == p && t[1..] == rest;
    ScanComponent(p, t, "", false, some);
  }

  // --- rdnValue ---------------------------------------------------------------

  /** The text after the first `=`, if there is one. */
  function AfterEquals(s: string): Option<string> {
    if s == "" then None else if s[0] == '=' then Some(s[1..]) else AfterEquals(s[1..])
  }

  function Unescape(s: string, escaped: bool): string {
    if s == "" then ""
    else if escaped || s[0] != BACKSLASH then [s[0]] + Unescape(s[1..], false)
    else Unescape(s[1..], true)
  }

  function Value(rdn: string): string {
    var v := AfterEquals(rdn);
    if v.None? then "" else Trim(Unescape(v.value, false))
  }

  /** Without a `=` there is no value; and a backslash stands for the character after it,
      whatever that is, once. */
  lemma ValueOf(rdn: string, attr: string, a: string, c: char, b: string)
    requires forall i :: 0 <= i < |attr| ==> attr[i] != '='
    requires forall i :: 0 <= i < |a| ==> a[i] != BACKSLASH
    ensures (forall i :: 0 <= i < |rdn| ==> rdn[i] != '=') ==> Value(rdn) == ""
    ensures Value(attr + "=" + (a + ([BACKSLASH, c] + b))) == Trim(a + ([c] + Unescape(b, false)))
    ensures Value(attr + "=" + a) == Trim(a)
  {
    if forall i :: 0 <= i < |rdn| ==> rdn[i] != '=' {
      NoEquals(rdn);
    }
    FirstEquals(attr, a + ([BACKSLASH, c] + b));
    FirstEquals(attr, a);
    UnescapePlain(a, [BACKSLASH, c] + b);
    UnescapePlain(a, "");
    var s := [BACKSLASH, c] + b;
    assert s[1..] == [c] + b && s[1..][1..] == b;
    assert a + "" == a;
  }

  lemma {:induction false} NoEquals(s: string)
    requires forall i :: 0 <= i < |s| ==> s[i] != '='
    ensures AfterEquals(s) == None
  {
    if s == "" {
    } else {
      NoEquals(s[1..]);
    }
  }

  lemma {:induction false} FirstEquals(attr: string, rest: string)
    requires forall i :: 0 <= i < |attr| ==> attr[i] != '='
    ensures AfterEquals(attr + "=" + rest) == Some(rest)
  {
    var s := attr + "=" + rest;
    if attr == "" {
      assert s == "=" + rest && s[1..] == rest;
    } else {
      assert s[1..] == attr[1..] + "=" + rest;
      FirstEquals(attr[1..], rest);
    }
  }

  lemma {:induction false} UnescapePlain(a: string, rest: string)
    requires forall i :: 0 <= i < |a| ==> a[i] != BACKSLASH
    ensures Unescape(a + rest, false) == a + Unescape(rest, false)
  {
    if a == "" {
      assert a + rest == rest && a + Unescape(rest, false) == Unescape(rest, false);
    } else {
      assert (a + rest)[1..] == a[1..] + rest;
      UnescapePlain(a[1..], rest);
      assert [a[0]] + (a[1..] + Unescape(rest, false)) == a + Unescape(rest, false);
    }
  }

  method RdnValue(rdn: string) returns (value: string)
    ensures value == Value(rdn)
  {
    var cut := AfterEquals(rdn);
    if cut.None? {
      return "";
    }
    var out := Unescaped(cut.value);
    value := Trim(out);
  }

  method Unescaped(raw: string) returns (out: string)
    ensures out == Unescape(raw, false)
  {
    out := "";
    var escaped := false;
    for i := 0 to |raw|
      invariant out + Unescape(raw[i..], escaped) == Unescape(raw, false)
    {
      assert raw[i..][1..] == raw[i + 1..];
      if escaped || raw[i] != BACKSLASH {
        out := out + [raw[i]];
        escaped := false;
      } else {
        escaped := true;
      }
    }
  }

  // --- parentOU ---------------------------------------------------------------

  function BeforeEquals(s: string): string {
    if s == "" || s[0] == '=' then "" else [s[0]] + BeforeEquals(s[1..])
  }

  /** `strings.EqualFold(s, "OU")`. */
  predicate IsOU(s: string) {
    |s| == 2 && s[0] in "oO" && s[1] in "uU"
  }

  lemma OrganisationalUnit(s: string)
    ensures IsOU(s) <==> s in {"OU", "Ou", "oU", "ou"}
  {
    if |s| == 2 {
      assert s == [s[0], s[1]];
    }
  }

  function ParentOU(dn: string): (string, string) {
    var parts := Split(dn);
    if |parts| < 2 || !IsOU(Trim(BeforeEquals(parts[1]))) then ("", "")
    else (Value(parts[1]), Join(parts[1..]))
  }

  // --- Names written as RFC 4514 asks -----------------------------------------

  /** A value with its commas and backslashes escaped, and any other character of
      `more` that the writer chose to escape. */
  function EscapeValue(v: string, more: set<char>): string {
    if v == "" then ""
    else
      var special := v[0] == ',' || v[0] == BACKSLASH || v[0] in more;
      (if special then [BACKSLASH, v[0]] else [v[0]]) + EscapeValue(v[1..], more)
  }

  datatype Rdn = Rdn(attr: string, value: string, more: set<char>)

  function Render(r: Rdn): string {
    r.attr + "=" + EscapeValue(r.value, r.more)
  }

  function RenderAll(rs: seq<Rdn>): seq<string> {
    seq(|rs|, i requires 0 <= i < |rs| => Render(rs[i]))
  }

  predicate PlainAttr(s: string) {
    s != "" && forall i :: 0 <= i < |s| ==> !IsSpace(s[i]) && s[i] != ',' && s[i] != '=' && s[i] != BACKSLASH
  }

  /** A plain attribute name, a value without spaces around it, no escaped spaces. */
  predicate WellWritten(r: Rdn) {
    PlainAttr(r.attr) && Trimmed(r.value)
  }

  lemma {:induction false} EscapedIsClosed(v: string, more: set<char>)
    ensures !Open(EscapeValue(v, more), false) && BareCommas(EscapeValue(v, more), false) == 0
    ensures Unescape(EscapeValue(v, more), false) == v
    ensures v != "" ==> EscapeValue(v, more) != "" && EscapeValue(v, more)[|EscapeValue(v, more)| - 1] == v[|v| - 1]
  {
    if v == "" {
    } else {
      var e := EscapeValue(v[1..], more);
      EscapedIsClosed(v[1..], more);
      if v[0] == ',' || v[0] == BACKSLASH || v[0] in more {
        var s := [BACKSLASH, v[0]] + e;
        assert s[1..] == [v[0]] + e && s[1..][1..] == e;
        assert EscapeValue(v, more) == s;
      } else {
        var s := [v[0]] + e;
        assert s[1..] == e;
        assert EscapeValue(v, more) == s;
      }
    }
  }

  lemma {:induction false} PlainIsClosed(s: string, rest: string)
    requires forall i :: 0 <= i < |s| ==> s[i] != ',' && s[i] != '=' && s[i] != BACKSLASH
    ensures !Open(s, false) && BareCommas(s, false) == 0
    ensures AfterEquals(s + "=" + rest) == Some(rest)
    ensures BeforeEquals(s + "=" + rest) == s
  {
    var t := s + "=" + rest;
    if s == "" {
      assert t == "=" + rest && t[1..] == rest;
    } else {
      assert t[1..] == s[1..] + "=" + rest;
      PlainIsClosed(s[1..], rest);
    }
  }

  lemma RenderedIsTrimmed(r: Rdn)
    requires WellWritten(r)
    ensures Trimmed(Render(r)) && Render(r) != ""
  {
    var e := EscapeValue(r.value, r.more);
    EscapedIsClosed(r.value, r.more);
    assert Render(r)[0] == r.attr[0];
    if e == "" {
      assert Render(r)[|Render(r)| - 1] == '=';
    } else {
      assert r.value != "";
      assert Render(r)[|Render(r)| - 1] == e[|e| - 1];
    }
  }

  lemma RenderedIsClean(r: Rdn)
    requires WellWritten(r)
    ensures Clean(Render(r)) && !Dangling(Render(r)) && Render(r) != ""
  {
    var e := EscapeValue(r.value, r.more);
    RenderedIsTrimmed(r);
    EscapedIsClosed(r.value, r.more);
    NoSpecials(r.attr + "=");
    OpenConcat(r.attr + "=", e, false);
  }

  lemma RenderedReadsBack(r: Rdn)
    requires WellWritten(r)
    ensures Value(Render(r)) == r.value
    ensures Trim(BeforeEquals(Render(r))) == r.attr
  {
    EscapedIsClosed(r.value, r.more);
    PlainIsClosed(r.attr, EscapeValue(r.value, r.more));
    TrimmedStays(r.value);
    TrimmedStays(r.attr);
  }

  /** A DN written so splits back into exactly its components, each gives its original
      value, and the parent's DN splits back into the tail of the list. */
  lemma WrittenNamesRoundTrip(rs: seq<Rdn>)
    requires rs != [] && forall i :: 0 <= i < |rs| ==> WellWritten(rs[i])
    ensures Split(Join(RenderAll(rs))) == RenderAll(rs)
    ensures forall i :: 0 <= i < |rs| ==> Value(RenderAll(rs)[i]) == rs[i].value
    ensures |rs| >= 2 ==>
      var (name, ouDN) := ParentOU(Join(RenderAll(rs)));
      if rs[1].attr in {"OU", "Ou", "oU", "ou"} then name == rs[1].value && Split(ouDN) == RenderAll(rs)[1..]
      else name == "" && ouDN == ""
  {
    var parts := RenderAll(rs);
    forall i | 0 <= i < |rs|
      ensures Clean(parts[i]) && !Dangling(parts[i]) && parts[i] != "" && Value(parts[i]) == rs[i].value
    {
      RenderedIsClean(rs[i]);
      RenderedReadsBack(rs[i]);
    }
    ResplitExactly(parts);
    if |rs| >= 2 {
      RenderedReadsBack(rs[1]);
      OrganisationalUnit(rs[1].attr);
      var tail := parts[1..];
      assert forall i :: 0 <= i < |tail| ==> tail[i] == parts[i + 1];
      ResplitExactly(tail);
    }
  }
}
