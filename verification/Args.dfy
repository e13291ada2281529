/** The command-line field of a package: `splitArgs` and `joinArgs` of the console.

    `splitArgs` is a loop over four variables; `Scan` is what that loop computes from
    a given loop state.  The round trip `splitArgs(joinArgs(args)) == args` is proved
    to hold exactly when no argument that gets quotes ends in a backslash. */
module Args {

  const BACKSLASH: char := '\\'
  const QUOTE: char := '"'

  // The class `\s` of an ECMAScript regular expression.
  predicate IsSpace(c: char) {
    || '\t' <= c <= '\r' || c == ' ' || c == '\U{00A0}' || c == '\U{1680}'
    || '\U{2000}' <= c <= '\U{200A}'
    || c == '\U{2028}' || c == '\U{2029}' || c == '\U{202F}' || c == '\U{205F}' || c == '\U{3000}' || c == '\U{FEFF}'
  }

  /** The class, character by character. */
  lemma SpacesOfTheClass(c: char)
    ensures IsSpace(c) <==>
      || c in {'\U{0009}', '\U{000A}', '\U{000B}', '\U{000C}', '\U{000D}', '\U{0020}', '\U{00A0}', '\U{1680}'}
      || c in {'\U{2000}', '\U{2001}', '\U{2002}', '\U{2003}', '\U{2004}', '\U{2005}', '\U{2006}', '\U{2007}'}
      || c in {'\U{2008}', '\U{2009}', '\U{200A}', '\U{2028}', '\U{2029}', '\U{202F}', '\U{205F}', '\U{3000}'}
      || c == '\U{FEFF}'
  {
  }

  // --- splitArgs --------------------------------------------------------------

  /** What the loop still appends to `out` when `s` is left to read. */
  function Scan(s: string, current: string, quoted: bool, started: bool): seq<string> {
    if s == "" then
      if started then [current] else []
    else if s[0] == BACKSLASH && |s| > 1 && s[1] == QUOTE then
      Scan(s[2..], current + [QUOTE], quoted, true)
    else if s[0] == QUOTE then
      Scan(s[1..], current, !quoted, true)
    else if IsSpace(s[0]) && !quoted then
      (if started then [current] else []) + Scan(s[1..], "", quoted, false)
    else
      Scan(s[1..], current + [s[0]], quoted, true)
  }

  function Split(line: string): seq<string> {
    Scan(line, "", false, false)
  }

  method SplitArgs(line: string) returns (out: seq<string>)
    ensures out == Split(line)
  {
    out := [];
    var current := "";
    var quoted, started := false, false;
    var i := 0;
    while i < |line|
      invariant 0 <= i <= |line|
      invariant out + Scan(line[i..], current, quoted, started) == Split(line)
    {
      var c := line[i];
      assert line[i..][1..] == line[i + 1..];
      if c == BACKSLASH && i + 1 < |line| && line[i + 1] == QUOTE {
        assert line[i..][2..] == line[i + 2..];
        current := current + [QUOTE];
        i := i + 1;
        started := true;
      } else if c == QUOTE {
        quoted := !quoted;
        started := true;
      } else if IsSpace(c) && !quoted {
        if started {
          out := out + [current];
        }
        current := "";
        started := false;
      } else {
        current := current + [c];
        started := true;
      }
      i := i + 1;
    }
    if started {
      out := out + [current];
    }
  }

  // --- joinArgs ---------------------------------------------------------------

  predicate NeedsQuotes(a: string) {
    a == "" || exists i :: 0 <= i < |a| && (IsSpace(a[i]) || a[i] == QUOTE)
  }

  /** `a.replace(/"/g, '\\"')`. */
  function Escape(a: string): string {
    if a == "" then ""
    else (if a[0] == QUOTE then [BACKSLASH, QUOTE] else [a[0]]) + Escape(a[1..])
  }

  function Render(a: string): string {
    if NeedsQuotes(a) then [QUOTE] + Escape(a) + [QUOTE] else a
  }

  function Join(args: seq<string>): string {
    if args == [] then ""
    else if |args| == 1 then Render(args[0])
    else Render(args[0]) + " " + Join(args[1..])
  }

  predicate EndsInBackslash(a: string) {
    |a| > 0 && a[|a| - 1] == BACKSLASH
  }

  /** The argument `joinArgs` renders ambiguously: its closing quote reads as escaped. */
  predicate Spoiled(a: string) {
    NeedsQuotes(a) && EndsInBackslash(a)
  }

  // --- Reading one rendered argument back -------------------------------------

  lemma ScanLiteral(c: char, tail: string, current: string, quoted: bool, started: bool)
    requires c != QUOTE && (quoted || !IsSpace(c))
    requires c == BACKSLASH ==> tail == "" || tail[0] != QUOTE
    ensures Scan([c] + tail, current, quoted, started) == Scan(tail, current + [c], quoted, true)
  {
    var s := [c] + tail;
    assert s[1..] == tail;
  }

  lemma ScanPair(tail: string, current: string, quoted: bool, started: bool)
    ensures Scan([BACKSLASH, QUOTE] + tail, current, quoted, started) == Scan(tail, current + [QUOTE], quoted, true)
  {
    var s := [BACKSLASH, QUOTE] + tail;
    assert s[2..] == tail;
  }

  lemma ScanQuote(tail: string, current: string, quoted: bool, started: bool)
    ensures Scan([QUOTE] + tail, current, quoted, started) == Scan(tail, current, !quoted, true)
  {
    var s := [QUOTE] + tail;
    assert s[1..] == tail;
  }

  lemma Regroup(x: string, y: string, z: string)
    ensures x + y + z == x + (y + z)
  {
  }

  /** Inside quotes, the first character of an escaped text is read back as itself. */
  lemma ScanEscapedHead(a: string, rest: string, current: string)
    requires a != "" && (EndsInBackslash(a) ==> rest == "" || rest[0] != QUOTE)
    ensures Scan(Escape(a) + rest, current, true, true) == Scan(Escape(a[1..]) + rest, current + [a[0]], true, true)
  {
    var tail := Escape(a[1..]) + rest;
    if a[0] == QUOTE {
      Regroup([BACKSLASH, QUOTE], Escape(a[1..]), rest);
      ScanPair(tail, current, true, true);
    } else {
      EscapeHead(a[1..]);
      Regroup([a[0]], Escape(a[1..]), rest);
      ScanLiteral(a[0], tail, current, true, true);
    }
  }

  /** Inside quotes, an escaped text is read back as itself, as long as what follows
      cannot turn its last backslash into an escape. */
  lemma {:induction false} ScanEscaped(a: string, rest: string, current: string)
    requires EndsInBackslash(a) ==> rest == "" || rest[0] != QUOTE
    ensures Scan(Escape(a) + rest, current, true, true) == Scan(rest, current + a, true, true)
  {
    if a == "" {
      assert Escape(a) + rest == rest;
      assert current + a == current;
    } else {
      ScanEscapedHead(a, rest, current);
      ScanEscaped(a[1..], rest, current + [a[0]]);
      assert current + [a[0]] + a[1..] == current + a;
    }
  }

  /** An escaped text never begins with a bare quote. */
  lemma EscapeHead(a: string)
    ensures a == "" <==> Escape(a) == ""
    ensures a != "" ==> Escape(a)[0] != QUOTE
  {
  }

  /** Outside quotes, a text without spaces or quotes is read back as itself. */
  lemma {:induction false} ScanPlain(a: string, rest: string, current: string, started: bool)
    requires forall i :: 0 <= i < |a| ==> !IsSpace(a[i]) && a[i] != QUOTE
    requires EndsInBackslash(a) ==> rest == "" || rest[0] != QUOTE
    ensures Scan(a + rest, current, false, started) == Scan(rest, current + a, false, started || a != "")
  {
    if a == "" {
      assert a + rest == rest;
      assert current + a == current;
    } else {
      assert a + rest == [a[0]] + (a[1..] + rest);
      ScanLiteral(a[0], a[1..] + rest, current, false, started);
      ScanPlain(a[1..], rest, current + [a[0]], true);
      assert current + [a[0]] + a[1..] == current + a;
    }
  }

  lemma ScanQuoted(a: string, rest: string, current: string, started: bool)
    requires !EndsInBackslash(a)
    ensures Scan([QUOTE] + Escape(a) + [QUOTE] + rest, current, false, started) == Scan(rest, current + a, false, true)
  {
    var inner := Escape(a) + ([QUOTE] + rest);
    assert [QUOTE] + Escape(a) + [QUOTE] + rest == [QUOTE] + inner;
    ScanQuote(inner, current, false, started);
    ScanEscaped(a, [QUOTE] + rest, current);
    ScanQuote(rest, current + a, true, true);
  }

  lemma ScanRendered(a: string, rest: string)
    requires !Spoiled(a)
    requires rest == "" || rest[0] == ' '
    ensures Scan(Render(a) + rest, "", false, false) == Scan(rest, a, false, true)
  {
    if NeedsQuotes(a) {
      ScanQuoted(a, rest, "", false);
      assert "" + a == a;
    } else {
      ScanPlain(a, rest, "", false);
      assert "" + a == a;
    }
  }

  lemma {:induction false} RoundTrip(args: seq<string>)
    requires forall a :: a in args ==> !Spoiled(a)
    ensures Split(Join(args)) == args
  {
    if |args| == 1 {
      ScanRendered(args[0], "");
      assert Join(args) == Render(args[0]) + "";
    } else if |args| > 1 {
      var rest := " " + Join(args[1..]);
      assert Join(args) == Render(args[0]) + rest;
      ScanRendered(args[0], rest);
      assert rest[1..] == Join(args[1..]);
      RoundTrip(args[1..]);
    }
  }

  // --- Lines an operator types ------------------------------------------------

  /** What stands for itself: printable ASCII but the quote, and Latin letters with
      accents. */
  predicate Visible(c: char) {
    ('!' <= c <= '~' && c != '"') || '\U{00A1}' <= c <= '\U{024F}'
  }

  predicate VisibleText(s: string) {
    s != "" && forall i :: 0 <= i < |s| ==> Visible(s[i])
  }

  /** A run of spaces, tabs and newlines. */
  predicate Gap(s: string) {
    forall i :: 0 <= i < |s| ==> s[i] == ' ' || s[i] == '\t' || s[i] == '\n'
  }

  lemma VisibleIsNoSpace(c: char)
    ensures Visible(c) ==> !IsSpace(c) && c != QUOTE
    ensures c == ' ' || c == '\t' || c == '\n' ==> IsSpace(c) && c != QUOTE && c != BACKSLASH
  {
  }

  /** A gap ends the argument before it, if there is one, and adds nothing. */
  lemma {:induction false} ScanGap(g: string, rest: string, current: string, started: bool)
    requires Gap(g) && (!started ==> current == "")
    ensures g != "" || !started ==>
      Scan(g + rest, current, false, started) == (if started then [current] else []) + Scan(rest, "", false, false)
  {
    if g == "" {
      assert g + rest == rest;
      assert [] + Scan(rest, "", false, false) == Scan(rest, "", false, false);
    } else {
      var s := g + rest;
      VisibleIsNoSpace(g[0]);
      assert s[1..] == g[1..] + rest;
      ScanGap(g[1..], rest, "", false);
      assert [] + Scan(rest, "", false, false) == Scan(rest, "", false, false);
    }
  }

  /** Part of an argument as typed: text that stands for itself, text between quotes with
      its own quotes escaped, or an escaped quote. */
  datatype Part = Bare(text: string) | Quotation(text: string) | EscapedQuote

  function Typed(p: Part): string {
    match p
    case Bare(text) => text
    case Quotation(text) => [QUOTE] + Escape(text) + [QUOTE]
    case EscapedQuote => [BACKSLASH, QUOTE]
  }

  function Meaning(p: Part): string {
    match p
    case Bare(text) => text
    case Quotation(text) => text
    case EscapedQuote => [QUOTE]
  }

  /** No backslash stands before a quote that is not its own. */
  predicate Sound(parts: seq<Part>) {
    && (forall i :: 0 <= i < |parts| && parts[i].Bare? ==> VisibleText(parts[i].text))
    && (forall i :: 0 <= i < |parts| && parts[i].Quotation? ==> !EndsInBackslash(parts[i].text))
    && (forall i :: 0 <= i < |parts| - 1 && parts[i].Bare? && parts[i + 1].Quotation? ==>
          !EndsInBackslash(parts[i].text))
  }

  function TypedArg(parts: seq<Part>): string {
    if parts == [] then "" else Typed(parts[0]) + TypedArg(parts[1..])
  }

  function MeaningArg(parts: seq<Part>): string {
    if parts == [] then "" else Meaning(parts[0]) + MeaningArg(parts[1..])
  }

  lemma ScanPart(p: Part, rest: string, current: string, started: bool)
    requires p.Bare? ==> VisibleText(p.text) && (EndsInBackslash(p.text) ==> rest == "" || rest[0] != QUOTE)
    requires p.Quotation? ==> !EndsInBackslash(p.text)
    ensures Scan(Typed(p) + rest, current, false, started) == Scan(rest, current + Meaning(p), false, true)
  {
    match p
    case Bare(text) =>
      forall i | 0 <= i < |text| ensures !IsSpace(text[i]) && text[i] != QUOTE { VisibleIsNoSpace(text[i]); }
      ScanPlain(text, rest, current, started);
    case Quotation(text) =>
      ScanQuoted(text, rest, current, started);
    case EscapedQuote =>
      ScanPair(rest, current, false, started);
  }

  lemma NextIsNoQuote(parts: seq<Part>, rest: string)
    requires Sound(parts) && parts != [] && parts[0].Bare? && EndsInBackslash(parts[0].text)
    requires rest == "" || Gap(rest[..1])
    ensures TypedArg(parts[1..]) + rest == "" || (TypedArg(parts[1..]) + rest)[0] != QUOTE
  {
    var tail := TypedArg(parts[1..]);
    if |parts| > 1 {
      var next := parts[1];
      assert parts[1..][0] == next && !next.Quotation?;
      assert tail == Typed(next) + TypedArg(parts[1..][1..]);
      assert next.Bare? ==> Visible(next.text[0]);
    } else {
      assert tail + rest == rest;
    }
  }

  lemma ScanFirstPart(parts: seq<Part>, rest: string, current: string, started: bool)
    requires parts != [] && Sound(parts) && (rest == "" || Gap(rest[..1]))
    ensures Scan(TypedArg(parts) + rest, current, false, started)
      == Scan(TypedArg(parts[1..]) + rest, current + Meaning(parts[0]), false, true)
  {
    if parts[0].Bare? && EndsInBackslash(parts[0].text) {
      NextIsNoQuote(parts, rest);
    }
    Regroup(Typed(parts[0]), TypedArg(parts[1..]), rest);
    ScanPart(parts[0], TypedArg(parts[1..]) + rest, current, started);
  }

  lemma {:induction false} ScanArg(parts: seq<Part>, rest: string, current: string, started: bool)
    requires Sound(parts) && (rest == "" || Gap(rest[..1]))
    ensures Scan(TypedArg(parts) + rest, current, false, started)
      == Scan(rest, current + MeaningArg(parts), false, started || parts != [])
    decreases |parts|
  {
    if parts == [] {
      assert TypedArg(parts) + rest == rest && current + MeaningArg(parts) == current;
    } else {
      ScanFirstPart(parts, rest, current, started);
      SoundTail(parts);
      ScanArg(parts[1..], rest, current + Meaning(parts[0]), true);
      Regroup(current, Meaning(parts[0]), MeaningArg(parts[1..]));
    }
  }

  lemma SoundTail(parts: seq<Part>)
    requires Sound(parts) && parts != []
    ensures Sound(parts[1..])
  {
    assert forall i :: 0 <= i < |parts| - 1 ==> parts[1..][i] == parts[i + 1];
  }

  /** Arguments, each with the gap typed after it. */
  type Line = seq<(seq<Part>, string)>

  function TypedLine(line: Line): string {
    if line == [] then "" else TypedArg(line[0].0) + line[0].1 + TypedLine(line[1..])
  }

  predicate WellTyped(line: Line) {
    && (forall i :: 0 <= i < |line| ==> line[i].0 != [] && Sound(line[i].0) && Gap(line[i].1))
    && (forall i :: 0 <= i < |line| - 1 ==> line[i].1 != "")
  }

  function Meanings(line: Line): seq<string> {
    if line == [] then [] else [MeaningArg(line[0].0)] + Meanings(line[1..])
  }

  /** Whatever an operator types: arguments made of visible text, quoted text and escaped
      quotes in any mixture, with any white space before, between and after them, split
      into exactly those arguments. */
  lemma {:induction false} TypedLineSplits(lead: string, line: Line)
    requires Gap(lead) && WellTyped(line)
    ensures Split(lead + TypedLine(line)) == Meanings(line)
    decreases |line|
  {
    ScanGap(lead, TypedLine(line), "", false);
    assert [] + Scan(TypedLine(line), "", false, false) == Scan(TypedLine(line), "", false, false);
    if line == [] {
    } else {
      var parts, gap, tail := line[0].0, line[0].1, line[1..];
      assert forall i :: 0 <= i < |tail| ==> tail[i] == line[i + 1];
      TypedLineSplits("", tail);
      assert "" + TypedLine(tail) == TypedLine(tail);
      LineStep(parts, gap, tail);
    }
  }

  lemma LineStep(parts: seq<Part>, gap: string, tail: Line)
    requires parts != [] && Sound(parts) && Gap(gap) && (tail != [] ==> gap != "")
    ensures Scan(TypedArg(parts) + gap + TypedLine(tail), "", false, false)
      == [MeaningArg(parts)] + Scan(TypedLine(tail), "", false, false)
  {
    var rest := gap + TypedLine(tail);
    assert TypedArg(parts) + gap + TypedLine(tail) == TypedArg(parts) + rest;
    if gap == "" {
      assert tail == [] && rest == "";
    } else {
      assert rest[..1] == gap[..1];
    }
    ScanArg(parts, rest, "", false);
    assert "" + MeaningArg(parts) == MeaningArg(parts);
    if gap == "" {
      assert [MeaningArg(parts)] + [] == [MeaningArg(parts)];
    } else {
      ScanGap(gap, TypedLine(tail), MeaningArg(parts), true);
    }
  }

  function Spread(words: seq<(string, string)>): string {
    if words == [] then "" else words[0].0 + words[0].1 + Spread(words[1..])
  }

  function Words(words: seq<(string, string)>): Line {
    if words == [] then [] else [([Bare(words[0].0)], words[0].1)] + Words(words[1..])
  }

  lemma OneWord(w: string)
    requires VisibleText(w)
    ensures TypedArg([Bare(w)]) == w && MeaningArg([Bare(w)]) == w && Sound([Bare(w)])
  {
    OnePart([Bare(w)]);
  }

  lemma OnePart(parts: seq<Part>)
    requires |parts| == 1
    ensures TypedArg(parts) == Typed(parts[0]) && MeaningArg(parts) == Meaning(parts[0])
  {
    var tail := parts[1..];
    assert tail == [];
    assert TypedArg(tail) == "" && MeaningArg(tail) == "";
    assert Typed(parts[0]) + "" == Typed(parts[0]) && Meaning(parts[0]) + "" == Meaning(parts[0]);
  }

  /** The words and gaps of a line as its arguments. */
  predicate SpreadOf(line: Line, words: seq<(string, string)>) {
    && |line| == |words| && WellTyped(line) && TypedLine(line) == Spread(words)
    && |Meanings(line)| == |words|
    && forall i :: 0 <= i < |words| ==> line[i].1 == words[i].1 && Meanings(line)[i] == words[i].0
  }

  lemma OneMoreWord(w: string, gap: string, line: Line, words: seq<(string, string)>)
    requires VisibleText(w) && Gap(gap) && (words != [] ==> gap != "") && SpreadOf(line, words)
    ensures SpreadOf([([Bare(w)], gap)] + line, [(w, gap)] + words)
  {
    OneWord(w);
    var line1, words1 := [([Bare(w)], gap)] + line, [(w, gap)] + words;
    assert line1[1..] == line && words1[1..] == words;
    assert forall i :: 0 < i < |line1| ==> line1[i] == line[i - 1];
  }

  lemma {:induction false} WordsAreTyped(words: seq<(string, string)>)
    requires forall i :: 0 <= i < |words| ==> VisibleText(words[i].0) && Gap(words[i].1)
    requires forall i :: 0 <= i < |words| - 1 ==> words[i].1 != ""
    ensures SpreadOf(Words(words), words)
  {
    if words == [] {
    } else {
      WordsAreTyped(words[1..]);
      OneMoreWord(words[0].0, words[0].1, Words(words[1..]), words[1..]);
      assert words == [(words[0].0, words[0].1)] + words[1..];
    }
  }

  /** Plain words split into themselves, however much white space is typed around them. */
  lemma WordsSplit(lead: string, words: seq<(string, string)>)
    requires Gap(lead)
    requires forall i :: 0 <= i < |words| ==> VisibleText(words[i].0) && Gap(words[i].1)
    requires forall i :: 0 <= i < |words| - 1 ==> words[i].1 != ""
    ensures |Split(lead + Spread(words))| == |words|
    ensures forall i :: 0 <= i < |words| ==> Split(lead + Spread(words))[i] == words[i].0
  {
    WordsAreTyped(words);
    TypedLineSplits(lead, Words(words));
  }

  function Empties(args: seq<string>): nat {
    if args == [] then 0 else (if args[0] == "" then 1 else 0) + Empties(args[1..])
  }

  /** The quotes of a line that no backslash escapes. */
  function BareQuotes(s: string): nat {
    if s == "" then 0
    else if |s| > 1 && s[0] == BACKSLASH && s[1] == QUOTE then BareQuotes(s[2..])
    else (if s[0] == QUOTE then 1 else 0) + BareQuotes(s[1..])
  }

  /** The quotes an argument that is still empty has used up. */
  function Credit(current: string, quoted: bool, started: bool): nat {
    if started && current == "" then (if quoted then 1 else 2) else 0
  }

  lemma {:induction false} EmptiesAreQuoted(s: string, current: string, quoted: bool, started: bool)
    requires (!started ==> current == "" && !quoted)
    ensures 2 * Empties(Scan(s, current, quoted, started)) <= BareQuotes(s) + Credit(current, quoted, started) + 1
  {
    if s == "" {
      assert [current][1..] == [];
    } else if s[0] == BACKSLASH && |s| > 1 && s[1] == QUOTE {
      EmptiesAreQuoted(s[2..], current + [QUOTE], quoted, true);
    } else if s[0] == QUOTE {
      EmptiesAreQuoted(s[1..], current, !quoted, true);
    } else if IsSpace(s[0]) && !quoted {
      var others := Scan(s[1..], "", quoted, false);
      EmptiesAreQuoted(s[1..], "", quoted, false);
      assert [] + others == others && ([current] + others)[1..] == others;
    } else {
      EmptiesAreQuoted(s[1..], current + [s[0]], quoted, true);
    }
  }

  /** On every line, an empty argument costs a pair of quotes, but for the one an
      unfinished quote at the end may leave; so that a line without quotes has none. */
  lemma EmptyArgumentsAreQuoted(line: string)
    ensures 2 * Empties(Split(line)) <= BareQuotes(line) + 1
    ensures (forall i :: 0 <= i < |line| ==> line[i] != '"') ==> "" !in Split(line)
  {
    EmptiesAreQuoted(line, "", false, false);
    if forall i :: 0 <= i < |line| ==> line[i] != '"' {
      NoBareQuotes(line);
      EmptiesCount(Split(line));
    }
  }

  lemma {:induction false} NoBareQuotes(s: string)
    requires forall i :: 0 <= i < |s| ==> s[i] != '"'
    ensures BareQuotes(s) == 0
  {
    if s == "" {
    } else {
      NoBareQuotes(s[1..]);
    }
  }

  lemma {:induction false} EmptiesCount(args: seq<string>)
    ensures Empties(args) == 0 ==> "" !in args
  {
    if args == [] {
    } else {
      EmptiesCount(args[1..]);
      assert args == [args[0]] + args[1..];
    }
  }

  // --- Counting backslashes ---------------------------------------------------

  function Backslashes(s: string): nat {
    if s == "" then 0 else (if s[0] == BACKSLASH then 1 else 0) + Backslashes(s[1..])
  }

  function Total(args: seq<string>): nat {
    if args == [] then 0 else Backslashes(args[0]) + Total(args[1..])
  }

  /** Places where a backslash stands right before a quote: each one costs the
      parser exactly one backslash. */
  function Pairs(s: string): nat {
    if |s| < 2 then 0 else (if s[0] == BACKSLASH && s[1] == QUOTE then 1 else 0) + Pairs(s[1..])
  }

  function SpoiledCount(args: seq<string>): nat {
    if args == [] then 0 else (if Spoiled(args[0]) then 1 else 0) + SpoiledCount(args[1..])
  }

  lemma {:induction false} BackslashesConcat(a: string, b: string)
    ensures Backslashes(a + b) == Backslashes(a) + Backslashes(b)
  {
    if a == "" {
      assert a + b == b;
    } else {
      assert (a + b)[1..] == a[1..] + b;
      BackslashesConcat(a[1..], b);
    }
  }

  lemma {:induction false} PairsConcat(a: string, b: string)
    ensures Pairs(a + b) == Pairs(a) + Pairs(b) + if EndsInBackslash(a) && b != "" && b[0] == QUOTE then 1 else 0
  {
    if a == "" {
      assert a + b == b;
    } else if b == "" {
      assert a + b == a;
    } else {
      assert (a + b)[1..] == a[1..] + b;
      PairsConcat(a[1..], b);
    }
  }

  /** Whatever the line, reading it loses one backslash per pair and no other. */
  lemma {:induction false} ScanBackslashes(s: string, current: string, quoted: bool, started: bool)
    requires !started ==> current == ""
    ensures Total(Scan(s, current, quoted, started)) + Pairs(s) == Backslashes(current) + Backslashes(s)
  {
    if s == "" {
    } else if s[0] == BACKSLASH && |s| > 1 && s[1] == QUOTE {
      assert s[2..] == s[1..][1..];
      assert Pairs(s) == 1 + Pairs(s[2..]);
      BackslashesConcat(current, [QUOTE]);
      ScanBackslashes(s[2..], current + [QUOTE], quoted, true);
    } else if s[0] == QUOTE {
      ScanBackslashes(s[1..], current, !quoted, true);
    } else if IsSpace(s[0]) && !quoted {
      var others := Scan(s[1..], "", quoted, false);
      ScanBackslashes(s[1..], "", quoted, false);
      assert [] + others == others;
      assert ([current] + others)[1..] == others;
      assert Scan(s, current, quoted, started) == if started then [current] + others else others;
    } else {
      BackslashesConcat(current, [s[0]]);
      ScanBackslashes(s[1..], current + [s[0]], quoted, true);
    }
  }

  lemma {:induction false} EscapeCounts(a: string)
    ensures Backslashes(Escape(a)) == Backslashes(a) + Pairs(Escape(a))
    ensures EndsInBackslash(Escape(a)) == EndsInBackslash(a)
  {
    if a == "" {
    } else {
      var head := if a[0] == QUOTE then [BACKSLASH, QUOTE] else [a[0]];
      EscapeCounts(a[1..]);
      EscapeHead(a[1..]);
      BackslashesConcat(head, Escape(a[1..]));
      PairsConcat(head, Escape(a[1..]));
      assert Escape(a) == head + Escape(a[1..]);
      if a[0] == QUOTE {
        assert head[1..] == [QUOTE];
        assert Backslashes(head) == 1 && Pairs(head) == 1;
      } else {
        assert Backslashes(a) == Backslashes(head) + Backslashes(a[1..]);
      }
    }
  }

  lemma RenderCounts(a: string)
    ensures Backslashes(Render(a)) + (if Spoiled(a) then 1 else 0) == Backslashes(a) + Pairs(Render(a))
    ensures Render(a) != ""
  {
    if NeedsQuotes(a) {
      var e := Escape(a);
      EscapeCounts(a);
      EscapeHead(a);
      PairsConcat([QUOTE], e + [QUOTE]);
      PairsConcat(e, [QUOTE]);
      BackslashesConcat([QUOTE], e + [QUOTE]);
      BackslashesConcat(e, [QUOTE]);
      assert Render(a) == [QUOTE] + (e + [QUOTE]);
    } else {
      NoQuotesNoPairs(a);
    }
  }

  lemma {:induction false} NoQuotesNoPairs(a: string)
    requires forall i :: 0 <= i < |a| ==> a[i] != QUOTE
    ensures Pairs(a) == 0
  {
    if |a| <= 1 {
    } else {
      NoQuotesNoPairs(a[1..]);
    }
  }

  lemma AppendCounts(r: string, rest: string)
    ensures Backslashes(r + " " + rest) == Backslashes(r) + Backslashes(rest)
    ensures Pairs(r + " " + rest) == Pairs(r) + Pairs(rest)
  {
    BackslashesConcat(r + " ", rest);
    BackslashesConcat(r, " ");
    PairsConcat(r + " ", rest);
    PairsConcat(r, " ");
  }

  /** A joined line carries one pair too many per spoiled argument. */
  lemma {:induction false} JoinCounts(args: seq<string>)
    ensures Backslashes(Join(args)) + SpoiledCount(args) == Total(args) + Pairs(Join(args))
  {
    if args == [] {
    } else {
      RenderCounts(args[0]);
      JoinCounts(args[1..]);
      if |args| == 1 {
        assert args[1..] == [];
      } else {
        AppendCounts(Render(args[0]), Join(args[1..]));
      }
    }
  }

  /** Splitting a joined list loses exactly one backslash per spoiled argument. */
  lemma JoinThenSplitLosesOnePerSpoiled(args: seq<string>)
    ensures Total(Split(Join(args))) + SpoiledCount(args) == Total(args)
  {
    ScanBackslashes(Join(args), "", false, false);
    JoinCounts(args);
  }

  lemma {:induction false} SpoiledCountPositive(args: seq<string>, i: nat)
    requires i < |args| && Spoiled(args[i])
    ensures SpoiledCount(args) > 0
  {
    if i == 0 {
    } else {
      SpoiledCountPositive(args[1..], i - 1);
    }
  }

  /** The round trip holds for a list exactly when no argument that gets quotes ends
      in a backslash. */
  lemma RoundTripExactly(args: seq<string>)
    ensures Split(Join(args)) == args <==> forall a :: a in args ==> !(NeedsQuotes(a) && EndsInBackslash(a))
  {
    if forall a :: a in args ==> !Spoiled(a) {
      RoundTrip(args);
    } else {
      var i :| 0 <= i < |args| && Spoiled(args[i]);
      SpoiledCountPositive(args, i);
      JoinThenSplitLosesOnePerSpoiled(args);
    }
  }

  /** Two lists shown as the same line are the same list, spoiled arguments aside. */
  lemma JoinInjective(xs: seq<string>, ys: seq<string>)
    requires forall a :: a in xs || a in ys ==> !Spoiled(a)
    requires Join(xs) == Join(ys)
    ensures xs == ys
  {
    RoundTrip(xs);
    RoundTrip(ys);
  }

  /** The failing family is not empty: a folder path with a space and a final backslash. */
  lemma SpoiledExample()
    ensures Split(Join(["C:\\Mes docs\\", "/S"])) != ["C:\\Mes docs\\", "/S"]
  {
    var args := ["C:\\Mes docs\\", "/S"];
    assert IsSpace(args[0][6]);
    assert args[0] in args;
    RoundTripExactly(args);
  }
}
