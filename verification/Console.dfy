/** Turning a console tool's raw output into text: carriage returns replayed, lines
    trimmed, runs of empty lines collapsed. */
module Console {
  import opened Text

  // --- The pieces -------------------------------------------------------------

  /** `strings.ReplaceAll(s, "\r\n", "\n")`. */
  function ReplaceCRLF(s: string): string {
    if s == "" then ""
    else if s[0] == '\r' && |s| > 1 && s[1] == '\n' then ['\n'] + ReplaceCRLF(s[2..])
    else [s[0]] + ReplaceCRLF(s[1..])
  }

  function LineEnd(s: string): (k: nat)
    ensures k <= |s| && (k < |s| ==> s[k] == '\n')
    ensures forall i :: 0 <= i < k ==> s[i] != '\n'
  {
    if s == "" || s[0] == '\n' then 0 else 1 + LineEnd(s[1..])
  }

  /** `strings.Split(s, "\n")`. */
  function Lines(s: string): seq<string> {
    var k := LineEnd(s);
    if k == |s| then [s] else [s[..k]] + Lines(s[k + 1..])
  }

  function Join(lines: seq<string>): string {
    if lines == [] then ""
    else if |lines| == 1 then lines[0]
    else lines[0] + "\n" + Join(lines[1..])
  }

  /** What a terminal shows of a line: the text after the last carriage return. */
  function Frame(line: string): string {
    if line == "" || line[|line| - 1] == '\r' then "" else Frame(line[..|line| - 1]) + [line[|line| - 1]]
  }

  predicate BlankChar(c: char) {
    c == ' ' || c == '\t'
  }

  /** `strings.TrimRight(line, " \t")`. */
  function TrimBlanks(line: string): string {
    if line != "" && BlankChar(line[|line| - 1]) then TrimBlanks(line[..|line| - 1]) else line
  }

  function Tidy(line: string): string {
    TrimBlanks(Frame(line))
  }

  function TidyAll(lines: seq<string>): (r: seq<string>)
    ensures |r| == |lines| && forall i :: 0 <= i < |r| ==> r[i] == Tidy(lines[i])
  {
    seq(|lines|, i requires 0 <= i < |lines| => Tidy(lines[i]))
  }

  /** One empty line for each run of them; `blank`: the line before was empty. */
  function Collapse(lines: seq<string>, blank: bool): seq<string> {
    if lines == [] then []
    else if lines[0] == "" && blank then Collapse(lines[1..], true)
    else [lines[0]] + Collapse(lines[1..], lines[0] == "")
  }

  function Normalize(s: string): string {
    Trim(Join(Collapse(TidyAll(Lines(ReplaceCRLF(s))), false)))
  }

  method NormalizeConsoleOutput(s: string) returns (r: string)
    ensures r == Normalize(s)
  {
    var lines := Lines(ReplaceCRLF(s));
    ghost var tidied := TidyAll(lines);
    var out := [];
    var blank := false;
    for i := 0 to |lines|
      invariant out + Collapse(tidied[i..], blank) == Collapse(tidied, false)
    {
      var line := Tidy(lines[i]);
      assert tidied[i..][0] == line && tidied[i..][1..] == tidied[i + 1..];
      if line == "" {
        if blank {
          continue;
        }
        blank := true;
      } else {
        blank := false;
      }
      out := out + [line];
    }
    assert out + [] == out;
    r := Trim(Join(out));
  }

  // --- Lines in good order ----------------------------------------------------

  predicate GoodLine(l: string) {
    && (forall i :: 0 <= i < |l| ==> l[i] != '\n' && l[i] != '\r')
    && (l != "" ==> !BlankChar(l[|l| - 1]))
  }

  /** No carriage return, no line ending in a space or tab, no two empty lines in a row. */
  predicate GoodLines(lines: seq<string>) {
    && (forall i :: 0 <= i < |lines| ==> GoodLine(lines[i]))
    && (forall i :: 0 <= i < |lines| - 1 ==> lines[i] != "" || lines[i + 1] != "")
  }

  predicate NoNewline(s: string) {
    forall i :: 0 <= i < |s| ==> s[i] != '\n'
  }

  lemma {:induction false} LinesHaveNoNewline(s: string)
    ensures Lines(s) != [] && forall i :: 0 <= i < |Lines(s)| ==> NoNewline(Lines(s)[i])
    decreases |s|
  {
    var k := LineEnd(s);
    if k < |s| {
      LinesHaveNoNewline(s[k + 1..]);
    }
  }

  lemma {:induction false} FrameSpec(line: string)
    requires NoNewline(line)
    ensures NoNewline(Frame(line)) && forall i :: 0 <= i < |Frame(line)| ==> Frame(line)[i] != '\r'
  {
    if line == "" || line[|line| - 1] == '\r' {
    } else {
      FrameSpec(line[..|line| - 1]);
    }
  }

  lemma {:induction false} TrimBlanksSpec(l: string)
    ensures TrimBlanks(l) <= l
    ensures TrimBlanks(l) != "" ==> !BlankChar(TrimBlanks(l)[|TrimBlanks(l)| - 1])
  {
    if l == "" || !BlankChar(l[|l| - 1]) {
    } else {
      TrimBlanksSpec(l[..|l| - 1]);
    }
  }

  lemma TidyIsGood(line: string)
    requires NoNewline(line)
    ensures GoodLine(Tidy(line))
  {
    FrameSpec(line);
    TrimBlanksSpec(Frame(line));
  }

  lemma {:induction false} CollapseIsGood(lines: seq<string>, blank: bool)
    requires forall i :: 0 <= i < |lines| ==> GoodLine(lines[i])
    ensures GoodLines(Collapse(lines, blank))
    ensures blank && Collapse(lines, blank) != [] ==> Collapse(lines, blank)[0] != ""
  {
    if lines == [] {
    } else {
      CollapseIsGood(lines[1..], lines[0] == "" || (lines[0] == "" && blank));
    }
  }

  // --- The same, character by character ---------------------------------------

  predicate GoodAt(t: string, i: nat)
    requires i < |t|
  {
    && t[i] != '\r'
    && (i + 1 < |t| && BlankChar(t[i]) ==> t[i + 1] != '\n')
    && (i + 2 < |t| ==> !(t[i] == '\n' && t[i + 1] == '\n' && t[i + 2] == '\n'))
  }

  predicate GoodText(t: string) {
    forall i :: 0 <= i < |t| ==> GoodAt(t, i)
  }

  predicate StartsBlank(t: string) {
    |t| >= 2 && t[0] == '\n' && t[1] == '\n'
  }

  lemma {:induction false} GoodLinesJoin(lines: seq<string>)
    requires GoodLines(lines)
    ensures GoodText(Join(lines)) && !StartsBlank(Join(lines))
    ensures lines != [] && lines[0] != "" ==> Join(lines) != "" && Join(lines)[0] != '\n'
  {
    if lines == [] {
    } else {
      assert GoodLine(lines[0]);
    }
    if |lines| == 1 {
      GoodLineText(lines[0]);
    } else if |lines| > 1 {
      var tail := lines[1..];
      assert forall i :: 0 <= i < |tail| ==> tail[i] == lines[i + 1];
      assert GoodLines(tail);
      GoodLinesJoin(tail);
      assert lines[0] == "" ==> tail[0] != "";
      GoodTextPrepend(lines[0], Join(tail));
    }
  }

  lemma GoodLineText(l: string)
    requires GoodLine(l)
    ensures GoodText(l)
  {
  }

  lemma GoodTextPrepend(l: string, t: string)
    requires GoodLine(l) && GoodText(t) && !StartsBlank(t)
    requires l == "" ==> t != "" && t[0] != '\n'
    ensures GoodText(l + "\n" + t) && !StartsBlank(l + "\n" + t)
  {
    var u := l + "\n" + t;
    forall i | 0 <= i < |u| ensures GoodAt(u, i) {
      if i > |l| {
        assert GoodAt(t, i - |l| - 1);
      }
    }
  }

  lemma GoodTextMiddle(a: string, t: string, b: string)
    requires GoodText(a + t + b)
    ensures GoodText(t)
  {
    forall i | 0 <= i < |t| ensures GoodAt(t, i) {
      assert GoodAt(a + t + b, |a| + i);
    }
  }

  // --- Good text is left alone ------------------------------------------------

  lemma {:induction false} ReplaceNothing(s: string)
    requires forall i :: 0 <= i < |s| ==> s[i] != '\r'
    ensures ReplaceCRLF(s) == s
  {
    if s == "" {
    } else {
      ReplaceNothing(s[1..]);
    }
  }

  lemma {:induction false} FrameOfPlain(l: string)
    requires forall i :: 0 <= i < |l| ==> l[i] != '\r'
    ensures Frame(l) == l
  {
    if l == "" {
    } else {
      FrameOfPlain(l[..|l| - 1]);
    }
  }

  lemma TidyOfGood(l: string)
    requires GoodLine(l)
    ensures Tidy(l) == l
  {
    FrameOfPlain(l);
  }

  /** What the text after a line must look like for no empty line to be dropped. */
  predicate Ready(u: string, blank: bool) {
    && GoodText(u)
    && u != "" && !IsSpace(u[|u| - 1])
    && (blank ==> u[0] != '\n')
    && !StartsBlank(u)
  }

  lemma NoReturns(t: string)
    requires GoodText(t)
    ensures forall i :: 0 <= i < |t| ==> t[i] != '\r'
  {
    forall i | 0 <= i < |t| ensures t[i] != '\r' {
      assert GoodAt(t, i);
    }
  }

  lemma FirstLineIsGood(u: string, blank: bool)
    requires Ready(u, blank)
    ensures GoodLine(u[..LineEnd(u)])
  {
    var k := LineEnd(u);
    NoReturns(u);
    if k > 0 {
      assert GoodAt(u, k - 1);
      assert IsSpace(' ') && IsSpace('\t');
    }
  }

  lemma RestIsReady(u: string, k: nat, blank: bool)
    requires Ready(u, blank) && k < |u| && u[k] == '\n'
    ensures Ready(u[k + 1..], k == 0)
  {
    assert k + 1 < |u| by { assert IsSpace('\n'); }
    var rest := u[k + 1..];
    forall i | 0 <= i < |rest| ensures GoodAt(rest, i) {
      assert GoodAt(u, k + 1 + i);
    }
    assert GoodAt(u, k);
    assert !StartsBlank(rest);
  }

  lemma LinesStep(u: string, k: nat)
    requires k == LineEnd(u) && k < |u|
    ensures Lines(u) == [u[..k]] + Lines(u[k + 1..]) && u == u[..k] + "\n" + u[k + 1..]
  {
    CutAt(u, k);
  }

  lemma CutAt(u: string, k: nat)
    requires k < |u| && u[k] == '\n'
    ensures u == u[..k] + "\n" + u[k + 1..]
  {
  }

  lemma {:induction false} ReadyIsKept(u: string, blank: bool)
    requires Ready(u, blank)
    ensures TidyAll(Lines(u)) == Lines(u)
    ensures Collapse(Lines(u), blank) == Lines(u)
    ensures Join(Lines(u)) == u
    decreases |u|
  {
    var k := LineEnd(u);
    var l := u[..k];
    FirstLineIsGood(u, blank);
    TidyOfGood(l);
    if k == |u| {
      assert l == u;
      OneLineKept(u, blank);
    } else {
      var rest := u[k + 1..];
      RestIsReady(u, k, blank);
      ReadyIsKept(rest, k == 0);
      LinesHaveNoNewline(rest);
      LinesStep(u, k);
      KeptStep(l, Lines(rest), blank);
    }
  }

  lemma OneLineKept(l: string, blank: bool)
    requires NoNewline(l) && Tidy(l) == l && !(blank && l == "")
    ensures Lines(l) == [l] && TidyAll([l]) == [l] && Collapse([l], blank) == [l] && Join([l]) == l
  {
    OneLine(l);
  }

  lemma KeptStep(l: string, rest: seq<string>, blank: bool)
    requires Tidy(l) == l && TidyAll(rest) == rest && rest != []
    requires Collapse(rest, l == "") == rest && !(blank && l == "")
    ensures TidyAll([l] + rest) == [l] + rest
    ensures Collapse([l] + rest, blank) == [l] + rest
    ensures Join([l] + rest) == l + "\n" + Join(rest)
  {
    var all := [l] + rest;
    assert all[1..] == rest;
    assert forall i :: 0 < i < |all| ==> TidyAll(all)[i] == TidyAll(rest)[i - 1];
  }

  lemma NormalTextIsKept(t: string)
    requires GoodText(t) && Trimmed(t)
    ensures Normalize(t) == t
    ensures Collapse(TidyAll(Lines(t)), false) == Lines(t)
  {
    NoReturns(t);
    ReplaceNothing(t);
    if t != "" {
      assert IsSpace('\n');
      ReadyIsKept(t, false);
    } else {
      TidyOfGood("");
      assert TidyAll([""]) == [""];
    }
    TrimmedStays(t);
  }

  lemma NormalizedIsGood(s: string)
    ensures GoodText(Normalize(s)) && Trimmed(Normalize(s))
  {
    var lines := Lines(ReplaceCRLF(s));
    LinesHaveNoNewline(ReplaceCRLF(s));
    forall i | 0 <= i < |lines| ensures GoodLine(TidyAll(lines)[i]) {
      TidyIsGood(lines[i]);
    }
    CollapseIsGood(TidyAll(lines), false);
    var text := Join(Collapse(TidyAll(lines), false));
    GoodLinesJoin(Collapse(TidyAll(lines), false));
    var lead, trail := TrimSplits(text);
    GoodTextMiddle(lead, Trim(text), trail);
  }

  // --- Results ----------------------------------------------------------------

  /** On every string: normalising twice is normalising once. */
  lemma NormalizeIdempotent(s: string)
    ensures Normalize(Normalize(s)) == Normalize(s)
  {
    NormalizedIsGood(s);
    NormalTextIsKept(Normalize(s));
  }

  /** On every string the result has no carriage return, no line ending in a space or
      tab, no two empty lines in a row, and no space at either end. */
  lemma NormalizedLines(s: string)
    ensures GoodLines(Lines(Normalize(s))) && Trimmed(Normalize(s))
    ensures '\r' !in Normalize(s)
  {
    var t := Normalize(s);
    NormalizedIsGood(s);
    NormalTextIsKept(t);
    LinesHaveNoNewline(t);
    forall i | 0 <= i < |Lines(t)| ensures GoodLine(TidyAll(Lines(t))[i]) {
      TidyIsGood(Lines(t)[i]);
    }
    CollapseIsGood(TidyAll(Lines(t)), false);
    NoReturns(t);
  }

  // --- Redrawn lines ----------------------------------------------------------

  /** No pair of carriage return and newline straddles the end of `x`. */
  predicate Apart(x: string, y: string) {
    x == "" || x[|x| - 1] != '\r' || y == "" || y[0] != '\n'
  }

  predicate PairFirst(s: string) {
    |s| > 1 && s[0] == '\r' && s[1] == '\n'
  }

  lemma {:induction false} ReplaceConcat(x: string, y: string)
    requires Apart(x, y)
    ensures ReplaceCRLF(x + y) == ReplaceCRLF(x) + ReplaceCRLF(y)
    decreases |x|
  {
    if x == "" {
      assert x + y == y;
    } else if PairFirst(x) {
      ReplacePair(x, y);
      ReplaceConcat(x[2..], y);
      Attach(['\n'], ReplaceCRLF(x[2..]), ReplaceCRLF(y));
    } else {
      ReplaceHead(x, y);
      ReplaceConcat(x[1..], y);
      Attach([x[0]], ReplaceCRLF(x[1..]), ReplaceCRLF(y));
    }
  }

  lemma Attach(a: string, b: string, c: string)
    ensures a + (b + c) == a + b + c
  {
  }

  lemma ReplacePair(x: string, y: string)
    requires PairFirst(x)
    ensures ReplaceCRLF(x) == ['\n'] + ReplaceCRLF(x[2..])
    ensures ReplaceCRLF(x + y) == ['\n'] + ReplaceCRLF(x[2..] + y)
  {
    assert (x + y)[2..] == x[2..] + y;
  }

  lemma ReplaceHead(x: string, y: string)
    requires x != "" && !PairFirst(x) && Apart(x, y)
    ensures ReplaceCRLF(x) == [x[0]] + ReplaceCRLF(x[1..])
    ensures ReplaceCRLF(x + y) == [x[0]] + ReplaceCRLF(x[1..] + y)
  {
    assert (x + y)[1..] == x[1..] + y;
    assert !PairFirst(x + y);
  }

  lemma {:induction false} LinesConcat(x: string, y: string)
    ensures Lines(x + "\n" + y) == Lines(x) + Lines(y)
    decreases |x|
  {
    var s := x + "\n" + y;
    var k := LineEnd(x);
    LineEndOfConcat(x, y);
    if k == |x| {
      assert s[..k] == x && s[k + 1..] == y;
    } else {
      assert s[..k] == x[..k];
      assert s[k + 1..] == x[k + 1..] + "\n" + y;
      LinesConcat(x[k + 1..], y);
      assert Lines(s) == [x[..k]] + (Lines(x[k + 1..]) + Lines(y));
    }
  }

  lemma LineEndOfConcat(x: string, y: string)
    ensures LineEnd(x + "\n" + y) == LineEnd(x)
  {
    var s := x + "\n" + y;
    var k := LineEnd(x);
    assert s[k] == '\n';
    assert forall i :: 0 <= i < k ==> s[i] == x[i];
  }

  lemma {:induction false} FrameAfterReturn(a: string, b: string)
    requires forall i :: 0 <= i < |b| ==> b[i] != '\r'
    ensures Frame(a + "\r" + b) == b
  {
    var line := a + "\r" + b;
    if b == "" {
    } else {
      assert line[..|line| - 1] == a + "\r" + b[..|b| - 1];
      FrameAfterReturn(a, b[..|b| - 1]);
    }
  }

  lemma {:induction false} ReplaceWithoutNewline(s: string)
    requires NoNewline(s)
    ensures ReplaceCRLF(s) == s
  {
    if s == "" {
    } else {
      ReplaceWithoutNewline(s[1..]);
    }
  }

  /** The lines of a text in which one line stands between two newlines. */
  lemma LinesAround(pre: string, line: string, post: string)
    requires NoNewline(line) && (line == "" || line[|line| - 1] != '\r')
    ensures Lines(ReplaceCRLF(pre + "\n" + line + "\n" + post))
         == Lines(ReplaceCRLF(pre + "\n"))[..|Lines(ReplaceCRLF(pre + "\n"))| - 1] + [line] + Lines(ReplaceCRLF(post))
  {
    var h, t := ReplaceCRLF(pre + "\n"), ReplaceCRLF(post);
    ReplaceAround(pre, line, post);
    ReplaceEndsInNewline(pre);
    SplitAround(h, line, t);
  }

  lemma SplitAround(h: string, line: string, t: string)
    requires h != "" && h[|h| - 1] == '\n' && NoNewline(line)
    ensures Lines(h + line + "\n" + t) == Lines(h)[..|Lines(h)| - 1] + [line] + Lines(t)
  {
    var h0 := h[..|h| - 1];
    LinesOfTerminated(h, h0);
    LinesOfThree(h0, line, t);
    SplitAroundJoined(h, h0, line, t);
    Dropped(Lines(h0), line, Lines(t));
  }

  lemma LinesOfTerminated(h: string, h0: string)
    requires h == h0 + "\n"
    ensures Lines(h) == Lines(h0) + [""]
  {
    assert h == h0 + "\n" + "";
    LinesConcat(h0, "");
    OneLine("");
  }

  lemma LinesOfThree(h0: string, line: string, t: string)
    requires NoNewline(line)
    ensures Lines(h0 + "\n" + (line + "\n" + t)) == Lines(h0) + ([line] + Lines(t))
  {
    LinesConcat(h0, line + "\n" + t);
    LinesConcat(line, t);
    OneLine(line);
  }

  lemma Dropped(lines: seq<string>, line: string, rest: seq<string>)
    ensures lines + ([line] + rest) == (lines + [""])[..|lines + [""]| - 1] + [line] + rest
  {
  }

  lemma SplitAroundJoined(h: string, h0: string, line: string, t: string)
    requires h == h0 + "\n"
    ensures h + line + "\n" + t == h0 + "\n" + (line + "\n" + t)
  {
  }

  lemma OneLine(line: string)
    requires NoNewline(line)
    ensures Lines(line) == [line]
  {
  }

  lemma ReplaceAround(pre: string, line: string, post: string)
    requires NoNewline(line) && (line == "" || line[|line| - 1] != '\r')
    ensures ReplaceCRLF(pre + "\n" + line + "\n" + post) == ReplaceCRLF(pre + "\n") + line + "\n" + ReplaceCRLF(post)
  {
    var head, tail := pre + "\n", "\n" + post;
    assert pre + "\n" + line + "\n" + post == head + (line + tail);
    ReplaceConcat(head, line + tail);
    ReplaceLine(line, post);
    assert ReplaceCRLF(head) + (line + "\n" + ReplaceCRLF(post)) == ReplaceCRLF(head) + line + "\n" + ReplaceCRLF(post);
  }

  lemma ReplaceLine(line: string, post: string)
    requires NoNewline(line) && (line == "" || line[|line| - 1] != '\r')
    ensures ReplaceCRLF(line + ("\n" + post)) == line + "\n" + ReplaceCRLF(post)
  {
    ReplaceConcat(line, "\n" + post);
    ReplaceConcat("\n", post);
    ReplaceWithoutNewline(line);
    assert ReplaceCRLF("\n") == "\n" by { assert "\n"[1..] == ""; }
  }

  lemma {:induction false} ReplaceEndsInNewline(x: string)
    ensures ReplaceCRLF(x + "\n") != "" && ReplaceCRLF(x + "\n")[|ReplaceCRLF(x + "\n")| - 1] == '\n'
    decreases |x|
  {
    var s := x + "\n";
    if x == "" {
      assert s[1..] == "";
    } else if s[0] == '\r' && s[1] == '\n' {
      if |x| > 1 {
        assert s[2..] == x[2..] + "\n";
        ReplaceEndsInNewline(x[2..]);
      } else {
        assert s[2..] == "";
      }
    } else {
      assert s[1..] == x[1..] + "\n";
      ReplaceEndsInNewline(x[1..]);
    }
  }

  lemma TidyAround(head: seq<string>, x: string, y: string, tail: seq<string>)
    requires Tidy(x) == Tidy(y)
    ensures TidyAll(head + [x] + tail) == TidyAll(head + [y] + tail)
  {
    var xs, ys := head + [x] + tail, head + [y] + tail;
    assert forall i :: 0 <= i < |xs| ==> xs[i] == ys[i] || i == |head|;
  }

  /** A line redrawn with carriage returns reads as its last frame: whatever was drawn
      before the last return, `a`, makes no difference to the result. */
  lemma RedrawnLineIsItsLastFrame(pre: string, a: string, b: string, post: string)
    requires NoNewline(a) && NoNewline(b) && b != "" && forall i :: 0 <= i < |b| ==> b[i] != '\r'
    ensures Normalize(pre + "\n" + (a + "\r" + b) + "\n" + post) == Normalize(pre + "\n" + b + "\n" + post)
  {
    var line := a + "\r" + b;
    FrameAfterReturn(a, b);
    FrameOfPlain(b);
    SameTidySameText(pre, line, b, post);
  }

  /** Two lines that read the same can stand for each other. */
  lemma SameTidySameText(pre: string, x: string, y: string, post: string)
    requires NoNewline(x) && NoNewline(y) && x != "" && y != "" && x[|x| - 1] != '\r' && y[|y| - 1] != '\r'
    requires Tidy(x) == Tidy(y)
    ensures Normalize(pre + "\n" + x + "\n" + post) == Normalize(pre + "\n" + y + "\n" + post)
  {
    LinesAround(pre, x, post);
    LinesAround(pre, y, post);
    var head := Lines(ReplaceCRLF(pre + "\n"));
    if head != [] {
      TidyAround(head[..|head| - 1], x, y, Lines(ReplaceCRLF(post)));
    }
  }

  // --- What is dropped, and nothing else --------------------------------------

  predicate Blanks(s: string) {
    forall i :: 0 <= i < |s| ==> s[i] == ' ' || s[i] == '\t'
  }

  /** Of a line, exactly the spaces and tabs at its end are dropped. */
  lemma {:induction false} TrimBlanksExactly(l: string, b: string)
    requires Blanks(b) && (l == "" || (l[|l| - 1] != ' ' && l[|l| - 1] != '\t'))
    ensures TrimBlanks(l + b) == l
  {
    if b == "" {
      assert l + b == l;
    } else {
      var s := l + b;
      assert s[..|s| - 1] == l + b[..|b| - 1] && s[|s| - 1] == b[|b| - 1];
      TrimBlanksExactly(l, b[..|b| - 1]);
    }
  }

  /** Spaces and tabs at the end of a line make no difference to the result. */
  lemma TrailingBlanksGo(pre: string, line: string, b: string, post: string)
    requires Blanks(b) && line != "" && GoodLine(line)
    ensures Tidy(line + b) == line
    ensures Normalize(pre + "\n" + (line + b) + "\n" + post) == Normalize(pre + "\n" + line + "\n" + post)
  {
    var x := line + b;
    FrameOfPlain(x);
    TrimBlanksExactly(line, b);
    TidyOfGood(line);
    SameTidySameText(pre, x, line, post);
  }

  lemma {:induction false} CollapseTwice(a: seq<string>, b: seq<string>, blank: bool)
    ensures Collapse(a + (["", ""] + b), blank) == Collapse(a + ([""] + b), blank)
  {
    if a == [] {
      assert a + (["", ""] + b) == ["", ""] + b && a + ([""] + b) == [""] + b;
      assert (["", ""] + b)[1..] == [""] + b;
      assert ([""] + b)[1..] == b;
    } else {
      assert (a + (["", ""] + b))[1..] == a[1..] + (["", ""] + b);
      assert (a + ([""] + b))[1..] == a[1..] + ([""] + b);
      CollapseTwice(a[1..], b, true);
      CollapseTwice(a[1..], b, a[0] == "");
    }
  }

  lemma TidyAllConcat(a: seq<string>, b: seq<string>)
    ensures TidyAll(a + b) == TidyAll(a) + TidyAll(b)
  {
  }

  /** The lines between `pre` and `post` when `n` empty ones are. */
  function EmptyLines(n: nat): seq<string> {
    if n == 0 then [] else [""] + EmptyLines(n - 1)
  }

  function Newlines(n: nat): string {
    if n == 0 then "" else "\n" + Newlines(n - 1)
  }

  lemma {:induction false} LinesApart(pre: string, n: nat, post: string)
    ensures Lines(pre + "\n" + (Newlines(n) + post)) == Lines(pre) + (EmptyLines(n) + Lines(post))
  {
    LinesConcat(pre, Newlines(n) + post);
    LinesBelow(n, post);
  }

  lemma LinesAfterNewline(x: string)
    ensures Lines("\n" + x) == [""] + Lines(x)
  {
    LinesConcat("", x);
    OneLine("");
    assert "" + "\n" + x == "\n" + x;
  }

  lemma {:induction false} LinesBelow(n: nat, post: string)
    ensures Lines(Newlines(n) + post) == EmptyLines(n) + Lines(post)
  {
    if n == 0 {
      assert Newlines(n) + post == post;
      assert EmptyLines(n) + Lines(post) == Lines(post);
    } else {
      LinesBelow(n - 1, post);
      LinesAfterNewline(Newlines(n - 1) + post);
      Attach("\n", Newlines(n - 1), post);
      AttachLines([""], EmptyLines(n - 1), Lines(post));
    }
  }

  lemma AttachLines(a: seq<string>, b: seq<string>, c: seq<string>)
    ensures a + (b + c) == a + b + c
  {
  }

  lemma {:induction false} TidyEmptyLines(n: nat)
    ensures TidyAll(EmptyLines(n)) == EmptyLines(n)
  {
    if n == 0 {
    } else {
      TidyEmptyLines(n - 1);
      TidyAllConcat([""], EmptyLines(n - 1));
      TidyOfGood("");
      assert TidyAll([""]) == [""];
    }
  }

  lemma TwoEmptyLines(n: nat, b: seq<string>)
    requires n >= 2
    ensures EmptyLines(n) + b == ["", ""] + (EmptyLines(n - 2) + b)
    ensures EmptyLines(n - 1) + b == [""] + (EmptyLines(n - 2) + b)
  {
    var rest := EmptyLines(n - 2);
    assert EmptyLines(n - 1) == [""] + rest;
    assert EmptyLines(n) == [""] + EmptyLines(n - 1);
  }

  lemma {:induction false} CollapseEmptyLines(a: seq<string>, n: nat, b: seq<string>)
    requires n >= 1
    ensures Collapse(a + (EmptyLines(n) + b), false) == Collapse(a + ([""] + b), false)
    decreases n
  {
    if n == 1 {
      assert EmptyLines(n) == [""] + EmptyLines(n - 1) == [""];
    } else {
      TwoEmptyLines(n, b);
      CollapseTwice(a, EmptyLines(n - 2) + b, false);
      CollapseEmptyLines(a, n - 1, b);
    }
  }

  predicate NoReturn(s: string) {
    forall i :: 0 <= i < |s| ==> s[i] != '\r'
  }

  lemma {:induction false} NewlinesOnly(n: nat)
    ensures NoReturn(Newlines(n))
  {
    if n == 0 {
    } else {
      NewlinesOnly(n - 1);
    }
  }

  lemma TidyApart(pre: string, n: nat, post: string)
    ensures TidyAll(Lines(pre + "\n" + (Newlines(n) + post)))
      == TidyAll(Lines(pre)) + (EmptyLines(n) + TidyAll(Lines(post)))
  {
    LinesApart(pre, n, post);
    TidyAllConcat(Lines(pre), EmptyLines(n) + Lines(post));
    TidyAllConcat(EmptyLines(n), Lines(post));
    TidyEmptyLines(n);
  }

  lemma NothingToReplace(pre: string, n: nat, post: string)
    requires NoReturn(pre) && NoReturn(post)
    ensures ReplaceCRLF(pre + "\n" + (Newlines(n) + post)) == pre + "\n" + (Newlines(n) + post)
  {
    NewlinesOnly(n);
    ReplaceNothing(pre + "\n" + (Newlines(n) + post));
  }

  lemma NormalizeApart(pre: string, n: nat, post: string)
    requires NoReturn(pre) && NoReturn(post) && n >= 1
    ensures Normalize(pre + "\n" + (Newlines(n) + post))
      == Trim(Join(Collapse(TidyAll(Lines(pre)) + ([""] + TidyAll(Lines(post))), false)))
  {
    NothingToReplace(pre, n, post);
    TidyApart(pre, n, post);
    CollapseEmptyLines(TidyAll(Lines(pre)), n, TidyAll(Lines(post)));
  }

  /** However many empty lines stand between two texts, they read as one. */
  lemma EmptyLinesReadAsOne(pre: string, n: nat, post: string)
    requires NoReturn(pre) && NoReturn(post) && n >= 1
    ensures Normalize(pre + "\n" + (Newlines(n) + post)) == Normalize(pre + "\n" + ("\n" + post))
  {
    NormalizeApart(pre, n, post);
    NormalizeApart(pre, 1, post);
    assert Newlines(1) == "\n" + Newlines(0) == "\n";
  }

  /** A Windows line end reads as a plain one. */
  lemma WindowsLineEndsReadPlain(pre: string, post: string)
    requires pre == "" || pre[|pre| - 1] != '\r'
    ensures Normalize(pre + "\r\n" + post) == Normalize(pre + "\n" + post)
  {
    assert pre + "\r\n" + post == pre + ("\r\n" + post);
    assert pre + "\n" + post == pre + ("\n" + post);
    ReplaceConcat(pre, "\r\n" + post);
    ReplaceConcat(pre, "\n" + post);
    assert ("\r\n" + post)[2..] == post && ("\n" + post)[1..] == post;
  }

  lemma LinesAfterEmptyOnes(t: string, n: nat)
    requires GoodText(t) && Trimmed(t) && t != "" && n >= 1
    ensures Collapse(TidyAll(EmptyLines(n) + Lines(t)), false) == [""] + Lines(t)
  {
    var lines := Lines(t);
    assert IsSpace('\n');
    ReadyIsKept(t, true);
    TidyAllConcat(EmptyLines(n), lines);
    TidyEmptyLines(n);
    CollapseEmptyLines([], n, lines);
    var all := EmptyLines(n) + lines;
    assert [] + all == all && [] + ([""] + lines) == [""] + lines;
    assert ([""] + lines)[1..] == lines;
  }

  lemma NewlineIsTrimmed(t: string)
    requires Trimmed(t) && t != "" && Join(Lines(t)) == t
    ensures Trim(Join([""] + Lines(t))) == t
  {
    LinesHaveNoNewline(t);
    assert ([""] + Lines(t))[1..] == Lines(t);
    assert Join([""] + Lines(t)) == "" + "\n" + t == "\n" + t;
    assert IsSpace('\n') && ("\n" + t)[1..] == t;
    TrimmedStays(t);
  }

  /** Of empty lines before a text in normal form nothing remains, and of it everything. */
  lemma OnlyTheEndsAreTrimmed(t: string, n: nat)
    requires GoodText(t) && Trimmed(t) && t != "" && n >= 1
    ensures Normalize(Newlines(n) + t) == t
  {
    NoReturns(t);
    NewlinesOnly(n);
    ReplaceNothing(Newlines(n) + t);
    LinesBelow(n, t);
    LinesAfterEmptyOnes(t, n);
    assert IsSpace('\n');
    ReadyIsKept(t, false);
    NewlineIsTrimmed(t);
  }
}
