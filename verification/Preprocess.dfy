/** preprocess_input: %ifdef, %ifndef and %endif lines, and the text they exclude, are blanked in place. */
module Preprocess {

  predicate IsSpace(c: char) {
    c == ' ' || c == '\n' || c == '\t' || c == '\r' || c == 0x0B as char || c == 0x0C as char
  }

  /** What a line is for the preprocessor; `holds` is whether the text that it guards is wanted. */
  datatype Kind = Plain | Endif | If(holds: bool)

  datatype Line = Line(kind: Kind, text: string)

  // ----- lines -----

  /** The directive word `w`, followed by white space, at `i`. */
  predicate Word(t: string, i: nat, w: string) {
    i + |w| < |t| && t[i..i + |w|] == w && IsSpace(t[i + |w|])
  }

  /** Where the white space from `j` on ends. */
  function SkipSpace(t: string, j: nat): (k: nat)
    requires j <= |t|
    ensures j <= k <= |t|
    decreases |t| - j
  {
    if j < |t| && IsSpace(t[j]) then SkipSpace(t, j + 1) else j
  }

  /** Where the name that starts at `j` ends. */
  function SkipName(t: string, j: nat): (k: nat)
    requires j <= |t|
    ensures j <= k <= |t|
    decreases |t| - j
  {
    if j < |t| && !IsSpace(t[j]) then SkipName(t, j + 1) else j
  }

  /** The macro name of a directive at `i`; nothing keeps it on the directive's line. */
  function MacroName(t: string, i: nat): string
    requires i + 7 <= |t|
  {
    var j := SkipSpace(t, i + 7);
    t[j..SkipName(t, j)]
  }

  function KindAt(defines: seq<string>, t: string, i: nat): Kind
    requires i <= |t|
  {
    if Word(t, i, "%endif") then Endif
    else if Word(t, i, "%ifdef") then If(MacroName(t, i) in defines)
    else if Word(t, i, "%ifndef") then If(MacroName(t, i) !in defines)
    else Plain
  }

  /** Where the line at `i` ends, its newline included. */
  function NextLine(t: string, i: nat): (k: nat)
    requires i < |t|
    ensures i < k <= |t| && (k < |t| ==> t[k - 1] == '\n')
    ensures forall j | i <= j < k - 1 :: t[j] != '\n'
    decreases |t| - i
  {
    if t[i] == '\n' || i + 1 == |t| then i + 1 else NextLine(t, i + 1)
  }

  function LinesFrom(defines: seq<string>, t: string, i: nat): seq<Line>
    requires i <= |t|
    decreases |t| - i
  {
    if i == |t| then [] else [Line(KindAt(defines, t, i), t[i..NextLine(t, i)])] + LinesFrom(defines, t, NextLine(t, i))
  }

  // ----- the counter -----

  function BlankChar(c: char): char {
    if c == '\n' then '\n' else ' '
  }

  function Blank(s: string): (r: string)
    ensures |r| == |s| && forall k | 0 <= k < |s| :: r[k] == BlankChar(s[k])
  {
    seq(|s|, k requires 0 <= k < |s| => BlankChar(s[k]))
  }

  /** The single counter: how many of the open blocks, from the outermost excluded one on, are to be closed. */
  function NextCount(kind: Kind, exclude: nat): nat {
    match kind
    case Plain => exclude
    case Endif => if exclude > 0 then exclude - 1 else 0
    case If(holds) => if exclude > 0 then exclude + 1 else if holds then 0 else 1
  }

  function LineOut(line: Line, exclude: nat): string {
    if line.kind.Plain? && exclude == 0 then line.text else Blank(line.text)
  }

  function Output(lines: seq<Line>, exclude: nat): string {
    if lines == [] then "" else LineOut(lines[0], exclude) + Output(lines[1..], NextCount(lines[0].kind, exclude))
  }

  function LastCount(lines: seq<Line>, exclude: nat): nat {
    if lines == [] then exclude else LastCount(lines[1..], NextCount(lines[0].kind, exclude))
  }

  /** The number of the last line that began an excluded block, when the first of `lines` has number `lineno` and
      line `begun` began one last. */
  function OpenLine(lines: seq<Line>, exclude: nat, lineno: nat, begun: nat): nat {
    if lines == [] then begun
    else
      var exclude' := NextCount(lines[0].kind, exclude);
      OpenLine(lines[1..], exclude', lineno + 1, if exclude == 0 && exclude' > 0 then lineno else begun)
  }

  // ----- blocks -----

  /** Balanced text: plain lines, and blocks between a directive and its %endif. */
  datatype Block = Text(text: string) | Conditional(holds: bool, open: string, body: seq<Block>, close: string)

  function LinesOf(b: Block): seq<Line> {
    match b
    case Text(text) => [Line(Plain, text)]
    case Conditional(holds, open, body, close) => [Line(If(holds), open)] + AllLines(body) + [Line(Endif, close)]
  }

  function AllLines(bs: seq<Block>): seq<Line> {
    if bs == [] then [] else LinesOf(bs[0]) + AllLines(bs[1..])
  }

  /** What should be left: a text survives if and only if all conditions around it hold. */
  function Render(b: Block, wanted: bool): string {
    match b
    case Text(text) => if wanted then text else Blank(text)
    case Conditional(holds, open, body, close) => Blank(open) + RenderAll(body, wanted && holds) + Blank(close)
  }

  function RenderAll(bs: seq<Block>, wanted: bool): string {
    if bs == [] then "" else Render(bs[0], wanted) + RenderAll(bs[1..], wanted)
  }

  lemma {:induction false} OutputConcat(a: seq<Line>, b: seq<Line>, exclude: nat)
    ensures Output(a + b, exclude) == Output(a, exclude) + Output(b, LastCount(a, exclude))
    ensures LastCount(a + b, exclude) == LastCount(b, LastCount(a, exclude))
    decreases |a|
  {
    if a == [] {
      assert a + b == b;
    } else {
      assert (a + b)[1..] == a[1..] + b;
      OutputConcat(a[1..], b, NextCount(a[0].kind, exclude));
    }
  }

  lemma OutputOne(line: Line, exclude: nat)
    ensures Output([line], exclude) == LineOut(line, exclude)
            && LastCount([line], exclude) == NextCount(line.kind, exclude)
  {
    assert LineOut(line, exclude) + "" == LineOut(line, exclude);
  }

  /** The counter does what the blocks mean, at any depth of exclusion, and is the same afterwards. */
  lemma {:induction false} CounterIsBlock(b: Block, exclude: nat)
    ensures Output(LinesOf(b), exclude) == Render(b, exclude == 0) && LastCount(LinesOf(b), exclude) == exclude
    decreases b
  {
    match b
    case Text(text) =>
      OutputOne(Line(Plain, text), exclude);
    case Conditional(holds, open, body, close) =>
      var o, c := Line(If(holds), open), Line(Endif, close);
      var inner := NextCount(o.kind, exclude);
      OutputOne(o, exclude);
      OutputOne(c, inner);
      CounterIsBlocks(body, inner);
      OutputConcat([o] + AllLines(body), [c], exclude);
      OutputConcat([o], AllLines(body), exclude);
  }

  lemma {:induction false} CounterIsBlocks(bs: seq<Block>, exclude: nat)
    ensures Output(AllLines(bs), exclude) == RenderAll(bs, exclude == 0) && LastCount(AllLines(bs), exclude) == exclude
    decreases bs
  {
    if bs != [] {
      CounterIsBlock(bs[0], exclude);
      CounterIsBlocks(bs[1..], exclude);
      OutputConcat(LinesOf(bs[0]), AllLines(bs[1..]), exclude);
    }
  }

  lemma {:induction false} OpenLineConcat(a: seq<Line>, b: seq<Line>, exclude: nat, lineno: nat, begun: nat)
    ensures OpenLine(a + b, exclude, lineno, begun)
         == OpenLine(b, LastCount(a, exclude), lineno + |a|, OpenLine(a, exclude, lineno, begun))
    decreases |a|
  {
    if a == [] {
      assert a + b == b;
    } else {
      var exclude' := NextCount(a[0].kind, exclude);
      assert (a + b)[1..] == a[1..] + b;
      OpenLineConcat(a[1..], b, exclude', lineno + 1, if exclude == 0 && exclude' > 0 then lineno else begun);
    }
  }

  /** Within an excluded block no other begins one. */
  lemma {:induction false} InsideBlock(b: Block, exclude: nat, lineno: nat, begun: nat)
    requires exclude > 0
    ensures OpenLine(LinesOf(b), exclude, lineno, begun) == begun
    decreases b
  {
    match b
    case Text(text) =>
    case Conditional(holds, open, body, close) =>
      var o, c := [Line(If(holds), open)], [Line(Endif, close)];
      InsideBlocks(body, exclude + 1, lineno + 1, begun);
      CounterIsBlocks(body, exclude + 1);
      OpenLineConcat(o + AllLines(body), c, exclude, lineno, begun);
      OpenLineConcat(o, AllLines(body), exclude, lineno, begun);
      OutputConcat(o, AllLines(body), exclude);
  }

  lemma {:induction false} InsideBlocks(bs: seq<Block>, exclude: nat, lineno: nat, begun: nat)
    requires exclude > 0
    ensures OpenLine(AllLines(bs), exclude, lineno, begun) == begun
    decreases bs
  {
    if bs != [] {
      CounterIsBlock(bs[0], exclude);
      InsideBlock(bs[0], exclude, lineno, begun);
      InsideBlocks(bs[1..], exclude, lineno + |LinesOf(bs[0])|, begun);
      OpenLineConcat(LinesOf(bs[0]), AllLines(bs[1..]), exclude, lineno, begun);
    }
  }

  /** A directive that is never closed is reported exactly when its condition does not hold, with the number of its
      line: if it does, the missing %endif goes unnoticed. */
  lemma UnclosedIsNoticedIfExcluded(before: seq<Block>, holds: bool, open: string, after: seq<Block>)
    ensures var lines := AllLines(before) + [Line(If(holds), open)] + AllLines(after);
            (LastCount(lines, 0) != 0 <==> !holds) && (!holds ==> OpenLine(lines, 0, 1, 1) == |AllLines(before)| + 1)
  {
    var o := Line(If(holds), open);
    OutputOne(o, 0);
    CounterIsBlocks(before, 0);
    CounterIsBlocks(after, NextCount(If(holds), 0));
    OutputConcat(AllLines(before), [o], 0);
    OutputConcat(AllLines(before) + [o], AllLines(after), 0);
    if !holds {
      var n := |AllLines(before)|;
      OpenLineConcat(AllLines(before) + [o], AllLines(after), 0, 1, 1);
      OpenLineConcat(AllLines(before), [o], 0, 1, 1);
      InsideBlocks(after, 1, n + 2, n + 1);
    }
  }

  /** One line more. */
  lemma NextOutput(defines: seq<string>, t: string, i: nat, exclude: nat)
    requires i < |t|
    ensures var line, n := Line(KindAt(defines, t, i), t[i..NextLine(t, i)]), NextLine(t, i);
            && Output(LinesFrom(defines, t, i), exclude) == LineOut(line, exclude)
                + Output(LinesFrom(defines, t, n), NextCount(line.kind, exclude))
            && LastCount(LinesFrom(defines, t, i), exclude) ==
                LastCount(LinesFrom(defines, t, n), NextCount(line.kind, exclude))
  {
    var lines := LinesFrom(defines, t, i);
    assert lines[1..] == LinesFrom(defines, t, NextLine(t, i));
  }

  // ----- the buffer -----

  const NUL := 0 as char

  /** The text from `i` on is untouched. */
  ghost predicate Ahead(z: array<char>, t: string, i: nat)
    reads z
  {
    i <= |t| < z.Length && z[|t|] == NUL && NUL !in t && forall k | i <= k < |t| :: z[k] == t[k]
  }

  /** strncmp with a directive word, and the white space behind it. */
  method WordAt(z: array<char>, i: nat, w: string, ghost t: string) returns (b: bool)
    requires Ahead(z, t, i) && NUL !in w
    ensures b <==> Word(t, i, w)
  {
    var k := 0;
    while k < |w|
      invariant 0 <= k <= |w| && i + k <= |t| && t[i..i + k] == w[..k]
    {
      if z[i + k] != w[k] {
        assert i + |w| < |t| ==> t[i..i + |w|][k] == t[i + k];
        return false;
      }
      assert w[k] in w;
      assert t[i..i + k + 1] == t[i..i + k] + [t[i + k]] && w[..k + 1] == w[..k] + [w[k]];
      k := k + 1;
    }
    assert w[..k] == w;
    b := IsSpace(z[i + |w|]);
  }

  /** Whether the macro that a directive names is defined. */
  method IsDefined(z: array<char>, i: nat, defines: seq<string>, ghost t: string) returns (b: bool)
    requires Ahead(z, t, i) && i + 7 <= |t|
    ensures b <==> MacroName(t, i) in defines
  {
    var j := i + 7;
    while IsSpace(z[j])
      invariant i + 7 <= j <= |t| && SkipSpace(t, j) == SkipSpace(t, i + 7)
      decreases |t| - j
    {
      j := j + 1;
    }
    var n := 0;
    while z[j + n] != NUL && !IsSpace(z[j + n])
      invariant j + n <= |t| && SkipName(t, j + n) == SkipName(t, j)
      decreases |t| - n
    {
      assert z[j + n] == t[j + n];
      n := n + 1;
    }
    assert j + n < |t| ==> t[j + n] in t;
    assert z[j..j + n] == MacroName(t, i);
    b := false;
    for k := 0 to |defines|
      invariant !b && MacroName(t, i) !in defines[..k]
    {
      if defines[k] == z[j..j + n] {
        return true;
      }
    }
  }

  method BlankLine(z: array<char>, i: nat, ghost t: string)
    requires Ahead(z, t, i) && i < |t|
    modifies z
    ensures forall k | 0 <= k < z.Length :: z[k] == if i <= k < NextLine(t, i) then BlankChar(t[k]) else old(z[k])
  {
    var j := i;
    ghost var n := NextLine(t, i);
    while z[j] != NUL && z[j] != '\n'
      invariant i <= j <= n && (forall k | i <= k < j :: t[k] != '\n') && (j == n ==> n == |t|)
      invariant forall k | 0 <= k < z.Length :: z[k] == if i <= k < j then ' ' else old(z[k])
      decreases n - j
    {
      assert j < |t| && z[j] == t[j];
      z[j] := ' ';
      j := j + 1;
    }
    assert j < n ==> t[j] in t;
  }

  method BlankRange(z: array<char>, start: nat, i: nat)
    requires start <= i <= z.Length
    modifies z
    ensures forall k | 0 <= k < z.Length :: z[k] == if start <= k < i then BlankChar(old(z[k])) else old(z[k])
  {
    var j := start;
    while j < i
      invariant start <= j <= i
      invariant forall k | 0 <= k < z.Length :: z[k] == if start <= k < j then BlankChar(old(z[k])) else old(z[k])
    {
      if z[j] != '\n' { z[j] := ' '; }
      j := j + 1;
    }
  }

  /** The buffer when the lines before `p` have been handled: `out` is what is left of them, except that the text
      excluded since `start` is still to be blanked. */
  ghost predicate Progress(b: string, t: string, p: nat, out: string, exclude: nat, start: nat) {
    && |out| == p <= |t| < |b| && b[|t|] == NUL
    && (forall k | 0 <= k < |t| :: b[k] != NUL && (b[k] == '\n' <==> t[k] == '\n'))
    && (forall k | p <= k < |t| :: b[k] == t[k])
    && (forall k | 0 <= k < p :: if exclude > 0 && start <= k then out[k] == BlankChar(t[k]) else b[k] == out[k])
    && (exclude > 0 ==> start <= p)
  }

  /** What handling the line at `p` does to the buffer. */
  ghost predicate Handled(b: string, b': string, t: string, p: nat, n: nat, kind: Kind, exclude: nat, start: nat) {
    && |b'| == |b| && p <= n <= |t| < |b|
    && forall k | 0 <= k < |b| ::
         b'[k] == if p <= k < n then (if kind.Plain? then b[k] else BlankChar(t[k]))
                  else if start <= k < p && kind.Endif? && exclude == 1 then BlankChar(b[k]) else b[k]
  }

  lemma ProgressStep(b: string, b': string, t: string, p: nat, out: string, kind: Kind, exclude: nat, start: nat,
                     start': nat)
    requires Progress(b, t, p, out, exclude, start) && p < |t|
    requires Handled(b, b', t, p, NextLine(t, p), kind, exclude, start)
    requires start' == if kind.If? && exclude == 0 && !kind.holds then p else start
    ensures Progress(b', t, NextLine(t, p), out + LineOut(Line(kind, t[p..NextLine(t, p)]), exclude),
                     NextCount(kind, exclude), start')
  {
    var n := NextLine(t, p);
    var line := LineOut(Line(kind, t[p..n]), exclude);
    var out' := out + line;
    assert forall k | p <= k < n :: out'[k] == line[k - p];
    assert forall k | 0 <= k < p :: out'[k] == out[k];
  }

  /** The fourth letter tells the two opening directives apart. */
  lemma FourthLetter(t: string, i: nat)
    ensures Word(t, i, "%ifdef") ==> i + 7 <= |t| && t[i + 3] == 'd'
    ensures Word(t, i, "%ifndef") ==> i + 7 <= |t| && t[i + 3] == 'n'
  {
    var w, v := "%ifdef", "%ifndef";
    if Word(t, i, w) { assert t[i..i + |w|][3] == w[3]; }
    if Word(t, i, v) { assert t[i..i + |v|][3] == v[3]; }
  }

  /** The count after an opening directive. */
  method OpenBlock(z: array<char>, i: nat, defines: seq<string>, exclude: nat, start: nat, ghost t: string)
    returns (exclude': nat, start': nat)
    requires Ahead(z, t, i) && i < |t| && (Word(t, i, "%ifdef") || Word(t, i, "%ifndef")) && !Word(t, i, "%endif")
    ensures KindAt(defines, t, i).If? && exclude' == NextCount(KindAt(defines, t, i), exclude)
    ensures start' == if exclude == 0 && !KindAt(defines, t, i).holds then i else start
  {
    FourthLetter(t, i);
    hide MacroName, Word;
    exclude', start' := exclude, start;
    if exclude > 0 {
      exclude' := exclude + 1;
    } else {
      var defined := IsDefined(z, i, defines, t);
      exclude' := if defined then 0 else 1;
      if z[i + 3] == 'n' { exclude' := if exclude' > 0 then 0 else 1; }
      if exclude' > 0 { start' := i; }
    }
  }

  /** The three branches for a line. */
  method HandleLine(z: array<char>, i: nat, defines: seq<string>, exclude: nat, start: nat, ghost t: string)
    returns (exclude': nat, start': nat)
    requires Ahead(z, t, i) && i < |t| && (exclude > 0 ==> start <= i)
    modifies z
    ensures exclude' == NextCount(KindAt(defines, t, i), exclude)
    ensures start' == if KindAt(defines, t, i).If? && exclude == 0 && !KindAt(defines, t, i).holds then i else start
    ensures Handled(old(z[..]), z[..], t, i, NextLine(t, i), KindAt(defines, t, i), exclude, start)
  {
    hide Word, MacroName;
    exclude', start' := exclude, start;
    var endif := WordAt(z, i, "%endif", t);
    var ifdef := WordAt(z, i, "%ifdef", t);
    var ifndef := WordAt(z, i, "%ifndef", t);
    if endif {
      if exclude > 0 {
        exclude' := exclude - 1;
        if exclude' == 0 { BlankRange(z, start, i); }
      }
      BlankLine(z, i, t);
    } else if ifdef || ifndef {
      exclude', start' := OpenBlock(z, i, defines, exclude, start, t);
      BlankLine(z, i, t);
    }
  }

  predicate LineStart(t: string, k: nat) {
    k == 0 || (k <= |t| && t[k - 1] == '\n')
  }

  lemma NextStart(t: string, p: nat)
    requires p < |t|
    ensures NextLine(t, p) < |t| ==> LineStart(t, NextLine(t, p))
    ensures forall k | p + 1 <= k < NextLine(t, p) :: !LineStart(t, k)
  {
  }

  lemma PlainLine(defines: seq<string>, t: string, i: nat)
    requires i < |t| && t[i] != '%'
    ensures KindAt(defines, t, i).Plain?
  {
    assert forall w | Word(t, i, w) && |w| > 0 :: t[i..i + |w|][0] == t[i];
  }

  /** What the loop may rely on when it looks at the buffer. */
  lemma BufferReads(z: array<char>, t: string, p: nat, out: string, exclude: nat, start: nat, i: nat)
    requires Progress(z[..], t, p, out, exclude, start) && i <= p && i < z.Length && z[i] != NUL && NUL !in t
    ensures i <= |t| && i < |t|
    ensures LineStart(t, i) <==> i == 0 || z[i - 1] == '\n'
    ensures i == p ==> z[i] == t[i] && Ahead(z, t, i) && (exclude > 0 ==> start <= i)
  {
    var b := z[..];
    assert i < |t|;
    if i > 0 { assert b[i - 1] == '\n' <==> t[i - 1] == '\n'; }
    if i == p {
      forall k | i <= k < |t| ensures z[k] == t[k] { assert b[k] == t[k]; }
    }
  }

  lemma Untouched(b: string, t: string, p: nat, n: nat, exclude: nat, start: nat)
    requires p <= n <= |t| < |b|
    ensures Handled(b, b, t, p, n, Plain, exclude, start)
  {
  }

  /** The loop's invariant: `p` is the start of the first line not handled yet, and what is left of the lines before
      it is what the counter leaves. */
  ghost predicate InLoop(defines: seq<string>, original: string, b: string, t: string, i: nat, p: nat, out: string,
                         exclude: nat, start: nat) {
    && i <= p && Progress(b, t, p, out, exclude, start) && |original| == |b| && b[|t|..] == original[|t|..]
    && (p < |t| ==> LineStart(t, p)) && (forall k | i <= k < p :: !LineStart(t, k))
    && Output(LinesFrom(defines, t, 0), 0) == out + Output(LinesFrom(defines, t, p), exclude)
    && LastCount(LinesFrom(defines, t, 0), 0) == LastCount(LinesFrom(defines, t, p), exclude)
  }

  lemma LoopStarts(defines: seq<string>, b: string, t: string)
    requires |t| < |b| && b[..|t|] == t && b[|t|] == NUL && NUL !in t
    ensures InLoop(defines, b, b, t, 0, 0, "", 0, 0)
  {
    assert forall k | 0 <= k < |t| :: b[k] == b[..|t|][k] && t[k] in t;
    assert "" + Output(LinesFrom(defines, t, 0), 0) == Output(LinesFrom(defines, t, 0), 0);
  }

  /** A turn within a line that has been handled. */
  lemma LoopSkips(defines: seq<string>, original: string, b: string, t: string, i: nat, p: nat, out: string,
                  exclude: nat, start: nat)
    requires InLoop(defines, original, b, t, i, p, out, exclude, start) && i < p
    ensures InLoop(defines, original, b, t, i + 1, p, out, exclude, start)
  {
  }

  /** A turn that handles a line. */
  lemma LoopHandles(defines: seq<string>, original: string, b: string, t: string, p: nat, out: string, exclude: nat,
                    start: nat,
                    b': string, exclude': nat, start': nat)
    requires InLoop(defines, original, b, t, p, p, out, exclude, start) && p < |t|
    requires var kind := KindAt(defines, t, p);
             && Handled(b, b', t, p, NextLine(t, p), kind, exclude, start) && exclude' == NextCount(kind, exclude)
             && start' == if kind.If? && exclude == 0 && !kind.holds then p else start
    ensures InLoop(defines, original, b', t, p + 1, NextLine(t, p),
                   out + LineOut(Line(KindAt(defines, t, p), t[p..NextLine(t, p)]), exclude),
                   exclude', start')
  {
    hide Progress, Handled, KindAt, Output, LinesFrom, LastCount, LineOut, NextCount, NextLine, LineStart;
    var kind, n := KindAt(defines, t, p), NextLine(t, p);
    var line := LineOut(Line(kind, t[p..n]), exclude);
    NextStart(t, p);
    ProgressStep(b, b', t, p, out, kind, exclude, start, start');
    NextOutput(defines, t, p, exclude);
    TailKept(b, b', t, p, n, kind, exclude, start);
    assert out + (line + Output(LinesFrom(defines, t, n), exclude')) == out + line
           + Output(LinesFrom(defines, t, n), exclude');
  }

  lemma TailKept(b: string, b': string, t: string, p: nat, n: nat, kind: Kind, exclude: nat, start: nat)
    requires Handled(b, b', t, p, n, kind, exclude, start)
    ensures |b'| == |b| && b'[|t|..] == b[|t|..]
  {
  }

  lemma LoopEnds(defines: seq<string>, original: string, b: string, t: string, i: nat, p: nat, out: string,
                 exclude: nat, start: nat)
    requires InLoop(defines, original, b, t, i, p, out, exclude, start) && b[i] == NUL
    ensures exclude == LastCount(LinesFrom(defines, t, 0), 0)
    ensures exclude == 0 ==> b[..|t|] == Output(LinesFrom(defines, t, 0), 0)
    ensures b[|t|..] == original[|t|..] && forall k | 0 <= k < |t| :: b[k] == '\n' <==> t[k] == '\n'
    ensures p == |t|
  {
    assert p == |t| && Output(LinesFrom(defines, t, p), exclude) == "";
    assert exclude == 0 ==> b[..|t|] == out == out + "";
  }

  /** What a turn may rely on when it looks at the buffer. */
  lemma LoopReads(defines: seq<string>, original: string, z: array<char>, t: string, i: nat, p: nat, out: string,
                  exclude: nat, start: nat)
    requires InLoop(defines, original, z[..], t, i, p, out, exclude, start) && i < z.Length && z[i] != NUL && NUL !in t
    ensures i < |t| && i <= p <= |t| < z.Length
    ensures i == p ==> Ahead(z, t, i) && (exclude > 0 ==> start <= i)
    ensures z[i] == '\n' <==> t[i] == '\n'
    ensures i < p ==> i > 0 && z[i - 1] != '\n'
    ensures i == p && (z[i] != '%' || (i > 0 && z[i - 1] != '\n')) ==> KindAt(defines, t, i).Plain?
  {
    BufferReads(z, t, p, out, exclude, start, i);
    if i == p && t[i] != '%' { PlainLine(defines, t, i); }
  }

  lemma LoopBounds(defines: seq<string>, original: string, b: string, t: string, i: nat, p: nat, out: string,
                   exclude: nat, start: nat)
    requires InLoop(defines, original, b, t, i, p, out, exclude, start)
    ensures i <= p <= |t| < |b|
  {
  }

  // ----- line numbers -----

  /** The newlines among the first `n` characters. */
  function Newlines(t: string, n: nat): nat
    requires n <= |t|
  {
    if n == 0 then 0 else Newlines(t, n - 1) + if t[n - 1] == '\n' then 1 else 0
  }

  lemma {:induction false} NewlinesInLine(t: string, p: nat, k: nat)
    requires p < |t| && p <= k < NextLine(t, p)
    ensures Newlines(t, k) == Newlines(t, p)
    decreases k
  {
    if k > p { NewlinesInLine(t, p, k - 1); }
  }

  /** At character `i`, with the lines before `p` handled. */
  ghost predicate Counted(defines: seq<string>, t: string, i: nat, p: nat, exclude: nat, lineno: nat,
                          startLineno: nat) {
    && i <= p <= |t| && lineno == 1 + Newlines(t, i)
    && OpenLine(LinesFrom(defines, t, 0), 0, 1, 1) ==
        OpenLine(LinesFrom(defines, t, p), exclude, 1 + Newlines(t, p), startLineno)
  }

  lemma CountedSkips(defines: seq<string>, t: string, i: nat, p: nat, exclude: nat, lineno: nat, startLineno: nat)
    requires Counted(defines, t, i, p, exclude, lineno, startLineno) && i < p
    ensures Counted(defines, t, i + 1, p, exclude, if t[i] == '\n' then lineno + 1 else lineno, startLineno)
  {
  }

  /** One line more, and its number. */
  lemma NextOpenLine(defines: seq<string>, t: string, p: nat, exclude: nat, begun: nat)
    requires p < |t|
    ensures var n, exclude' := NextLine(t, p), NextCount(KindAt(defines, t, p), exclude);
            OpenLine(LinesFrom(defines, t, p), exclude, 1 + Newlines(t, p), begun) ==
              OpenLine(LinesFrom(defines, t, n), exclude', 1 + Newlines(t, n),
                       if exclude == 0 && exclude' > 0 then 1 + Newlines(t, p) else begun)
  {
    hide KindAt, NextLine, Newlines, NextCount;
    var n := NextLine(t, p);
    NewlinesInLine(t, p, n - 1);
    OneMoreNewline(t, n - 1);
    var lines := LinesFrom(defines, t, p);
    assert lines[1..] == LinesFrom(defines, t, n) && lines[0].kind == KindAt(defines, t, p);
    if n == |t| {
      assert LinesFrom(defines, t, n) == [];
    }
  }

  lemma OpensWithPercent(defines: seq<string>, t: string, p: nat, exclude: nat)
    requires p < |t| && exclude == 0 && NextCount(KindAt(defines, t, p), exclude) > 0
    ensures t[p] == '%'
  {
    if t[p] != '%' { PlainLine(defines, t, p); }
  }

  lemma CountedHandles(defines: seq<string>, t: string, p: nat, exclude: nat, lineno: nat, startLineno: nat,
                       exclude': nat)
    requires Counted(defines, t, p, p, exclude, lineno, startLineno) && p < |t|
    requires exclude' == NextCount(KindAt(defines, t, p), exclude)
    ensures var now := if t[p] == '\n' then lineno + 1 else lineno;
            Counted(defines, t, p + 1, NextLine(t, p), exclude', now, if exclude == 0
                    && exclude' > 0 then now else startLineno)
  {
    hide KindAt, NextLine, NextCount, LinesFrom, OpenLine, Newlines;
    NextOpenLine(defines, t, p, exclude, startLineno);
    OneMoreNewline(t, p);
    if exclude == 0 && exclude' > 0 { OpensWithPercent(defines, t, p, exclude); }
  }

  lemma OneMoreNewline(t: string, p: nat)
    requires p < |t|
    ensures Newlines(t, p + 1) == Newlines(t, p) + if t[p] == '\n' then 1 else 0
  {
  }

  /** preprocess_input. The text is what stands before the first NUL; the result says whether no excluded block was
      left open, and where the last one began. Length and newlines never change, and what is left is what the counter
      leaves; of balanced text that is what the nested blocks mean. */
  method PreprocessInput(z: array<char>, defines: seq<string>, ghost t: string) returns (ok: bool, startLineno: nat)
    requires |t| < z.Length && z[..|t|] == t && z[|t|] == NUL && NUL !in t
    modifies z
    ensures ok <==> LastCount(LinesFrom(defines, t, 0), 0) == 0
    ensures startLineno == OpenLine(LinesFrom(defines, t, 0), 0, 1, 1)
    ensures ok ==> z[..|t|] == Output(LinesFrom(defines, t, 0), 0)
    ensures forall bs | LinesFrom(defines, t, 0) == AllLines(bs) :: ok && z[..|t|] == RenderAll(bs, true)
    ensures forall k | 0 <= k < |t| :: z[k] == '\n' <==> t[k] == '\n'
    ensures z[|t|..] == old(z[|t|..])
  {
    hide Progress, Handled, KindAt, Output, LinesFrom, LastCount, LineOut, NextCount, Blank, NextLine, LineStart, Ahead,
         InLoop, Counted,
         OpenLine, AllLines, RenderAll, Newlines;
    ghost var original := z[..];
    assert original[..|t|] == t;
    LoopStarts(defines, original, t);
    var i: nat, exclude: nat, start: nat, lineno: nat := 0, 0, 0, 1;
    startLineno := 1;
    ghost var p: nat, out := 0, "";
    CountedStarts(defines, t);
    while z[i] != NUL
      invariant i < z.Length && |t| < z.Length && InLoop(defines, original, z[..], t, i, p, out, exclude, start)
      invariant Counted(defines, t, i, p, exclude, lineno, startLineno)
      decreases |t| - i
    {
      ghost var b, e, s, l, o := z[..], exclude, start, lineno, startLineno;
      LoopReads(defines, original, z, t, i, p, out, exclude, start);
      if z[i] == '\n' { lineno := lineno + 1; }
      if z[i] != '%' || (i > 0 && z[i - 1] != '\n') {
        if i == p {
          Untouched(b, t, i, NextLine(t, i), e, s);
          StillPlain(KindAt(defines, t, i), e);
        }
      } else {
        var outside := exclude == 0;
        exclude, start := HandleLine(z, i, defines, exclude, start, t);
        if outside && exclude > 0 { startLineno := lineno; }
      }
      if i == p {
        CountedHandles(defines, t, p, e, l, o, exclude);
        LoopHandles(defines, original, b, t, p, out, e, s, z[..], exclude, start);
        p, out := NextLine(t, p), out + LineOut(Line(KindAt(defines, t, p), t[p..NextLine(t, p)]), e);
      } else {
        CountedSkips(defines, t, i, p, e, l, o);
        LoopSkips(defines, original, z[..], t, i, p, out, exclude, start);
      }
      i := i + 1;
      LoopBounds(defines, original, z[..], t, i, p, out, exclude, start);
    }
    LoopEnds(defines, original, z[..], t, i, p, out, exclude, start);
    CountedEnds(defines, t, i, exclude, lineno, startLineno);
    ok := exclude == 0;
    ghost var final := z[..];
    assert final[..|t|] == z[..|t|] && final[|t|..] == z[|t|..] && original[|t|..] == old(z[|t|..]);
    assert forall k | 0 <= k < |t| :: final[k] == z[k];
    forall bs | LinesFrom(defines, t, 0) == AllLines(bs) ensures ok && z[..|t|] == RenderAll(bs, true) {
      CounterIsBlocks(bs, 0);
    }
  }

  lemma CountedStarts(defines: seq<string>, t: string)
    ensures Counted(defines, t, 0, 0, 0, 1, 1)
  {
  }

  lemma CountedEnds(defines: seq<string>, t: string, i: nat, exclude: nat, lineno: nat, startLineno: nat)
    requires Counted(defines, t, i, |t|, exclude, lineno, startLineno)
    ensures startLineno == OpenLine(LinesFrom(defines, t, 0), 0, 1, 1)
  {
  }

  lemma StillPlain(kind: Kind, exclude: nat)
    requires kind.Plain?
    ensures NextCount(kind, exclude) == exclude
  {
  }
}
