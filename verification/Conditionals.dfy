/** What %ifdef and %ifndef mean: text as it is written, with blocks between a directive and its %endif, and which of
    its lines preprocess_input leaves. */
module Conditionals {
  import opened P = Preprocess

  datatype Guard = Ifdef(name: string) | Ifndef(name: string)

  /** A line that is no directive, or a block: the directive, white space, the name, what else is on that line, the
      guarded text, and what stands behind %endif on its line. */
  datatype Written =
    | Ordinary(line: string)
    | Guarded(guard: Guard, gap: string, rest: string, body: seq<Written>, behind: string)

  function Opening(guard: Guard, gap: string, rest: string): string {
    (match guard case Ifdef(_) => "%ifdef" case Ifndef(_) => "%ifndef") + gap + guard.name + rest
  }

  function TextOf(b: Written): string {
    match b
    case Ordinary(line) => line
    case Guarded(guard, gap, rest, body, behind) => Opening(guard, gap, rest) + AllText(body) + "%endif" + behind
  }

  function AllText(bs: seq<Written>): string {
    if bs == [] then "" else TextOf(bs[0]) + AllText(bs[1..])
  }

  // ----- what may be written -----

  /** One line: no newline in it but at its end, where it may be missing if the line is the last of the text. */
  predicate OneLine(s: string, last: bool) {
    s != "" && '\n' !in s[..|s| - 1] && (s[|s| - 1] == '\n' || last)
  }

  predicate Spaces(s: string) {
    forall k | 0 <= k < |s| :: IsSpace(s[k])
  }

  predicate ProperOpening(guard: Guard, gap: string, rest: string) {
    && gap != "" && Spaces(gap) && '\n' !in gap
    && guard.name != "" && (forall k | 0 <= k < |guard.name| :: !IsSpace(guard.name[k]))
    && OneLine(rest, false) && IsSpace(rest[0])
  }

  /** Every line is a line, no ordinary one is a directive, and the names are names. */
  predicate Proper(b: Written, last: bool) {
    match b
    case Ordinary(line) =>
      OneLine(line, last) && !Word(line, 0, "%ifdef") && !Word(line, 0, "%ifndef") && !Word(line, 0, "%endif")
    case Guarded(guard, gap, rest, body, behind) =>
      && ProperOpening(guard, gap, rest) && AllProper(body, false)
      && OneLine(behind, last) && IsSpace(behind[0])
  }

  predicate AllProper(bs: seq<Written>, last: bool) {
    bs != [] ==> Proper(bs[0], last && |bs| == 1) && AllProper(bs[1..], last)
  }

  // ----- its lines -----

  /** A line and the directives that it stands under. */
  datatype Row = Row(text: string, directive: bool, guards: seq<Guard>)

  function RowsOf(b: Written, guards: seq<Guard>): seq<Row> {
    match b
    case Ordinary(line) => [Row(line, false, guards)]
    case Guarded(guard, gap, rest, body, behind) =>
      [Row(Opening(guard, gap, rest), true, guards)] + Rows(body, guards + [guard])
      + [Row("%endif" + behind, true, guards)]
  }

  function Rows(bs: seq<Written>, guards: seq<Guard>): seq<Row> {
    if bs == [] then [] else RowsOf(bs[0], guards) + Rows(bs[1..], guards)
  }

  /** Where row `r` begins. */
  function Begin(rows: seq<Row>, r: nat): (n: nat)
    requires r <= |rows|
  {
    if r == 0 then 0 else Begin(rows, r - 1) + |rows[r - 1].text|
  }

  // ----- as the preprocessor sees it -----

  predicate Holds(defines: seq<string>, guard: Guard) {
    match guard
    case Ifdef(name) => name in defines
    case Ifndef(name) => name !in defines
  }

  function Meaning(defines: seq<string>, b: Written): Block {
    match b
    case Ordinary(line) => Text(line)
    case Guarded(guard, gap, rest, body, behind) =>
      Conditional(Holds(defines, guard), Opening(guard, gap, rest), Meanings(defines, body), "%endif" + behind)
  }

  function Meanings(defines: seq<string>, bs: seq<Written>): seq<Block> {
    if bs == [] then [] else [Meaning(defines, bs[0])] + Meanings(defines, bs[1..])
  }

  /** At `i` stands just the line `s`. */
  ghost predicate LineAt(t: string, i: nat, s: string) {
    i + |s| <= |t| && t[i..i + |s|] == s && OneLine(s, i + |s| == |t|)
  }

  lemma {:induction false} LineEnds(t: string, i: nat, s: string)
    requires LineAt(t, i, s)
    ensures NextLine(t, i) == i + |s|
    decreases |s|
  {
    assert t[i] == s[0];
    if |s| == 1 {
      assert s[0] == '\n' || i + 1 == |t|;
    } else {
      assert s[0] in s[..|s| - 1];
      assert t[i + 1..i + |s|] == s[1..];
      assert s[1..][..|s| - 2] == s[..|s| - 1][1..];
      LineEnds(t, i + 1, s[1..]);
    }
  }

  lemma WordWithin(t: string, i: nat, s: string, w: string)
    requires LineAt(t, i, s) && Word(t, i, w)
    ensures '\n' in w || |w| < |s|
  {
    var n := |s|;
    if |w| >= n {
      assert t[i..i + |w|][n - 1] == t[i + n - 1] == t[i..i + n][n - 1];
      assert w[n - 1] == '\n';
    }
  }

  lemma WordLetter(t: string, i: nat, w: string, k: nat)
    requires k < |w|
    ensures Word(t, i, w) ==> t[i + k] == w[k]
  {
    if Word(t, i, w) { assert t[i..i + |w|][k] == t[i + k]; }
  }

  /** Whether a line is a directive does not depend on what follows it. */
  lemma WordInLine(t: string, i: nat, s: string, w: string)
    requires LineAt(t, i, s) && '\n' !in w
    ensures Word(t, i, w) <==> Word(s, 0, w)
  {
    if Word(t, i, w) {
      WordWithin(t, i, s, w);
      assert t[i..i + |w|] == s[..|w|] && t[i + |w|] == s[|w|];
    }
    if Word(s, 0, w) {
      assert t[i..i + |w|] == s[..|w|] && t[i + |w|] == s[|w|];
    }
  }

  lemma {:induction false} SpaceSkipped(t: string, j: nat, k: nat)
    requires j <= k < |t| && (forall m | j <= m < k :: IsSpace(t[m])) && !IsSpace(t[k])
    ensures SkipSpace(t, j) == k
    decreases k - j
  {
    if j < k { SpaceSkipped(t, j + 1, k); }
  }

  lemma {:induction false} NameSkipped(t: string, j: nat, k: nat)
    requires j <= k < |t| && (forall m | j <= m < k :: !IsSpace(t[m])) && IsSpace(t[k])
    ensures SkipName(t, j) == k
    decreases k - j
  {
    if j < k { NameSkipped(t, j + 1, k); }
  }

  lemma Halves(t: string, i: nat, a: string, b: string)
    requires i + |a| + |b| <= |t| && t[i..i + |a| + |b|] == a + b
    ensures t[i..i + |a|] == a && t[i + |a|..i + |a| + |b|] == b
  {
    var c := t[i..i + |a| + |b|];
    assert c[..|a|] == t[i..i + |a|] && c[|a|..] == t[i + |a|..i + |a| + |b|];
  }

  lemma NamedAt(t: string, i: nat, guard: Guard, gap: string, rest: string, w: string)
    requires ProperOpening(guard, gap, rest) && (w == "%ifdef" || w == "%ifndef")
    requires var s := w + gap + guard.name + rest; i + |s| <= |t| && t[i..i + |s|] == s
    ensures Word(t, i, w) && i + 7 <= |t| && MacroName(t, i) == guard.name
  {
    var a, b := i + |w| + |gap|, i + |w| + |gap| + |guard.name|;
    Halves(t, i, w + gap + guard.name, rest);
    Halves(t, i, w + gap, guard.name);
    Halves(t, i, w, gap);
    assert t[i + |w|] == gap[0];
    forall k | i + |w| <= k < a ensures IsSpace(t[k]) { assert t[i + |w|..a][k - i - |w|] == t[k]; }
    forall k | a <= k < b ensures !IsSpace(t[k]) { assert t[a..b][k - a] == t[k]; }
    assert t[b] == rest[0];
    SpaceSkipped(t, i + 7, a);
    NameSkipped(t, a, b);
    assert t[a..b] == guard.name;
  }

  lemma OpeningIsLine(guard: Guard, gap: string, rest: string, last: bool)
    requires ProperOpening(guard, gap, rest)
    ensures OneLine(Opening(guard, gap, rest), last)
  {
    var s := Opening(guard, gap, rest);
    var w := match guard case Ifdef(_) => "%ifdef" case Ifndef(_) => "%ifndef";
    assert s[|s| - 1] == rest[|rest| - 1];
    assert s[..|s| - 1] == w + gap + guard.name + rest[..|rest| - 1];
  }

  lemma OpeningKind(defines: seq<string>, t: string, i: nat, guard: Guard, gap: string, rest: string)
    requires ProperOpening(guard, gap, rest)
    requires var s := Opening(guard, gap, rest); i + |s| <= |t| && t[i..i + |s|] == s
    ensures KindAt(defines, t, i) == If(Holds(defines, guard))
  {
    var w := match guard case Ifdef(_) => "%ifdef" case Ifndef(_) => "%ifndef";
    NamedAt(t, i, guard, gap, rest, w);
    WordLetter(t, i, w, 1);
    WordLetter(t, i, w, 3);
    WordLetter(t, i, "%endif", 1);
    WordLetter(t, i, "%ifdef", 3);
    WordLetter(t, i, "%ifndef", 3);
  }

  lemma EndifKind(defines: seq<string>, t: string, i: nat, behind: string)
    requires behind != "" && IsSpace(behind[0])
    requires var s := "%endif" + behind; i + |s| <= |t| && t[i..i + |s|] == s
    ensures KindAt(defines, t, i) == Endif
  {
    var s := "%endif" + behind;
    Halves(t, i, "%endif", behind);
    assert t[i + 6] == behind[0];
  }

  lemma OrdinaryKind(defines: seq<string>, t: string, i: nat, line: string)
    requires LineAt(t, i, line)
    requires !Word(line, 0, "%ifdef") && !Word(line, 0, "%ifndef") && !Word(line, 0, "%endif")
    ensures KindAt(defines, t, i) == Plain
  {
    WordInLine(t, i, line, "%ifdef");
    WordInLine(t, i, line, "%ifndef");
    WordInLine(t, i, line, "%endif");
  }

  /** `s` stands at `i`, and is all the rest if it is `last`. */
  ghost predicate At(t: string, i: nat, s: string, last: bool) {
    i + |s| <= |t| && t[i..i + |s|] == s && (last ==> i + |s| == |t|)
  }

  lemma AtSplit(t: string, i: nat, a: string, b: string, last: bool)
    requires At(t, i, a + b, last)
    ensures At(t, i, a, last && b == "") && At(t, i + |a|, b, last)
  {
    Halves(t, i, a, b);
  }

  lemma OneLineFrom(defines: seq<string>, t: string, i: nat, s: string, last: bool, kind: Kind)
    requires At(t, i, s, last) && OneLine(s, last) && KindAt(defines, t, i) == kind
    ensures LinesFrom(defines, t, i) == [Line(kind, s)] + LinesFrom(defines, t, i + |s|)
  {
    hide KindAt;
    assert LineAt(t, i, s);
    LineEnds(t, i, s);
  }

  /** The preprocessor finds the blocks as they are written. */
  lemma {:induction false} Parsed(defines: seq<string>, t: string, i: nat, b: Written, last: bool)
    requires Proper(b, last) && At(t, i, TextOf(b), last)
    ensures LinesFrom(defines, t, i) == LinesOf(Meaning(defines, b)) + LinesFrom(defines, t, i + |TextOf(b)|)
    decreases b, 0
  {
    hide KindAt, LinesFrom, At, OneLine, Word, ProperOpening;
    match b
    case Ordinary(line) =>
      assert LineAt(t, i, line) by { LineThere(t, i, line, last); }
      OrdinaryKind(defines, t, i, line);
      OneLineFrom(defines, t, i, line, last, Plain);
    case Guarded(guard, gap, rest, body, behind) =>
      var open, close := Opening(guard, gap, rest), "%endif" + behind;
      hide Opening, Holds, AllText, Meanings, AllLines;
      assert TextOf(b) == open + (AllText(body) + close);
      AtSplit(t, i, open, AllText(body) + close, last);
      AtWeaker(t, i, open, last && AllText(body) + close == "", false);
      AtSplit(t, i + |open|, AllText(body), close, last);
      OpeningLine(defines, t, i, guard, gap, rest);
      AtWeaker(t, i + |open|, AllText(body), last && close == "", false);
      ParsedAll(defines, t, i + |open|, body, false);
      EndifLine(defines, t, i + |open| + |AllText(body)|, behind, last);
      Enclosed([Line(If(Holds(defines, guard)), open)], AllLines(Meanings(defines, body)), [Line(Endif, close)],
               LinesFrom(defines, t, i + |TextOf(b)|));
  }

  lemma Enclosed(a: seq<Line>, b: seq<Line>, c: seq<Line>, d: seq<Line>)
    ensures a + (b + (c + d)) == a + b + c + d
  {
  }

  lemma LineThere(t: string, i: nat, s: string, last: bool)
    requires At(t, i, s, last) && OneLine(s, last)
    ensures LineAt(t, i, s)
  {
  }

  lemma OpeningLine(defines: seq<string>, t: string, i: nat, guard: Guard, gap: string, rest: string)
    requires ProperOpening(guard, gap, rest) && At(t, i, Opening(guard, gap, rest), false)
    ensures LinesFrom(defines, t, i) == [Line(If(Holds(defines, guard)), Opening(guard, gap, rest))]
                                        + LinesFrom(defines, t, i + |Opening(guard, gap, rest)|)
  {
    hide KindAt, LinesFrom, OneLine, ProperOpening, Opening;
    OpeningKind(defines, t, i, guard, gap, rest);
    OpeningIsLine(guard, gap, rest, false);
    OneLineFrom(defines, t, i, Opening(guard, gap, rest), false, If(Holds(defines, guard)));
  }

  lemma EndifLine(defines: seq<string>, t: string, i: nat, behind: string, last: bool)
    requires OneLine(behind, last) && IsSpace(behind[0]) && At(t, i, "%endif" + behind, last)
    ensures LinesFrom(defines, t, i) == [Line(Endif, "%endif" + behind)] + LinesFrom(defines, t, i + 6 + |behind|)
  {
    hide KindAt, LinesFrom;
    var s := "%endif" + behind;
    EndifKind(defines, t, i, behind);
    assert s[..|s| - 1] == "%endif" + behind[..|behind| - 1];
    OneLineFrom(defines, t, i, s, last, Endif);
  }

  lemma {:induction false} ParsedAll(defines: seq<string>, t: string, i: nat, bs: seq<Written>, last: bool)
    requires AllProper(bs, last) && At(t, i, AllText(bs), last)
    ensures LinesFrom(defines, t, i) == AllLines(Meanings(defines, bs)) + LinesFrom(defines, t, i + |AllText(bs)|)
    decreases bs, 0
  {
    hide LinesFrom, At, Proper, TextOf, Meaning, LinesOf;
    if bs != [] {
      var b, bs' := bs[0], bs[1..];
      AtSplit(t, i, TextOf(b), AllText(bs'), last);
      if |bs| == 1 { assert AllText(bs') == ""; }
      AtWeaker(t, i, TextOf(b), last && AllText(bs') == "", last && |bs| == 1);
      Parsed(defines, t, i, b, last && |bs| == 1);
      ParsedAll(defines, t, i + |TextOf(b)|, bs', last);
      var ms := Meanings(defines, bs);
      assert ms[0] == Meaning(defines, b) && ms[1..] == Meanings(defines, bs');
      var rest := LinesFrom(defines, t, i + |AllText(bs)|);
      assert LinesOf(ms[0]) + (AllLines(ms[1..]) + rest) == (LinesOf(ms[0]) + AllLines(ms[1..])) + rest;
    }
  }

  lemma AtWeaker(t: string, i: nat, s: string, last: bool, last': bool)
    requires At(t, i, s, last) && (last' ==> last)
    ensures At(t, i, s, last')
  {
  }

  // ----- what is left of each line -----

  ghost predicate AllHold(defines: seq<string>, guards: seq<Guard>) {
    forall k | 0 <= k < |guards| :: Holds(defines, guards[k])
  }

  /** What is left of a row. */
  function Left(defines: seq<string>, row: Row): string {
    if !row.directive && (forall k | 0 <= k < |row.guards| :: Holds(defines, row.guards[k])) then row.text
    else Blank(row.text)
  }

  function Leftovers(defines: seq<string>, rows: seq<Row>): string {
    if rows == [] then "" else Left(defines, rows[0]) + Leftovers(defines, rows[1..])
  }

  function Joined(rows: seq<Row>): string {
    if rows == [] then "" else rows[0].text + Joined(rows[1..])
  }

  lemma {:induction false} LeftoversConcat(defines: seq<string>, a: seq<Row>, b: seq<Row>)
    ensures Leftovers(defines, a + b) == Leftovers(defines, a) + Leftovers(defines, b)
    ensures Joined(a + b) == Joined(a) + Joined(b)
    decreases |a|
  {
    hide Left;
    if a == [] {
      assert a + b == b;
    } else {
      assert (a + b)[1..] == a[1..] + b;
      LeftoversConcat(defines, a[1..], b);
    }
  }

  lemma LeftoversOne(defines: seq<string>, row: Row)
    ensures Leftovers(defines, [row]) == Left(defines, row) && Joined([row]) == row.text
  {
    hide Left;
    assert Leftovers(defines, []) == "" && Joined([]) == "";
  }

  lemma {:induction false} RenderedRows(defines: seq<string>, b: Written, guards: seq<Guard>)
    ensures Render(Meaning(defines, b), AllHold(defines, guards)) == Leftovers(defines, RowsOf(b, guards))
    ensures TextOf(b) == Joined(RowsOf(b, guards))
    decreases b, 0
  {
    match b
    case Ordinary(line) =>
      LeftoversOne(defines, Row(line, false, guards));
    case Guarded(guard, gap, rest, body, behind) =>
      hide Opening, AllHold, Holds, Blank, Leftovers, Joined, RenderAll, Rows, AllText, Meanings;
      var inner := Rows(body, guards + [guard]);
      RenderedAll(defines, body, guards + [guard]);
      OneMoreGuard(defines, guards, guard);
      AroundRows(defines, Opening(guard, gap, rest), "%endif" + behind, inner, guards);
      assert TextOf(b) == Opening(guard, gap, rest) + AllText(body) + ("%endif" + behind);
  }

  lemma AroundRows(defines: seq<string>, open: string, close: string, inner: seq<Row>, guards: seq<Guard>)
    ensures var rows := [Row(open, true, guards)] + inner + [Row(close, true, guards)];
            && Leftovers(defines, rows) == Blank(open) + Leftovers(defines, inner) + Blank(close)
            && Joined(rows) == open + Joined(inner) + close
  {
    var o, c := Row(open, true, guards), Row(close, true, guards);
    LeftoversOne(defines, o);
    LeftoversOne(defines, c);
    LeftoversConcat(defines, [o], inner);
    LeftoversConcat(defines, [o] + inner, [c]);
    hide Leftovers, Joined, Blank;
  }

  lemma OneMoreGuard(defines: seq<string>, guards: seq<Guard>, guard: Guard)
    ensures AllHold(defines, guards + [guard]) <==> AllHold(defines, guards) && Holds(defines, guard)
  {
    hide Holds;
    var more := guards + [guard];
    assert more[|guards|] == guard && forall k | 0 <= k < |guards| :: more[k] == guards[k];
  }

  lemma {:induction false} RenderedAll(defines: seq<string>, bs: seq<Written>, guards: seq<Guard>)
    ensures RenderAll(Meanings(defines, bs), AllHold(defines, guards)) == Leftovers(defines, Rows(bs, guards))
    ensures AllText(bs) == Joined(Rows(bs, guards))
    decreases bs, 0
  {
    hide AllHold, RowsOf, Meaning, Render, TextOf;
    if bs != [] {
      RenderedRows(defines, bs[0], guards);
      RenderedAll(defines, bs[1..], guards);
      LeftoversConcat(defines, RowsOf(bs[0], guards), Rows(bs[1..], guards));
      var ms := Meanings(defines, bs);
      assert ms[0] == Meaning(defines, bs[0]) && ms[1..] == Meanings(defines, bs[1..]);
    }
  }

  lemma {:induction false} BeginTail(rows: seq<Row>, r: nat)
    requires 0 < r <= |rows|
    ensures Begin(rows, r) == |rows[0].text| + Begin(rows[1..], r - 1)
    decreases r
  {
    if r > 1 { BeginTail(rows, r - 1); }
  }

  lemma {:induction false} RowPlaces(defines: seq<string>, rows: seq<Row>, r: nat)
    requires r < |rows|
    ensures Stands(Joined(rows), Begin(rows, r), rows[r].text)
    ensures Stands(Leftovers(defines, rows), Begin(rows, r), Left(defines, rows[r]))
    decreases |rows|
  {
    hide Left, Stands;
    var first, rest := rows[0], rows[1..];
    if r == 0 {
      StandsFirst(first.text, Joined(rest));
      StandsFirst(Left(defines, first), Leftovers(defines, rest));
    } else {
      RowPlaces(defines, rest, r - 1);
      BeginTail(rows, r);
      LeftLength(defines, first);
      StandsLater(first.text, Joined(rest), Begin(rest, r - 1), rows[r].text);
      StandsLater(Left(defines, first), Leftovers(defines, rest), Begin(rest, r - 1), Left(defines, rows[r]));
    }
  }

  ghost predicate Stands(t: string, i: nat, s: string) {
    i + |s| <= |t| && t[i..i + |s|] == s
  }

  lemma StandsFirst(s: string, t: string)
    ensures Stands(s + t, 0, s)
  {
  }

  lemma StandsLater(a: string, t: string, i: nat, s: string)
    requires Stands(t, i, s)
    ensures Stands(a + t, |a| + i, s)
  {
    assert (a + t)[|a|..] == t;
    assert (a + t)[|a| + i..|a| + i + |s|] == t[i..i + |s|];
  }

  lemma LeftLength(defines: seq<string>, row: Row)
    ensures |Left(defines, row)| == |row.text|
  {
  }

  lemma {:induction false} SameLength(defines: seq<string>, rows: seq<Row>)
    ensures |Joined(rows)| == |Leftovers(defines, rows)|
    decreases |rows|
  {
    hide Left;
    if rows != [] {
      LeftLength(defines, rows[0]);
      SameLength(defines, rows[1..]);
    }
  }

  lemma {:induction false} AllBegins(rows: seq<Row>)
    ensures Begin(rows, |rows|) == |Joined(rows)|
    decreases |rows|
  {
    if rows != [] {
      AllBegins(rows[1..]);
      BeginTail(rows, |rows|);
    }
  }

  lemma RowLeft(defines: seq<string>, rows: seq<Row>, r: nat)
    requires r < |rows|
    ensures LeftIn(defines, rows[r], Joined(rows), Begin(rows, r), Leftovers(defines, rows))
  {
    hide Joined, Leftovers, Begin, LeftIn;
    RowPlaces(defines, rows, r);
    SameLength(defines, rows);
    StandsLeft(defines, rows[r], Joined(rows), Begin(rows, r), Leftovers(defines, rows));
  }

  lemma StandsLeft(defines: seq<string>, row: Row, t: string, n: nat, out: string)
    requires |t| == |out| && Stands(t, n, row.text) && Stands(out, n, Left(defines, row))
    ensures LeftIn(defines, row, t, n, out)
  {
    forall k | 0 <= k < |row.text| ensures t[n + k] == row.text[k] && out[n + k] == Left(defines, row)[k] {
      assert t[n..n + |row.text|][k] == t[n + k];
      assert out[n..n + |row.text|][k] == out[n + k];
    }
  }

  lemma ParsedText(defines: seq<string>, bs: seq<Written>)
    requires AllProper(bs, true)
    ensures LinesFrom(defines, AllText(bs), 0) == AllLines(Meanings(defines, bs))
  {
    var t := AllText(bs);
    hide LinesFrom, AllText, Meanings, AllLines, AllProper;
    assert At(t, 0, t, true);
    ParsedAll(defines, t, 0, bs, true);
    NoLines(defines, t);
  }

  /** Row `row` of text `t` begins at `n`, and in `out` just those of its characters are left that are newlines, or all
      of them if it is no directive and stands only under %ifdef of macros that are defined and %ifndef of macros that
      are not; the others are spaces. */
  ghost predicate LeftIn(defines: seq<string>, row: Row, t: string, n: nat, out: string) {
    n + |row.text| <= |t| == |out|
    && forall k | 0 <= k < |row.text| ::
         && t[n + k] == row.text[k]
         && out[n + k] ==
              if row.text[k] == '\n'
                 || (!row.directive
                     && forall m | 0 <= m < |row.guards| :: row.guards[m].Ifdef? == (row.guards[m].name in defines))
              then row.text[k] else ' '
  }

  /** preprocess_input on text as it is written: what is left of its rows, and there is nothing else. */
  method PreprocessWritten(z: array<char>, defines: seq<string>, ghost bs: seq<Written>) returns (ok: bool)
    requires AllProper(bs, true)
    requires var t := AllText(bs); |t| < z.Length && z[..|t|] == t && z[|t|] == NUL && NUL !in t
    modifies z
    ensures ok && z[|AllText(bs)|..] == old(z[|AllText(bs)|..])
    ensures Begin(Rows(bs, []), |Rows(bs, [])|) == |AllText(bs)|
    ensures forall r | 0 <= r < |Rows(bs, [])| ::
              LeftIn(defines, Rows(bs, [])[r], AllText(bs), Begin(Rows(bs, []), r), z[..|AllText(bs)|])
  {
    ghost var t := AllText(bs);
    ParsedText(defines, bs);
    hide LinesFrom, AllText, Rows, Begin, AllProper, Meanings, RenderAll, Output, LastCount, OpenLine, AllLines, LeftIn;
    var line;
    ok, line := PreprocessInput(z, defines, t);
    RowsLeft(defines, bs, z[..|t|]);
  }

  lemma RowsLeft(defines: seq<string>, bs: seq<Written>, out: string)
    requires out == RenderAll(Meanings(defines, bs), true)
    ensures Begin(Rows(bs, []), |Rows(bs, [])|) == |AllText(bs)|
    ensures forall r | 0 <= r < |Rows(bs, [])| ::
              LeftIn(defines, Rows(bs, [])[r], AllText(bs), Begin(Rows(bs, []), r), out)
  {
    var rows := Rows(bs, []);
    RenderedAll(defines, bs, []);
    assert AllHold(defines, []);
    AllBegins(rows);
    hide AllText, Rows, Begin, Meanings, RenderAll, Leftovers, Joined, AllHold, LeftIn;
    forall r | 0 <= r < |rows| ensures LeftIn(defines, rows[r], Joined(rows), Begin(rows, r), out) {
      RowLeft(defines, rows, r);
    }
  }

  /** A block whose %endif is missing goes unnoticed if its text is wanted; if not, the error names the line of its
      directive. */
  method PreprocessUnclosed(z: array<char>, defines: seq<string>, ghost before: seq<Written>, ghost guard: Guard,
                            ghost gap: string, ghost rest: string, ghost after: seq<Written>)
    returns (ok: bool, line: nat)
    requires AllProper(before, false) && ProperOpening(guard, gap, rest) && AllProper(after, true)
    requires var t := AllText(before) + Opening(guard, gap, rest) + AllText(after);
             |t| < z.Length && z[..|t|] == t && z[|t|] == NUL && NUL !in t
    modifies z
    ensures ok <==> guard.Ifdef? == (guard.name in defines)
    ensures !ok ==> line == 1 + |Rows(before, [])|
  {
    ghost var open := Opening(guard, gap, rest);
    ghost var t := AllText(before) + open + AllText(after);
    UnclosedLines(defines, before, guard, gap, rest, after);
    UnclosedIsNoticedIfExcluded(Meanings(defines, before), Holds(defines, guard), open, Meanings(defines, after));
    LinesAreRows(defines, before, []);
    hide LinesFrom, AllText, Rows, AllProper, Meanings, Output, LastCount, OpenLine, AllLines, Opening, RenderAll;
    ok, line := PreprocessInput(z, defines, t);
  }

  lemma UnclosedLines(defines: seq<string>, before: seq<Written>, guard: Guard, gap: string, rest: string,
                      after: seq<Written>)
    requires AllProper(before, false) && ProperOpening(guard, gap, rest) && AllProper(after, true)
    ensures var open := Opening(guard, gap, rest);
            LinesFrom(defines, AllText(before) + open + AllText(after), 0) ==
              AllLines(Meanings(defines, before)) + [Line(If(Holds(defines, guard)), open)]
              + AllLines(Meanings(defines, after))
  {
    var open := Opening(guard, gap, rest);
    var t := AllText(before) + open + AllText(after);
    var n := |AllText(before)|;
    hide LinesFrom, AllText, AllProper, Meanings, AllLines, Opening, ProperOpening, Holds;
    assert t == AllText(before) + (open + AllText(after));
    assert At(t, 0, AllText(before), false) && At(t, n, open, false) && At(t, n + |open|, AllText(after), true);
    ParsedAll(defines, t, 0, before, false);
    OpeningLine(defines, t, n, guard, gap, rest);
    ParsedAll(defines, t, n + |open|, after, true);
    NoLines(defines, t);
    assert AllLines(Meanings(defines, before))
           + ([Line(If(Holds(defines, guard)), open)] + AllLines(Meanings(defines, after)))
        == AllLines(Meanings(defines, before)) + [Line(If(Holds(defines, guard)), open)]
           + AllLines(Meanings(defines, after));
  }

  lemma NoLines(defines: seq<string>, t: string)
    ensures LinesFrom(defines, t, |t|) == []
  {
  }

  lemma {:induction false} LinesAreRows(defines: seq<string>, bs: seq<Written>, guards: seq<Guard>)
    ensures |AllLines(Meanings(defines, bs))| == |Rows(bs, guards)|
    decreases bs, 0
  {
    hide Holds, Opening;
    if bs != [] {
      var ms := Meanings(defines, bs);
      assert ms[0] == Meaning(defines, bs[0]) && ms[1..] == Meanings(defines, bs[1..]);
      BlockLines(defines, bs[0], guards);
      LinesAreRows(defines, bs[1..], guards);
    }
  }

  lemma {:induction false} BlockLines(defines: seq<string>, b: Written, guards: seq<Guard>)
    ensures |LinesOf(Meaning(defines, b))| == |RowsOf(b, guards)|
    decreases b, 0
  {
    hide Holds, Opening;
    match b
    case Ordinary(_) =>
    case Guarded(guard, gap, rest, body, behind) => LinesAreRows(defines, body, guards + [guard]);
  }

  // ----- the directives, letter by letter -----

  function Repeated(c: char, n: nat): (s: string)
    ensures |s| == n && forall k | 0 <= k < n :: s[k] == c
  {
    seq(n, _ => c)
  }

  /** What isspace holds of. */
  const WHITE: seq<char> := [' ', '\n', '\t', '\r', 11 as char, 12 as char]

  /** Blanks within a line. */
  ghost predicate Blanks(s: string) {
    forall k | 0 <= k < |s| :: s[k] in WHITE && s[k] != '\n'
  }

  ghost predicate NoBlanks(s: string) {
    forall k | 0 <= k < |s| :: s[k] !in WHITE
  }

  /** The line does not begin with the word and white space; its own newline would do for that. */
  ghost predicate Without(line: string, w: string) {
    !(|w| <= |line| && line[..|w|] == w && (|line| == |w| || line[|w|] in WHITE))
  }

  lemma WhiteIsSpace(c: char)
    ensures c in WHITE <==> IsSpace(c)
  {
  }

  /** A line under one directive: with %ifdef it stays exactly if the macro is defined, with %ifndef exactly if it is
      not. */
  method OneBlock(z: array<char>, defines: seq<string>, ghost directive: string, ghost gap: string, ghost name: string,
                  ghost rest: string, ghost line: string, ghost behind: string)
    returns (ok: bool)
    requires directive == "%ifdef" || directive == "%ifndef"
    requires gap != "" && Blanks(gap) && Blanks(rest) && Blanks(behind)
    requires name != "" && NUL !in name && NoBlanks(name)
    requires NUL !in line && '\n' !in line
             && Without(line, "%ifdef") && Without(line, "%ifndef") && Without(line, "%endif")
    requires z[..] == directive + gap + name + rest + "\n" + line + "\n%endif" + behind + "\n" + [NUL]
    modifies z
    ensures ok
    ensures z[..] == Repeated(' ', |directive| + |gap| + |name| + |rest|) + "\n"
                     + (if (directive == "%ifdef") == (name in defines) then line else Repeated(' ', |line|))
                     + "\n" + Repeated(' ', 6 + |behind|) + "\n" + [NUL]
  {
    ghost var t := directive + gap + name + rest + "\n" + line + "\n%endif" + behind + "\n";
    ghost var guard := if directive == "%ifdef" then Ifdef(name) else Ifndef(name);
    ghost var left := Repeated(' ', |directive| + |gap| + |name| + |rest|) + "\n"
                      + (if (directive == "%ifdef") == (name in defines) then line else Repeated(' ', |line|))
                      + "\n" + Repeated(' ', 6 + |behind|) + "\n";
    ghost var ms := BlockParsed(defines, directive, guard, gap, rest, line, behind, t, left);
    hide Repeated, Blanks, NoBlanks, Without, LinesFrom, Output, LastCount, OpenLine, AllLines, RenderAll;
    TextBefore(z[..], t);
    var lineno;
    ok, lineno := PreprocessInput(z, defines, t);
    assert z[..|t|] == left && z[|t|..] == [NUL];
    assert z[..] == z[..|t|] + z[|t|..];
  }

  lemma TextBefore(b: string, t: string)
    requires b == t + [NUL]
    ensures |b| == |t| + 1 && b[..|t|] == t && b[|t|] == NUL && b[|t|..] == [NUL]
  {
  }

  lemma BlockParsed(defines: seq<string>, directive: string, guard: Guard, gap: string, rest: string, line: string,
                    behind: string, t: string, left: string) returns (ms: seq<Block>)
    requires directive == if guard.Ifdef? then "%ifdef" else "%ifndef"
    requires gap != "" && Blanks(gap) && Blanks(rest) && Blanks(behind)
    requires guard.name != "" && NUL !in guard.name && NoBlanks(guard.name)
    requires NUL !in line && '\n' !in line
             && Without(line, "%ifdef") && Without(line, "%ifndef") && Without(line, "%endif")
    requires t == directive + gap + guard.name + rest + "\n" + line + "\n%endif" + behind + "\n"
    requires left == Repeated(' ', |directive| + |gap| + |guard.name| + |rest|) + "\n"
                     + (if (directive == "%ifdef") == (guard.name in defines) then line else Repeated(' ', |line|))
                     + "\n" + Repeated(' ', 6 + |behind|) + "\n"
    ensures LinesFrom(defines, t, 0) == AllLines(ms) && NUL !in t && RenderAll(ms, true) == left
  {
    var b := Guarded(guard, gap, rest + "\n", [Ordinary(line + "\n")], behind + "\n");
    assert AllProper([b], true) && AllText([b]) == t && NUL !in t by {
      BlockWritten(b, directive, guard, gap, rest, line, behind);
    }
    ms := Meanings(defines, [b]);
    assert LinesFrom(defines, t, 0) == AllLines(ms) by { ParsedText(defines, [b]); }
    BlankLine(gap);
    BlankLine(rest);
    BlankLine(behind);
    NameOnLine(guard.name);
    BlockLeft(defines, b, directive, guard, gap, rest, line, behind);
  }

  lemma NameOnLine(name: string)
    requires NoBlanks(name)
    ensures '\n' !in name
  {
  }

  lemma BlockWritten(b: Written, directive: string, guard: Guard, gap: string, rest: string, line: string,
                     behind: string)
    requires b == Guarded(guard, gap, rest + "\n", [Ordinary(line + "\n")], behind + "\n")
    requires directive == if guard.Ifdef? then "%ifdef" else "%ifndef"
    requires gap != "" && Blanks(gap) && Blanks(rest) && Blanks(behind)
    requires guard.name != "" && NUL !in guard.name && NoBlanks(guard.name)
    requires NUL !in line && '\n' !in line
             && Without(line, "%ifdef") && Without(line, "%ifndef") && Without(line, "%endif")
    ensures AllProper([b], true) && NUL !in AllText([b])
    ensures AllText([b]) == directive + gap + guard.name + rest + "\n" + line + "\n%endif" + behind + "\n"
  {
    BlankLine(behind);
    OpeningWritten(guard, gap, rest);
    LineWritten(line);
    NoNul(gap);
    NoNul(rest);
    NoNul(behind);
    hide Blanks, NoBlanks, Without, Proper, ProperOpening, AllText, AllProper;
    BlockProper(b, guard, gap, rest, line, behind);
    BlockText(b, directive, guard, gap, rest, line, behind);
  }

  lemma NoNul(s: string)
    requires Blanks(s)
    ensures NUL !in s
  {
  }

  lemma BlankLine(s: string)
    requires Blanks(s)
    ensures OneLine(s + "\n", false) && OneLine(s + "\n", true) && IsSpace((s + "\n")[0]) && '\n' !in s
  {
    assert (s + "\n")[..|s|] == s;
    if s != "" { WhiteIsSpace(s[0]); }
  }

  lemma OpeningWritten(guard: Guard, gap: string, rest: string)
    requires gap != "" && Blanks(gap) && guard.name != "" && NoBlanks(guard.name) && Blanks(rest)
    ensures ProperOpening(guard, gap, rest + "\n") && '\n' !in guard.name && '\n' !in gap
  {
    BlankLine(rest);
    BlankLine(gap);
    forall k | 0 <= k < |gap| ensures IsSpace(gap[k]) { WhiteIsSpace(gap[k]); }
    forall k | 0 <= k < |guard.name| ensures !IsSpace(guard.name[k]) { WhiteIsSpace(guard.name[k]); }
  }

  lemma LineWritten(line: string)
    requires '\n' !in line && Without(line, "%ifdef") && Without(line, "%ifndef") && Without(line, "%endif")
    ensures Proper(Ordinary(line + "\n"), false)
  {
    assert (line + "\n")[..|line|] == line;
    NoWord(line, "%ifdef");
    NoWord(line, "%ifndef");
    NoWord(line, "%endif");
  }

  lemma NoWord(line: string, w: string)
    requires '\n' !in w && Without(line, w)
    ensures !Word(line + "\n", 0, w)
  {
    var whole := line + "\n";
    if |w| < |whole| {
      assert whole[0..|w|] == line[..|w|];
      WhiteIsSpace(whole[|w|]);
    }
  }

  lemma BlockProper(b: Written, guard: Guard, gap: string, rest: string, line: string, behind: string)
    requires b == Guarded(guard, gap, rest + "\n", [Ordinary(line + "\n")], behind + "\n")
    requires ProperOpening(guard, gap, rest + "\n") && Proper(Ordinary(line + "\n"), false)
             && OneLine(behind + "\n", true) && IsSpace((behind + "\n")[0])
    ensures AllProper([b], true)
  {
    hide ProperOpening, OneLine, IsSpace, Word;
    assert AllProper([], false) && AllProper([], true);
    assert b.body[1..] == [] && [b][1..] == [];
    assert AllProper(b.body, false);
  }

  lemma BlockText(b: Written, directive: string, guard: Guard, gap: string, rest: string, line: string, behind: string)
    requires b == Guarded(guard, gap, rest + "\n", [Ordinary(line + "\n")], behind + "\n")
    requires directive == if guard.Ifdef? then "%ifdef" else "%ifndef"
    requires NUL !in gap && NUL !in guard.name && NUL !in rest && NUL !in line && NUL !in behind
    ensures AllText([b]) == directive + gap + guard.name + rest + "\n" + line + "\n%endif" + behind + "\n"
    ensures NUL !in AllText([b])
  {
    TextAlone(Ordinary(line + "\n"));
    TextAlone(b);
    hide AllText;
    var open := directive + gap + guard.name + rest + "\n";
    assert Opening(guard, gap, rest + "\n") == open;
    hide Opening;
    Joins(open, line, behind);
  }

  lemma Joins(open: string, line: string, behind: string)
    ensures open + (line + "\n") + "%endif" + (behind + "\n") == open + line + "\n%endif" + behind + "\n"
  {
    assert "\n" + "%endif" == "\n%endif";
    assert open + (line + "\n") + "%endif" == open + line + ("\n" + "%endif");
  }

  lemma TextAlone(b: Written)
    ensures AllText([b]) == TextOf(b)
  {
    assert [b][1..] == [];
  }

  lemma BlockLeft(defines: seq<string>, b: Written, directive: string, guard: Guard, gap: string, rest: string,
                  line: string, behind: string)
    requires b == Guarded(guard, gap, rest + "\n", [Ordinary(line + "\n")], behind + "\n")
    requires directive == if guard.Ifdef? then "%ifdef" else "%ifndef"
    requires '\n' !in gap && '\n' !in guard.name && '\n' !in rest && '\n' !in line && '\n' !in behind
    ensures RenderAll(Meanings(defines, [b]), true) ==
              Repeated(' ', |directive| + |gap| + |guard.name| + |rest|) + "\n"
              + (if (directive == "%ifdef") == (guard.name in defines) then line else Repeated(' ', |line|))
              + "\n" + Repeated(' ', 6 + |behind|) + "\n"
  {
    var open, close := directive + gap + guard.name + rest, "%endif" + behind;
    hide Meanings, RenderAll, Repeated, Blank;
    BlockMeans(defines, b, directive, guard, gap, rest, line, behind);
    RenderBlock(Holds(defines, guard), open + "\n", line + "\n", close + "\n");
    BlankedLine(open);
    BlankedLine(line);
    BlankedLine(close);
    assert |close| == 6 + |behind|;
  }

  lemma BlockMeans(defines: seq<string>, b: Written, directive: string, guard: Guard, gap: string, rest: string,
                   line: string, behind: string)
    requires b == Guarded(guard, gap, rest + "\n", [Ordinary(line + "\n")], behind + "\n")
    requires directive == if guard.Ifdef? then "%ifdef" else "%ifndef"
    ensures Meanings(defines, [b]) ==
              [Conditional(Holds(defines, guard), directive + gap + guard.name + rest + "\n", [Text(line + "\n")],
                           "%endif" + behind + "\n")]
  {
    assert Opening(guard, gap, rest + "\n") == directive + gap + guard.name + rest + "\n";
    assert "%endif" + (behind + "\n") == "%endif" + behind + "\n";
    hide Meanings, Opening, Holds;
    OneMeaning(defines, b.body[0]);
    OneMeaning(defines, b);
  }

  lemma RenderBlock(holds: bool, open: string, line: string, close: string)
    ensures RenderAll([Conditional(holds, open, [Text(line)], close)], true) ==
              Blank(open) + (if holds then line else Blank(line)) + Blank(close)
  {
    hide RenderAll, Blank;
    RenderOne(Conditional(holds, open, [Text(line)], close), true);
    RenderOne(Text(line), holds);
  }

  lemma OneMeaning(defines: seq<string>, b: Written)
    ensures Meanings(defines, [b]) == [Meaning(defines, b)]
  {
    assert [b][1..] == [] && Meanings(defines, []) == [];
  }

  lemma BlankedLine(s: string)
    requires '\n' !in s
    ensures Blank(s + "\n") == Repeated(' ', |s|) + "\n"
  {
    forall k | 0 <= k < |s| ensures s[k] != '\n' { assert s[k] in s; }
  }

  lemma RenderOne(b: Block, wanted: bool)
    ensures RenderAll([b], wanted) == Render(b, wanted)
  {
    assert [b][1..] == [] && RenderAll([], wanted) == "";
  }
}
