/**
 * The timeline that util/o3-pipeview.py draws for one instruction: one or more lines of width
 * cells, each cell standing for cycleTime ticks, with a letter in the cell of every stage.
 */
module PipeViewTimeline {
  import opened Wrappers
  import opened Arithmetic
  import opened Sorting
  import opened PipeViewQueue

  const DISPATCH: nat := 3

  /** The drawing parameters: cells per line, ticks per cell, whether store completion is a stage. */
  datatype Layout = Layout(width: nat, cycleTime: nat, stores: bool)

  predicate Usable(l: Layout) {
    l.width > 0 && l.cycleTime > 0
  }

  function StageCount(l: Layout): nat {
    if l.stores then 8 else 7
  }

  function Tick(i: Inst, stage: nat): nat {
    match stage
    case 0 => i.fetch
    case 1 => i.decode
    case 2 => i.rename
    case 3 => i.dispatch
    case 4 => i.issue
    case 5 => i.complete
    case 6 => i.retire
    case _ => i.store
  }

  function Letter(stage: nat): char {
    match stage
    case 0 => 'f'
    case 1 => 'd'
    case 2 => 'n'
    case 3 => 'p'
    case 4 => 'i'
    case 5 => 'c'
    case 6 => 'r'
    case _ => 's'
  }

  /** The alphabetical position of a stage's name, which breaks ties when events are sorted. */
  function NameRank(stage: nat): nat {
    match stage
    case 0 => 3
    case 1 => 1
    case 2 => 5
    case 3 => 2
    case 4 => 4
    case 5 => 0
    case 6 => 6
    case _ => 7
  }

  function TimeWidth(l: Layout): nat {
    l.width * l.cycleTime
  }

  function BaseTick(i: Inst, l: Layout): nat
    requires Usable(l)
  {
    UsableWidth(l);
    i.fetch / TimeWidth(l) * TimeWidth(l)
  }

  lemma UsableWidth(l: Layout)
    requires Usable(l)
    ensures TimeWidth(l) > 0
  {
  }

  function Max(a: nat, b: nat): nat {
    if a < b then b else a
  }

  /** The tick of the last event among the first n stages. */
  function LastTick(i: Inst, n: nat): (t: nat)
    ensures forall s | 0 <= s < n :: Tick(i, s) <= t
    ensures n > 0 ==> exists s | 0 <= s < n :: Tick(i, s) == t
  {
    if n == 0 then 0
    else
      var before := LastTick(i, n - 1);
      if before < Tick(i, n - 1) || n == 1 then Tick(i, n - 1) else before
  }

  predicate Compact(i: Inst, l: Layout) {
    LastTick(i, StageCount(l)) - i.fetch < TimeWidth(l)
  }

  function NumLines(i: Inst, l: Layout): (n: nat)
    requires Usable(l)
    ensures n > 0
  {
    UsableWidth(l);
    if Compact(i, l) then 1
    else
      BaseBelowFetch(i, l);
      (LastTick(i, StageCount(l)) - BaseTick(i, l)) / TimeWidth(l) + 1
  }

  lemma BaseBelowFetch(i: Inst, l: Layout)
    requires Usable(l)
    ensures BaseTick(i, l) <= i.fetch < BaseTick(i, l) + TimeWidth(l)
    ensures i.fetch <= LastTick(i, StageCount(l))
  {
    UsableWidth(l);
    assert Tick(i, 0) == i.fetch;
  }

  /** The ticks shown on line k; the single line of the compact form wraps around. */
  function LineStart(i: Inst, l: Layout, k: nat): nat
    requires Usable(l)
  {
    BaseTick(i, l) + k * TimeWidth(l)
  }

  function LineEnd(i: Inst, l: Layout, k: nat): nat
    requires Usable(l)
  {
    BaseBelowFetch(i, l);
    LineStart(i, l, k) + TimeWidth(l) + if NumLines(i, l) == 1 then i.fetch - BaseTick(i, l) else 0
  }

  predicate OnLine(i: Inst, l: Layout, k: nat, stage: nat)
    requires Usable(l)
  {
    Tick(i, stage) != 0 && LineStart(i, l, k) <= Tick(i, stage) < LineEnd(i, l, k)
  }

  lemma OneLine(i: Inst, l: Layout, stage: nat)
    requires Usable(l) && stage < StageCount(l) && NumLines(i, l) == 1
    ensures LineStart(i, l, 0) == BaseTick(i, l) && Tick(i, stage) < LineEnd(i, l, 0)
  {
    UsableWidth(l);
    BaseBelowFetch(i, l);
    hide LastTick, BaseTick, TimeWidth, Tick;
    assert 0 * TimeWidth(l) == 0;
  }

  // ----- Drawing one line.

  /** An event of a line: its tick within the line and its stage. */
  datatype Event = Event(offset: nat, stage: nat)

  predicate EventLeq(a: Event, b: Event) {
    a.offset < b.offset || (a.offset == b.offset && NameRank(a.stage) <= NameRank(b.stage))
  }

  function Cell(l: Layout, e: Event): nat
    requires Usable(l)
  {
    e.offset / l.cycleTime
  }

  function Dots(n: int, dot: char): string {
    if n <= 0 then "" else Dots(n - 1, dot) + [dot]
  }

  lemma {:induction false} DotsAre(n: int, dot: char)
    ensures |Dots(n, dot)| == if n <= 0 then 0 else n
    ensures forall i | 0 <= i < |Dots(n, dot)| :: Dots(n, dot)[i] == dot
  {
    if n > 0 {
      DotsAre(n - 1, dot);
    }
  }

  /** The text drawn for a list of events and the cell position reached. */
  datatype Pen = Pen(text: string, pos: nat)

  function Draw(l: Layout, dot: char, es: seq<Event>): Pen
    requires Usable(l)
  {
    if es == [] then Pen("", 0)
    else
      var before, e := Draw(l, dot, es[..|es| - 1]), es[|es| - 1];
      Pen(before.text + Dots(Cell(l, e) - before.pos, dot) + [Letter(e.stage)], Cell(l, e) + 1)
  }

  function Body(l: Layout, dot: char, es: seq<Event>): string
    requires Usable(l)
  {
    var pen := Draw(l, dot, es);
    pen.text + Dots(l.width - pen.pos, dot)
  }

  ghost predicate CellsAscend(l: Layout, es: seq<Event>)
    requires Usable(l)
  {
    forall i, j | 0 <= i < j < |es| :: Cell(l, es[i]) <= Cell(l, es[j])
  }

  ghost predicate CellsDiffer(l: Layout, es: seq<Event>)
    requires Usable(l)
  {
    forall i, j | 0 <= i < j < |es| :: Cell(l, es[i]) != Cell(l, es[j])
  }

  // ----- The text of a line whose events may share cells.

  function Cells(l: Layout, es: seq<Event>): (cols: seq<nat>)
    requires Usable(l)
    ensures |cols| == |es| && forall j | 0 <= j < |es| :: cols[j] == Cell(l, es[j])
  {
    if es == [] then [] else Cells(l, es[..|es| - 1]) + [Cell(l, es[|es| - 1])]
  }

  /** How many of the columns repeat the one before. */
  function Repeats(cols: seq<nat>): nat {
    if |cols| < 2 then 0
    else Repeats(cols[..|cols| - 1]) + if cols[|cols| - 1] == cols[|cols| - 2] then 1 else 0
  }

  /** Where the j-th letter is: in its column, moved right by the letters before it that shared one. */
  function Place(cols: seq<nat>, j: nat): nat
    requires j < |cols|
  {
    cols[j] + Repeats(cols[..j + 1])
  }

  ghost predicate Ascend(cols: seq<nat>) {
    forall i, j | 0 <= i < j < |cols| :: cols[i] <= cols[j]
  }

  /** The letters of a text, the j-th of them at the place of column j, and filler everywhere else. */
  ghost predicate Written(text: string, cols: seq<nat>, letters: string, dot: char)
    requires |cols| == |letters|
  {
    && (forall j: nat | j < |cols| :: Place(cols, j) < |text| && text[Place(cols, j)] == letters[j])
    && (forall c: nat | c < |text| && Free(cols, c) :: text[c] == dot)
  }

  ghost predicate Free(cols: seq<nat>, c: nat) {
    forall j: nat | j < |cols| :: Place(cols, j) != c
  }

  lemma PlaceNext(cols: seq<nat>, col: nat)
    ensures |cols + [col]| == |cols| + 1
    ensures Place(cols + [col], |cols|) == col + Repeats(cols + [col])
    ensures Repeats(cols + [col]) == Repeats(cols) + if cols != [] && cols[|cols| - 1] == col then 1 else 0
    ensures forall j: nat | j < |cols| :: Place(cols + [col], j) == Place(cols, j)
  {
    var all, n := cols + [col], |cols|;
    assert all[..n] == cols && all[..n + 1] == all;
    forall j: nat | j < n ensures Place(all, j) == Place(cols, j) {
      assert all[..j + 1] == cols[..j + 1];
    }
  }

  lemma Append(text: string, fill: string, cols: seq<nat>, letters: string, dot: char, col: nat, letter: char)
    requires |cols| == |letters| && Written(text, cols, letters, dot) && forall c | 0 <= c < |fill| :: fill[c] == dot
    requires Place(cols + [col], |cols|) == |text + fill|
    requires forall j: nat | j < |cols| :: Place(cols + [col], j) == Place(cols, j)
    ensures Written(text + fill + [letter], cols + [col], letters + [letter], dot)
  {
    hide Place;
    var more, all, n := text + fill + [letter], cols + [col], |cols|;
    forall c: nat | c < |more| && Free(all, c) ensures more[c] == dot {
      assert Place(all, n) != c;
      if c < |text| {
        forall j: nat | j < n ensures Place(cols, j) != c {
          assert Place(all, j) != c;
        }
      }
    }
    forall j: nat | j < n + 1 ensures Place(all, j) < |more| && more[Place(all, j)] == (letters + [letter])[j] {
      if j < n {
        assert Place(cols, j) < |text|;
      }
    }
  }

  /** One more letter: filler up to its column, or right behind the letter with the same column. */
  lemma WriteOne(text: string, cols: seq<nat>, letters: string, dot: char, col: nat, letter: char)
    requires |cols| == |letters| && Written(text, cols, letters, dot) && Ascend(cols + [col])
    requires |text| == (if cols == [] then 0 else cols[|cols| - 1] + 1) + Repeats(cols)
    ensures var gap := col - (if cols == [] then 0 else cols[|cols| - 1] + 1);
            var more := text + Dots(gap, dot) + [letter];
            && Written(more, cols + [col], letters + [letter], dot)
            && |more| == col + 1 + Repeats(cols + [col])
  {
    var gap := col - (if cols == [] then 0 else cols[|cols| - 1] + 1);
    DotsAre(gap, dot);
    PlaceNext(cols, col);
    var n := |cols|;
    assert n > 0 ==> (cols + [col])[n - 1] == cols[n - 1] && cols[n - 1] <= col by {
      assert n > 0 ==> (cols + [col])[n - 1] <= (cols + [col])[n];
    }
    hide Dots, Place, Repeats, Written;
    Append(text, Dots(gap, dot), cols, letters, dot, col, letter);
  }

  function Letters(es: seq<Event>): (s: string)
    ensures |s| == |es| && forall j | 0 <= j < |es| :: s[j] == Letter(es[j].stage)
  {
    if es == [] then "" else Letters(es[..|es| - 1]) + [Letter(es[|es| - 1].stage)]
  }

  lemma {:induction false} DrawWritten(l: Layout, dot: char, es: seq<Event>)
    requires Usable(l) && Ascend(Cells(l, es))
    ensures var pen, cols := Draw(l, dot, es), Cells(l, es);
            && pen.pos == (if es == [] then 0 else cols[|es| - 1] + 1) && |pen.text| == pen.pos + Repeats(cols)
            && Written(pen.text, cols, Letters(es), dot)
  {
    hide Cell, Letter, Written, Repeats, Dots;
    if es == [] {
      NothingWritten(dot);
    } else {
      var n := |es| - 1;
      var rest, e := es[..n], es[n];
      var cols := Cells(l, es);
      assert cols == Cells(l, rest) + [Cell(l, e)] && Letters(es) == Letters(rest) + [Letter(e.stage)];
      assert cols[..n] == Cells(l, rest);
      DrawWritten(l, dot, rest);
      WriteOne(Draw(l, dot, rest).text, Cells(l, rest), Letters(rest), dot, Cell(l, e), Letter(e.stage));
    }
  }

  lemma NothingWritten(dot: char)
    ensures Written("", [], "", dot) && Repeats([]) == 0
  {
  }

  /** Filler to the end of the line changes nothing before it. */
  lemma FillUp(text: string, cols: seq<nat>, letters: string, dot: char, n: int)
    requires |cols| == |letters| && Written(text, cols, letters, dot)
    ensures Written(text + Dots(n, dot), cols, letters, dot)
  {
    DotsAre(n, dot);
    hide Dots, Place;
    var more := text + Dots(n, dot);
    assert forall c: nat | c < |text| :: more[c] == text[c];
  }

  /** The whole text of a line: width cells and one more for every letter that shares a cell. */
  lemma BodyWritten(l: Layout, dot: char, es: seq<Event>)
    requires Usable(l) && Ascend(Cells(l, es)) && forall j | 0 <= j < |es| :: Cell(l, es[j]) < l.width
    ensures |Body(l, dot, es)| == l.width + Repeats(Cells(l, es))
    ensures Written(Body(l, dot, es), Cells(l, es), Letters(es), dot)
  {
    DrawWritten(l, dot, es);
    var pen := Draw(l, dot, es);
    DotsAre(l.width - pen.pos, dot);
    hide Draw, Dots, Written, Cell, Letter, Repeats;
    FillUp(pen.text, Cells(l, es), Letters(es), dot, l.width - pen.pos);
  }

  /** Without repeats every letter is in its column. */
  lemma {:induction false} RepeatsNone(cols: seq<nat>)
    requires Ascend(cols)
    ensures Repeats(cols) == 0 <==> forall i, j | 0 <= i < j < |cols| :: cols[i] != cols[j]
  {
    if |cols| > 1 {
      var n := |cols| - 1;
      var rest := cols[..n];
      assert Ascend(rest);
      RepeatsNone(rest);
      assert forall i | 0 <= i < n :: rest[i] == cols[i];
      if cols[n] != cols[n - 1] {
        assert forall i | 0 <= i < n :: cols[i] <= cols[n - 1] < cols[n];
      }
    }
  }

  /** A line has exactly width cells if and only if no two of its events fall into the same cell. */
  lemma BodyLength(l: Layout, dot: char, es: seq<Event>)
    requires Usable(l) && CellsAscend(l, es) && forall i | 0 <= i < |es| :: Cell(l, es[i]) < l.width
    ensures |Body(l, dot, es)| >= l.width
    ensures |Body(l, dot, es)| == l.width <==> CellsDiffer(l, es)
  {
    hide Cell, Body;
    BodyWritten(l, dot, es);
    RepeatsNone(Cells(l, es));
  }

  lemma PlacePlain(cols: seq<nat>, j: nat)
    requires Ascend(cols) && Repeats(cols) == 0 && j < |cols|
    ensures Place(cols, j) == cols[j]
  {
    RepeatsNone(cols);
    var first := cols[..j + 1];
    RepeatsNone(first);
  }

  /** With distinct cells, every cell shows the letter of the event that falls into it, or the filler. */
  lemma BodyCells(l: Layout, dot: char, es: seq<Event>)
    requires Usable(l) && CellsAscend(l, es) && CellsDiffer(l, es)
    requires forall i | 0 <= i < |es| :: Cell(l, es[i]) < l.width
    ensures |Body(l, dot, es)| == l.width
    ensures forall j | 0 <= j < |es| :: Body(l, dot, es)[Cell(l, es[j])] == Letter(es[j].stage)
    ensures forall c | 0 <= c < l.width && (forall j | 0 <= j < |es| :: Cell(l, es[j]) != c) ::
              Body(l, dot, es)[c] == dot
  {
    hide Cell, Body, Letter, Repeats, Place;
    var cols := Cells(l, es);
    BodyWritten(l, dot, es);
    BodyLength(l, dot, es);
    forall j: nat | j < |cols| ensures Place(cols, j) == cols[j] {
      PlacePlain(cols, j);
    }
    forall c: nat | c < l.width && (forall j | 0 <= j < |es| :: Cell(l, es[j]) != c)
      ensures Body(l, dot, es)[c] == dot
    {
      assert Free(cols, c);
    }
  }

  // ----- The events of a line.

  /** The events of the first n stages that fall on line k, in stage order. */
  function Events(i: Inst, l: Layout, k: nat, n: nat): seq<Event>
    requires Usable(l)
  {
    UsableWidth(l);
    if n == 0 then []
    else
      var before := Events(i, l, k, n - 1);
      if OnLine(i, l, k, n - 1) then before + [Event(Tick(i, n - 1) % TimeWidth(l), n - 1)] else before
  }

  /** An issue in the cycle of the dispatch hides it. */
  predicate Hidden(i: Inst, e: Event) {
    e.stage == DISPATCH && i.dispatch == i.issue
  }

  function Visible(i: Inst, es: seq<Event>): seq<Event> {
    if es == [] then []
    else Visible(i, es[..|es| - 1]) + if Hidden(i, es[|es| - 1]) then [] else [es[|es| - 1]]
  }

  function Shown(i: Inst, l: Layout, k: nat): seq<Event>
    requires Usable(l)
  {
    Visible(i, Sort(Events(i, l, k, StageCount(l)), EventLeq))
  }

  function Filler(i: Inst): char {
    if i.retire == 0 then '=' else '.'
  }

  method CollectEvents(i: Inst, l: Layout, k: nat) returns (events: seq<Event>)
    requires Usable(l)
    ensures events == Events(i, l, k, StageCount(l))
  {
    hide Tick, LineStart, LineEnd, TimeWidth;
    UsableWidth(l);
    events := [];
    for stage := 0 to StageCount(l)
      invariant events == Events(i, l, k, stage)
    {
      if OnLine(i, l, k, stage) {
        events := events + [Event(Tick(i, stage) % TimeWidth(l), stage)];
      }
    }
  }

  method DrawEvents(i: Inst, l: Layout, events: seq<Event>) returns (body: string)
    requires Usable(l)
    ensures body == Body(l, Filler(i), Visible(i, events))
  {
    hide Draw, Dots, Cell, Filler, Visible, Letter, Hidden, Usable;
    var dot, pos: nat := Filler(i), 0;
    body := "";
    DrawNothing(i, l, dot);
    for n := 0 to |events|
      invariant Pen(body, pos) == Draw(l, dot, Visible(i, events[..n]))
    {
      var e := events[n];
      VisibleStep(i, events, n);
      if !Hidden(i, e) {
        DrawStep(l, dot, Visible(i, events[..n]), e);
        body := body + Dots(Cell(l, e) - pos, dot) + [Letter(e.stage)];
        pos := Cell(l, e) + 1;
      }
    }
    assert events[..|events|] == events;
    body := body + Dots(l.width - pos, dot);
  }

  lemma DrawNothing(i: Inst, l: Layout, dot: char)
    requires Usable(l)
    ensures Draw(l, dot, Visible(i, [])) == Pen("", 0)
  {
  }

  lemma VisibleStep(i: Inst, es: seq<Event>, n: nat)
    requires n < |es|
    ensures Visible(i, es[..n + 1]) == if Hidden(i, es[n]) then Visible(i, es[..n]) else Visible(i, es[..n]) + [es[n]]
  {
    assert es[..n + 1][..n] == es[..n];
  }

  lemma DrawStep(l: Layout, dot: char, es: seq<Event>, e: Event)
    requires Usable(l)
    ensures var before := Draw(l, dot, es);
            Draw(l, dot, es + [e]) ==
            Pen(before.text + Dots(Cell(l, e) - before.pos, dot) + [Letter(e.stage)], Cell(l, e) + 1)
  {
    hide Cell, Dots, Letter;
    assert (es + [e])[..|es|] == es;
  }

  lemma EventOrder()
    ensures Preorder(EventLeq)
  {
  }

  lemma {:induction false} EventsAre(i: Inst, l: Layout, k: nat, n: nat)
    requires Usable(l)
    ensures TimeWidth(l) > 0 && Distinct(Events(i, l, k, n))
    ensures forall e :: e in Events(i, l, k, n) <==>
              e.stage < n && OnLine(i, l, k, e.stage) && e.offset == Tick(i, e.stage) % TimeWidth(l)
  {
    hide OnLine, Tick, TimeWidth;
    UsableWidth(l);
    if n > 0 {
      EventsAre(i, l, k, n - 1);
    }
  }

  lemma {:induction false} VisibleIs(i: Inst, es: seq<Event>)
    ensures forall e :: e in Visible(i, es) <==> e in es && !Hidden(i, e)
    ensures Distinct(es) ==> Distinct(Visible(i, es))
    ensures Sorted(es, EventLeq) ==> Sorted(Visible(i, es), EventLeq)
  {
    if es != [] {
      hide Hidden, EventLeq;
      var rest, e := es[..|es| - 1], es[|es| - 1];
      VisibleIs(i, rest);
      if Distinct(es) {
        assert Distinct(rest) && e !in rest;
      }
      if Sorted(es, EventLeq) {
        assert Sorted(rest, EventLeq);
        forall x | x in rest ensures EventLeq(x, e) {
          var j :| 0 <= j < |rest| && rest[j] == x;
          assert es[j] == x;
        }
      }
    }
  }

  /** What a line shows: the visible stages on it, once each, by increasing cell. */
  lemma ShownIs(i: Inst, l: Layout, k: nat)
    requires Usable(l)
    ensures TimeWidth(l) > 0 && Distinct(Shown(i, l, k)) && CellsAscend(l, Shown(i, l, k))
    ensures Sorted(Shown(i, l, k), EventLeq)
    ensures forall e :: e in Shown(i, l, k) <==>
              && e.stage < StageCount(l) && OnLine(i, l, k, e.stage) && !Hidden(i, e)
              && e.offset == Tick(i, e.stage) % TimeWidth(l)
    ensures forall j | 0 <= j < |Shown(i, l, k)| :: Cell(l, Shown(i, l, k)[j]) < l.width
  {
    hide Sort, Hidden, Tick, LineStart, LineEnd, TimeWidth;
    var events := Events(i, l, k, StageCount(l));
    var sorted := Sort(events, EventLeq);
    var shown := Shown(i, l, k);
    EventsAre(i, l, k, StageCount(l));
    SortContents(events, EventLeq);
    PermutedDistinct(events, sorted);
    EventOrder();
    SortSorts(events, EventLeq);
    VisibleIs(i, sorted);
    forall a, b | 0 <= a < b < |shown| ensures Cell(l, shown[a]) <= Cell(l, shown[b]) {
      assert EventLeq(shown[a], shown[b]);
      DivMonotone(shown[a].offset, shown[b].offset, l.cycleTime);
    }
    forall j | 0 <= j < |shown| ensures Cell(l, shown[j]) < l.width {
      OffsetCell(i, l, shown[j]);
    }
  }

  lemma OffsetCell(i: Inst, l: Layout, e: Event)
    requires Usable(l) && TimeWidth(l) > 0 && e.offset == Tick(i, e.stage) % TimeWidth(l)
    ensures Cell(l, e) == Tick(i, e.stage) / l.cycleTime % l.width
    ensures Cell(l, e) < l.width
    ensures Tick(i, e.stage) % l.cycleTime == 0 ==> e.offset == Cell(l, e) * l.cycleTime
  {
    NestedDiv(Tick(i, e.stage), l.width, l.cycleTime);
  }

  /** Ticks on cycle boundaries, none before fetch, and no two stages at once but dispatch and issue. */
  ghost predicate RegularTicks(i: Inst, l: Layout)
    requires Usable(l)
  {
    && (forall s | 0 <= s < StageCount(l) && Tick(i, s) != 0 :: Tick(i, s) >= i.fetch && Tick(i, s) % l.cycleTime == 0)
    && (forall s, t | 0 <= s < t < StageCount(l) && Tick(i, s) == Tick(i, t) != 0 :: s == DISPATCH && t == DISPATCH + 1)
  }

  /** An event of a line that is drawn. */
  ghost predicate Drawn(i: Inst, l: Layout, k: nat, e: Event)
    requires Usable(l)
  {
    TimeWidth(l) > 0 && e.stage < StageCount(l) && OnLine(i, l, k, e.stage) && !Hidden(i, e)
    && e.offset == Tick(i, e.stage) % TimeWidth(l)
  }

  lemma StagesApart(i: Inst, l: Layout, k: nat, e: Event, f: Event)
    requires Usable(l) && RegularTicks(i, l) && k < NumLines(i, l) && e != f && Drawn(i, l, k, e) && Drawn(i, l, k, f)
    ensures Cell(l, e) != Cell(l, f)
  {
    TicksDiffer(i, l, k, e, f);
    SameLineApart(i, l, k, e.stage, f.stage);
    SameLineApart(i, l, k, f.stage, e.stage);
    OffsetCell(i, l, e);
    OffsetCell(i, l, f);
    hide RegularTicks, OnLine, Cell, Hidden, NumLines, TimeWidth, Tick;
    RemaindersDiffer(Tick(i, e.stage), Tick(i, f.stage), TimeWidth(l));
  }

  lemma TicksDiffer(i: Inst, l: Layout, k: nat, e: Event, f: Event)
    requires Usable(l) && RegularTicks(i, l) && e != f && Drawn(i, l, k, e) && Drawn(i, l, k, f)
    ensures Tick(i, e.stage) != Tick(i, f.stage)
    ensures Tick(i, e.stage) % l.cycleTime == 0 && Tick(i, f.stage) % l.cycleTime == 0
  {
    SameStage(i, e, f);
    hide Tick, LineStart, LineEnd, TimeWidth, NumLines;
    assert e.stage != f.stage;
  }

  lemma RemaindersDiffer(s: nat, t: nat, d: nat)
    requires d > 0 && s != t && s < t + d && t < s + d
    ensures s % d != t % d
  {
    if s < t {
      NearbyRemainders(s, t, d);
    } else {
      NearbyRemainders(t, s, d);
    }
  }

  lemma SameStage(i: Inst, e: Event, f: Event)
    requires !Hidden(i, e) && !Hidden(i, f)
    ensures Tick(i, DISPATCH) == Tick(i, DISPATCH + 1) ==> e.stage != DISPATCH && f.stage != DISPATCH
  {
  }

  lemma SameLineApart(i: Inst, l: Layout, k: nat, s: nat, t: nat)
    requires Usable(l) && k < NumLines(i, l) && RegularTicks(i, l)
    requires s < StageCount(l) && t < StageCount(l) && OnLine(i, l, k, s) && OnLine(i, l, k, t)
    ensures Tick(i, t) < Tick(i, s) + TimeWidth(l)
  {
    hide Tick, LineStart, BaseTick, TimeWidth;
    if NumLines(i, l) == 1 {
      OneLine(i, l, t);
    }
  }

  // ----- What is drawn, in terms of the trace record.

  /** What the record says of a stage. */
  datatype Mark = Mark(tick: nat, name: string, letter: char)

  /** The stages with their names and letters, as the script lists them. */
  ghost function Marks(i: Inst, l: Layout): seq<Mark> {
    [Mark(i.fetch, "fetch", 'f'), Mark(i.decode, "decode", 'd'), Mark(i.rename, "rename", 'n'),
     Mark(i.dispatch, "dispatch", 'p'), Mark(i.issue, "issue", 'i'), Mark(i.complete, "complete", 'c'),
     Mark(i.retire, "retire", 'r')] + if l.stores then [Mark(i.store, "store", 's')] else []
  }

  /** Everything happens within the time of one line after the fetch. */
  ghost predicate Short(i: Inst, l: Layout) {
    forall m | m in Marks(i, l) :: m.tick < i.fetch + l.width * l.cycleTime
  }

  /** The stage is on line k: lines are consecutive stretches of time, from that of the fetch on. */
  ghost predicate Falls(i: Inst, l: Layout, k: nat, tick: nat)
    requires Usable(l)
  {
    var w := l.width * l.cycleTime;
    UsableWidth(l);
    tick != 0 && if Short(i, l) then tick / w >= i.fetch / w else tick / w == i.fetch / w + k
  }

  /** Stage s is drawn on line k; a dispatch at the tick of the issue never is. */
  ghost predicate IsDrawn(i: Inst, l: Layout, k: nat, s: nat)
    requires Usable(l)
  {
    s < |Marks(i, l)| && Falls(i, l, k, Marks(i, l)[s].tick) && !(s == 3 && i.dispatch == i.issue)
  }

  lemma MarkOf(i: Inst, l: Layout, s: nat)
    requires s < StageCount(l)
    ensures |Marks(i, l)| == StageCount(l)
    ensures Marks(i, l)[s].tick == Tick(i, s) && Marks(i, l)[s].letter == Letter(s)
  {
  }

  lemma LastMark(i: Inst, l: Layout)
    ensures forall m | m in Marks(i, l) :: m.tick <= LastTick(i, StageCount(l))
    ensures exists m | m in Marks(i, l) :: m.tick == LastTick(i, StageCount(l))
  {
    var n := StageCount(l);
    var s :| 0 <= s < n && Tick(i, s) == LastTick(i, n);
    MarkOf(i, l, s);
    assert Marks(i, l)[s] in Marks(i, l);
    forall m | m in Marks(i, l) ensures m.tick <= LastTick(i, n) {
      var t: nat :| t < |Marks(i, l)| && Marks(i, l)[t] == m;
      MarkOf(i, l, t);
    }
  }

  lemma ShortIsCompact(i: Inst, l: Layout)
    ensures Short(i, l) <==> Compact(i, l)
  {
    hide Marks, LastTick;
    LastMark(i, l);
  }

  lemma NumLinesIs(i: Inst, l: Layout)
    requires Usable(l)
    ensures TimeWidth(l) > 0 && i.fetch <= LastTick(i, StageCount(l))
    ensures !Compact(i, l) ==>
              NumLines(i, l) + i.fetch / TimeWidth(l) == LastTick(i, StageCount(l)) / TimeWidth(l) + 1
  {
    UsableWidth(l);
    BaseBelowFetch(i, l);
    hide TimeWidth, LastTick, StageCount;
    DivShift(LastTick(i, StageCount(l)), i.fetch / TimeWidth(l), TimeWidth(l));
  }

  lemma ShortIsOne(i: Inst, l: Layout)
    requires Usable(l)
    ensures Short(i, l) <==> NumLines(i, l) == 1
  {
    ShortIsCompact(i, l);
    NumLinesIs(i, l);
    if Compact(i, l) {
    } else {
      hide NumLines, LastTick, StageCount, TimeWidth, Short;
      DivNext(LastTick(i, StageCount(l)), i.fetch, TimeWidth(l));
    }
  }

  lemma SingleLine(i: Inst, l: Layout, s: nat)
    requires Usable(l) && s < StageCount(l) && NumLines(i, l) == 1
    ensures TimeWidth(l) > 0
    ensures OnLine(i, l, 0, s) <==> Tick(i, s) != 0 && Tick(i, s) / TimeWidth(l) >= i.fetch / TimeWidth(l)
  {
    UsableWidth(l);
    OneLine(i, l, s);
    DivAtLeast(Tick(i, s), i.fetch / TimeWidth(l), TimeWidth(l));
    hide NumLines, LineStart, LineEnd, Tick, TimeWidth;
  }

  lemma OneOfManyLines(i: Inst, l: Layout, k: nat, s: nat)
    requires Usable(l) && NumLines(i, l) != 1
    ensures TimeWidth(l) > 0
    ensures OnLine(i, l, k, s) <==> Tick(i, s) != 0 && Tick(i, s) / TimeWidth(l) == i.fetch / TimeWidth(l) + k
  {
    UsableWidth(l);
    hide NumLines, Tick, TimeWidth;
    DivInterval(Tick(i, s), i.fetch, k, TimeWidth(l));
  }

  lemma FallsIs(i: Inst, l: Layout, k: nat, s: nat)
    requires Usable(l) && s < StageCount(l) && k < NumLines(i, l)
    ensures OnLine(i, l, k, s) <==> Falls(i, l, k, Tick(i, s))
  {
    hide NumLines, OnLine, Tick, Short;
    ShortIsOne(i, l);
    if NumLines(i, l) == 1 {
      SingleLine(i, l, s);
    } else {
      OneOfManyLines(i, l, k, s);
    }
  }

  /** How many lines of w ticks there are: up to that of the last stage. */
  ghost predicate LineCount(i: Inst, l: Layout, n: nat, w: nat)
    requires w > 0
  {
    if Short(i, l) then n == 1
    else
      && (forall m | m in Marks(i, l) :: m.tick / w < i.fetch / w + n)
      && exists m | m in Marks(i, l) :: m.tick / w + 1 == i.fetch / w + n
  }

  lemma LastLine(i: Inst, l: Layout, n: nat, w: nat, last: nat)
    requires w > 0 && !Short(i, l) && n + i.fetch / w == last / w + 1
    requires (forall m | m in Marks(i, l) :: m.tick <= last) && exists m | m in Marks(i, l) :: m.tick == last
    ensures LineCount(i, l, n, w)
  {
    hide Short, Marks;
    forall m | m in Marks(i, l) ensures m.tick / w <= last / w {
      DivMonotone(m.tick, last, w);
    }
    var m :| m in Marks(i, l) && m.tick == last;
    assert m.tick / w + 1 == i.fetch / w + n;
  }

  lemma LinesAre(i: Inst, l: Layout)
    requires Usable(l)
    ensures TimeWidth(l) > 0 && LineCount(i, l, NumLines(i, l), TimeWidth(l))
  {
    hide Short, NumLines, LastTick, Marks, StageCount, TimeWidth;
    ShortIsOne(i, l);
    NumLinesIs(i, l);
    if !Short(i, l) {
      ShortIsCompact(i, l);
      LastMark(i, l);
      LastLine(i, l, NumLines(i, l), TimeWidth(l), LastTick(i, StageCount(l)));
    }
  }

  // ----- The order of the stages on a line.

  function NameAt(rank: nat): string {
    match rank
    case 0 => "complete"
    case 1 => "decode"
    case 2 => "dispatch"
    case 3 => "fetch"
    case 4 => "issue"
    case 5 => "rename"
    case 6 => "retire"
    case _ => "store"
  }

  lemma NextName(rank: nat)
    requires rank < 7
    ensures TextLeq(NameAt(rank), NameAt(rank + 1))
  {
    if rank == 5 {
      assert NameAt(5)[1..][1..][0] == 'n' && NameAt(6)[1..][1..][0] == 't';
    }
  }

  lemma {:induction false} NamesRise(a: nat, b: nat)
    requires a <= b <= 7
    ensures TextLeq(NameAt(a), NameAt(b))
  {
    hide NameAt, TextLeq;
    if a == b {
      TextLeqTotal(NameAt(a), NameAt(a));
    } else {
      NamesRise(a, b - 1);
      NextName(b - 1);
      TextLeqTransitive(NameAt(a), NameAt(b - 1), NameAt(b));
    }
  }

  lemma NameOf(i: Inst, l: Layout, s: nat)
    requires s < |Marks(i, l)|
    ensures Marks(i, l)[s].name == NameAt(NameRank(s)) && NameRank(s) <= 7
  {
  }

  /** Events are sorted by their time on the line, and then by the names of the stages. */
  ghost predicate Earlier(a: Mark, b: Mark, w: nat)
    requires w > 0
  {
    a.tick % w < b.tick % w || (a.tick % w == b.tick % w && TextLeq(a.name, b.name))
  }

  /** A reached stage is on exactly one line, if and only if it is not before the first one. */
  lemma ShownOnce(i: Inst, l: Layout, n: nat, m: Mark)
    requires Usable(l) && l.width * l.cycleTime > 0 && LineCount(i, l, n, l.width * l.cycleTime)
    requires m in Marks(i, l) && m.tick != 0
    ensures OnOneLine(i, l, n, m.tick) <==> m.tick / (l.width * l.cycleTime) >= i.fetch / (l.width * l.cycleTime)
  {
    hide Short, Marks;
    var w := l.width * l.cycleTime;
    var t, f := m.tick / w, i.fetch / w;
    if t >= f {
      if Short(i, l) {
        assert Falls(i, l, 0, m.tick);
      } else {
        var k: nat := t - f;
        assert k < n && Falls(i, l, k, m.tick);
      }
    }
  }

  ghost predicate OnOneLine(i: Inst, l: Layout, n: nat, tick: nat)
    requires Usable(l)
  {
    exists k: nat | k < n :: Falls(i, l, k, tick) && forall j: nat | j < n && Falls(i, l, j, tick) :: j == k
  }

  // ----- The picture.

  ghost function MarkAt(i: Inst, l: Layout, s: nat): Mark {
    if s < |Marks(i, l)| then Marks(i, l)[s] else Mark(0, "", ' ')
  }

  /** The cell of a stage: its cycle, modulo the width. */
  ghost function Columns(i: Inst, l: Layout, order: seq<nat>): seq<nat>
    requires Usable(l)
  {
    seq(|order|, j requires 0 <= j < |order| => MarkAt(i, l, order[j]).tick / l.cycleTime % l.width)
  }

  ghost function Shorthands(i: Inst, l: Layout, order: seq<nat>): string {
    seq(|order|, j requires 0 <= j < |order| => MarkAt(i, l, order[j]).letter)
  }

  /**
   * The text of line k: the letters of exactly the stages that are drawn on it, in the order of time
   * and name, each in the cell of its cycle and moved right by one for every two letters before it
   * that share a cell; and the filler in all other cells.
   */
  ghost predicate Picture(text: string, i: Inst, l: Layout, k: nat, order: seq<nat>)
    requires Usable(l)
  {
    UsableWidth(l);
    && Distinct(order) && (forall s :: s in order <==> IsDrawn(i, l, k, s))
    && (forall a, b | 0 <= a < b < |order| ::
          Earlier(MarkAt(i, l, order[a]), MarkAt(i, l, order[b]), l.width * l.cycleTime))
    && |text| == l.width + Repeats(Columns(i, l, order))
    && Written(text, Columns(i, l, order), Shorthands(i, l, order), if i.retire == 0 then '=' else '.')
  }

  /** The stages of events, in their order. */
  function Stages(es: seq<Event>): (order: seq<nat>)
    ensures |order| == |es| && forall j | 0 <= j < |es| :: order[j] == es[j].stage
  {
    if es == [] then [] else Stages(es[..|es| - 1]) + [es[|es| - 1].stage]
  }

  /** Event e is stage e.stage of the record as the script draws it on line k. */
  lemma EventDrawn(i: Inst, l: Layout, k: nat, e: Event)
    requires Usable(l) && k < NumLines(i, l)
    ensures TimeWidth(l) > 0
    ensures e in Shown(i, l, k) <==> IsDrawn(i, l, k, e.stage) && e.offset == Tick(i, e.stage) % TimeWidth(l)
  {
    ShownIs(i, l, k);
    MarkOf(i, l, 0);
    if e.stage < StageCount(l) {
      MarkOf(i, l, e.stage);
      FallsIs(i, l, k, e.stage);
    }
    hide Tick, Shown, Falls, OnLine, NumLines, TimeWidth, Marks;
  }

  lemma EventMark(i: Inst, l: Layout, k: nat, e: Event)
    requires Usable(l) && k < NumLines(i, l) && e in Shown(i, l, k)
    ensures TimeWidth(l) > 0 && e.stage < |Marks(i, l)| && MarkAt(i, l, e.stage).letter == Letter(e.stage)
    ensures e.offset == MarkAt(i, l, e.stage).tick % TimeWidth(l) && Cell(l, e) < l.width
    ensures Cell(l, e) == MarkAt(i, l, e.stage).tick / l.cycleTime % l.width
    ensures MarkAt(i, l, e.stage).name == NameAt(NameRank(e.stage)) && NameRank(e.stage) <= 7
  {
    EventDrawn(i, l, k, e);
    MarkOf(i, l, 0);
    MarkOf(i, l, e.stage);
    NameOf(i, l, e.stage);
    hide Tick, Shown, Falls, NumLines, Marks, Letter, NameRank, NameAt;
    OffsetCell(i, l, e);
  }

  lemma StagesDrawn(i: Inst, l: Layout, k: nat)
    requires Usable(l) && k < NumLines(i, l)
    ensures Distinct(Stages(Shown(i, l, k)))
    ensures forall s :: s in Stages(Shown(i, l, k)) <==> IsDrawn(i, l, k, s)
  {
    ShownIs(i, l, k);
    hide Shown, IsDrawn, NumLines, Tick, TimeWidth, OnLine;
    var shown := Shown(i, l, k);
    var order := Stages(shown);
    forall a, b | 0 <= a < b < |order| ensures order[a] != order[b] {
      assert shown[a] in shown && shown[b] in shown;
    }
    forall s ensures s in order <==> IsDrawn(i, l, k, s) {
      if s in order {
        var j :| 0 <= j < |order| && order[j] == s;
        EventDrawn(i, l, k, shown[j]);
      }
      if IsDrawn(i, l, k, s) {
        var e := Event(Tick(i, s) % TimeWidth(l), s);
        EventDrawn(i, l, k, e);
        var j :| 0 <= j < |shown| && shown[j] == e;
        assert order[j] == s;
      }
    }
  }

  lemma StagesInOrder(i: Inst, l: Layout, k: nat, a: nat, b: nat)
    requires Usable(l) && k < NumLines(i, l) && a < b < |Shown(i, l, k)|
    ensures var shown := Shown(i, l, k);
            TimeWidth(l) > 0 && Earlier(MarkAt(i, l, shown[a].stage), MarkAt(i, l, shown[b].stage), TimeWidth(l))
  {
    var shown := Shown(i, l, k);
    ShownIs(i, l, k);
    EventMark(i, l, k, shown[a]);
    EventMark(i, l, k, shown[b]);
    hide Shown, NumLines, TimeWidth, MarkAt, NameAt, NameRank, TextLeq, Cell, OnLine;
    assert EventLeq(shown[a], shown[b]);
    var x, y := NameRank(shown[a].stage), NameRank(shown[b].stage);
    if x <= y {
      NamesRise(x, y);
    }
  }

  lemma ShownColumns(i: Inst, l: Layout, k: nat)
    requires Usable(l) && k < NumLines(i, l)
    ensures Columns(i, l, Stages(Shown(i, l, k))) == Cells(l, Shown(i, l, k))
    ensures Shorthands(i, l, Stages(Shown(i, l, k))) == Letters(Shown(i, l, k))
  {
    hide Shown, NumLines, MarkAt, NameAt, NameRank, Cell, Letter;
    var shown := Shown(i, l, k);
    forall j | 0 <= j < |shown|
      ensures MarkAt(i, l, Stages(shown)[j]).tick / l.cycleTime % l.width == Cell(l, shown[j])
      ensures MarkAt(i, l, Stages(shown)[j]).letter == Letter(shown[j].stage)
    {
      EventMark(i, l, k, shown[j]);
    }
  }

  lemma ShownInOrder(i: Inst, l: Layout, k: nat)
    requires Usable(l) && k < NumLines(i, l)
    ensures TimeWidth(l) > 0
    ensures var order := Stages(Shown(i, l, k));
            forall a, b | 0 <= a < b < |order| :: Earlier(MarkAt(i, l, order[a]), MarkAt(i, l, order[b]), TimeWidth(l))
  {
    hide Shown, NumLines, MarkAt, Earlier, TimeWidth;
    UsableWidth(l);
    var order := Stages(Shown(i, l, k));
    forall a, b | 0 <= a < b < |order| ensures Earlier(MarkAt(i, l, order[a]), MarkAt(i, l, order[b]), TimeWidth(l)) {
      StagesInOrder(i, l, k, a, b);
    }
  }

  lemma ShownWritten(i: Inst, l: Layout, k: nat)
    requires Usable(l) && k < NumLines(i, l)
    ensures var shown := Shown(i, l, k);
            && |Body(l, Filler(i), shown)| == l.width + Repeats(Cells(l, shown))
            && Written(Body(l, Filler(i), shown), Cells(l, shown), Letters(shown), Filler(i))
  {
    ShownIs(i, l, k);
    hide Shown, NumLines, Cell, Body, Written, Repeats, Filler;
    BodyWritten(l, Filler(i), Shown(i, l, k));
  }

  /** What is drawn for the events of a line is its picture. */
  lemma ShownPicture(i: Inst, l: Layout, k: nat)
    requires Usable(l) && k < NumLines(i, l)
    ensures Picture(Body(l, Filler(i), Shown(i, l, k)), i, l, k, Stages(Shown(i, l, k)))
  {
    hide Shown, NumLines, MarkAt, IsDrawn, Body, Written, Repeats, Earlier, Columns, Shorthands, Distinct;
    StagesDrawn(i, l, k);
    ShownInOrder(i, l, k);
    ShownWritten(i, l, k);
    ShownColumns(i, l, k);
  }

  /** Nothing to draw in the compact form, whose first event is indexed. */
  ghost predicate NoEvent(i: Inst, l: Layout, w: nat)
    requires w > 0
  {
    Short(i, l) && forall m | m in Marks(i, l) :: m.tick == 0 || m.tick / w < i.fetch / w
  }

  lemma NoEventIs(i: Inst, l: Layout, k: nat)
    requires Usable(l) && k < NumLines(i, l)
    ensures TimeWidth(l) > 0
    ensures NoEvent(i, l, TimeWidth(l)) <==> NumLines(i, l) == 1 && Events(i, l, k, StageCount(l)) == []
  {
    hide NumLines, OnLine, Tick, Short, StageCount, Letter, TimeWidth;
    ShortIsOne(i, l);
    EventsAre(i, l, k, StageCount(l));
    var events := Events(i, l, k, StageCount(l));
    if Short(i, l) {
      forall s: nat | s < StageCount(l)
        ensures |Marks(i, l)| == StageCount(l) && Marks(i, l)[s].tick == Tick(i, s)
        ensures OnLine(i, l, k, s) <==> Tick(i, s) != 0 && Tick(i, s) / TimeWidth(l) >= i.fetch / TimeWidth(l)
      {
        MarkOf(i, l, s);
        SingleLine(i, l, s);
      }
      hide Marks;
      MarkCount(i, l);
      if events != [] {
        assert events[0] in events;
        var s := events[0].stage;
        assert Marks(i, l)[s] in Marks(i, l);
      } else {
        forall m | m in Marks(i, l) ensures m.tick == 0 || m.tick / TimeWidth(l) < i.fetch / TimeWidth(l) {
          var s: nat :| s < |Marks(i, l)| && Marks(i, l)[s] == m;
          assert Event(Tick(i, s) % TimeWidth(l), s) !in events;
        }
      }
    }
  }

  lemma MarkCount(i: Inst, l: Layout)
    ensures |Marks(i, l)| == StageCount(l)
  {
  }

  /** The loops that collect, sort and draw the events of line k. */
  method DrawLine(i: Inst, l: Layout, k: nat) returns (r: Option<string>, ghost order: seq<nat>)
    requires Usable(l) && k < NumLines(i, l)
    ensures r == None <==> NoEvent(i, l, l.width * l.cycleTime)
    ensures r.Some? ==> Picture(r.value, i, l, k, order)
  {
    hide NumLines, Events, Sort, Body, Filler, Visible, NoEvent, Picture;
    var events := CollectEvents(i, l, k);
    NoEventIs(i, l, k);
    if NumLines(i, l) == 1 && events == [] {
      return None, [];
    }
    var body := DrawEvents(i, l, Sort(events, EventLeq));
    ShownPicture(i, l, k);
    r, order := Some(body), Stages(Shown(i, l, k));
  }

  /** All lines of an instruction. */
  method DrawTimeline(i: Inst, l: Layout) returns (r: Option<seq<string>>, ghost orders: seq<seq<nat>>)
    requires Usable(l)
    ensures l.width * l.cycleTime > 0 && (r == None <==> NoEvent(i, l, l.width * l.cycleTime))
    ensures r.Some? ==>
              && LineCount(i, l, |r.value|, l.width * l.cycleTime) && |orders| == |r.value|
              && forall k: nat | k < |r.value| :: Picture(r.value[k], i, l, k, orders[k])
  {
    hide NumLines, NoEvent, Picture, LineCount;
    LinesAre(i, l);
    var lines: seq<string> := [];
    orders := [];
    for k := 0 to NumLines(i, l)
      invariant |lines| == |orders| == k && (k > 0 ==> !NoEvent(i, l, l.width * l.cycleTime))
      invariant forall j: nat | j < k :: Picture(lines[j], i, l, j, orders[j])
    {
      var line, order := DrawLine(i, l, k);
      if line == None {
        return None, [];
      }
      lines, orders := lines + [line.value], orders + [order];
    }
    r := Some(lines);
  }

  // ----- Instructions whose stages are in different cells.

  /** Ticks on cycle boundaries, none before the fetch, and no two stages at once but dispatch and issue. */
  ghost predicate Regular(i: Inst, l: Layout)
    requires Usable(l)
  {
    var ms := Marks(i, l);
    && (forall m | m in ms && m.tick != 0 :: m.tick >= i.fetch && m.tick % l.cycleTime == 0)
    && (forall s, t | 0 <= s < t < |ms| && ms[s].tick == ms[t].tick != 0 :: s == 3 && t == 4)
  }

  lemma RegularIs(i: Inst, l: Layout)
    requires Usable(l) && Regular(i, l)
    ensures RegularTicks(i, l)
  {
    hide Tick, Letter;
    var ms := Marks(i, l);
    forall s: nat | s < StageCount(l) ensures s < |ms| && ms[s].tick == Tick(i, s) && ms[s] in ms {
      MarkOf(i, l, s);
    }
    hide Marks, StageCount;
  }

  lemma DrawnApart(i: Inst, l: Layout, k: nat, s: nat, t: nat)
    requires Usable(l) && Regular(i, l) && k < NumLines(i, l)
    requires s != t && IsDrawn(i, l, k, s) && IsDrawn(i, l, k, t)
    ensures MarkAt(i, l, s).tick / l.cycleTime % l.width != MarkAt(i, l, t).tick / l.cycleTime % l.width
  {
    RegularIs(i, l);
    UsableWidth(l);
    var e, f := Event(Tick(i, s) % TimeWidth(l), s), Event(Tick(i, t) % TimeWidth(l), t);
    EventDrawn(i, l, k, e);
    EventDrawn(i, l, k, f);
    EventMark(i, l, k, e);
    EventMark(i, l, k, f);
    ShownIs(i, l, k);
    hide Regular, RegularTicks, NumLines, Tick, TimeWidth, Shown, IsDrawn, MarkAt, OnLine, Cell, Hidden, StageCount;
    assert Drawn(i, l, k, e) && Drawn(i, l, k, f);
    StagesApart(i, l, k, e, f);
  }

  lemma EarlierColumn(a: Mark, b: Mark, l: Layout)
    requires Usable(l) && l.width * l.cycleTime > 0 && Earlier(a, b, l.width * l.cycleTime)
    ensures a.tick / l.cycleTime % l.width <= b.tick / l.cycleTime % l.width
  {
    hide TextLeq;
    NestedDiv(a.tick, l.width, l.cycleTime);
    NestedDiv(b.tick, l.width, l.cycleTime);
    DivMonotone(a.tick % (l.width * l.cycleTime), b.tick % (l.width * l.cycleTime), l.cycleTime);
  }

  lemma PlainColumns(i: Inst, l: Layout, k: nat, text: string, order: seq<nat>)
    requires Usable(l) && Regular(i, l) && k < NumLines(i, l) && Picture(text, i, l, k, order)
    ensures Ascend(Columns(i, l, order)) && Repeats(Columns(i, l, order)) == 0
  {
    hide Regular, NumLines, IsDrawn, MarkAt, Earlier, Written, Repeats;
    var cols := Columns(i, l, order);
    forall a, b | 0 <= a < b < |order| ensures cols[a] <= cols[b] && cols[a] != cols[b] {
      EarlierColumn(MarkAt(i, l, order[a]), MarkAt(i, l, order[b]), l);
      assert order[a] in order && order[b] in order;
      DrawnApart(i, l, k, order[a], order[b]);
    }
    RepeatsNone(cols);
  }

  /**
   * For a regular instruction every line has width cells. A cell shows the letter of the stage that
   * is drawn on this line and in this cell, and it shows the filler exactly where there is none.
   */
  lemma RegularTimeline(i: Inst, l: Layout, k: nat, text: string, order: seq<nat>)
    requires Usable(l) && Regular(i, l) && k < NumLines(i, l) && Picture(text, i, l, k, order)
    ensures |text| == l.width
    ensures forall s | IsDrawn(i, l, k, s) ::
              text[MarkAt(i, l, s).tick / l.cycleTime % l.width] == MarkAt(i, l, s).letter
    ensures forall c: nat | c < l.width ::
              text[c] == (if i.retire == 0 then '=' else '.') <==> !InCell(i, l, k, c)
  {
    PlainColumns(i, l, k, text, order);
    hide Regular, NumLines, IsDrawn, MarkAt, Earlier, Repeats, Place;
    var cols := Columns(i, l, order);
    forall j: nat | j < |cols| ensures Place(cols, j) == cols[j] {
      PlacePlain(cols, j);
    }
    forall s | IsDrawn(i, l, k, s)
      ensures text[MarkAt(i, l, s).tick / l.cycleTime % l.width] == MarkAt(i, l, s).letter
    {
      var j: nat :| j < |order| && order[j] == s;
      assert text[Place(cols, j)] == Shorthands(i, l, order)[j];
    }
    forall c: nat | c < l.width ensures text[c] == (if i.retire == 0 then '=' else '.') <==> !InCell(i, l, k, c) {
      if InCell(i, l, k, c) {
        var s: nat :| IsDrawn(i, l, k, s) && MarkAt(i, l, s).tick / l.cycleTime % l.width == c;
        LetterIsNoFiller(i, l, s);
      } else {
        forall j: nat | j < |cols| ensures Place(cols, j) != c {
          assert order[j] in order;
        }
        assert Free(cols, c);
      }
    }
  }

  ghost predicate InCell(i: Inst, l: Layout, k: nat, c: nat)
    requires Usable(l)
  {
    exists s: nat | IsDrawn(i, l, k, s) :: MarkAt(i, l, s).tick / l.cycleTime % l.width == c
  }

  lemma LetterIsNoFiller(i: Inst, l: Layout, s: nat)
    ensures MarkAt(i, l, s).letter != '=' && MarkAt(i, l, s).letter != '.'
  {
  }
}
