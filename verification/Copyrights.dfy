/**
 * The years of a copyright line: util/find_copyrights.py compresses a set of years into ranges
 * and reads such a text back into a set.
 */
module Copyrights {
  import opened Wrappers
  import opened Sorting
  import opened Text

  // ----- Compression into ranges.

  datatype Run = Run(first: int, last: int)

  /** Nonempty ranges in increasing order with a gap between any two. */
  ghost predicate Ordered(runs: seq<Run>) {
    && (forall i | 0 <= i < |runs| :: runs[i].first <= runs[i].last)
    && (forall i, j | 0 <= i < j < |runs| :: runs[i].last + 1 < runs[j].first)
  }

  ghost predicate Covers(runs: seq<Run>, y: int) {
    exists i :: 0 <= i < |runs| && runs[i].first <= y <= runs[i].last
  }

  ghost predicate Compressed(runs: seq<Run>, years: set<int>) {
    Ordered(runs) && forall y :: y in years <==> Covers(runs, y)
  }

  /** A stretch of years in the set that cannot be made longer. */
  ghost predicate Maximal(r: Run, years: set<int>) {
    && r.first <= r.last && r.first - 1 !in years && r.last + 1 !in years
    && forall y | r.first <= y <= r.last :: y in years
  }

  lemma RunIsMaximal(runs: seq<Run>, years: set<int>, i: nat)
    requires Compressed(runs, years) && i < |runs|
    ensures Maximal(runs[i], years)
  {
  }

  lemma MaximalIsRun(runs: seq<Run>, years: set<int>, r: Run)
    requires Compressed(runs, years) && Maximal(r, years)
    ensures r in runs
  {
    assert Covers(runs, r.first) && Covers(runs, r.last);
    var i :| 0 <= i < |runs| && runs[i].first <= r.first <= runs[i].last;
    var j :| 0 <= j < |runs| && runs[j].first <= r.last <= runs[j].last;
    RunIsMaximal(runs, years, i);
    RunIsMaximal(runs, years, j);
    assert runs[i].first == r.first;
    assert runs[j].last == r.last;
    assert runs[i].last + 1 !in years;
    assert i == j;
  }

  /** The printed ranges are exactly the maximal stretches, so two compressions hold the same ranges. */
  lemma RunsAreMaximal(runs: seq<Run>, years: set<int>)
    requires Compressed(runs, years)
    ensures forall r :: r in runs <==> Maximal(r, years)
  {
    forall r ensures r in runs <==> Maximal(r, years) {
      if r in runs {
        var i :| 0 <= i < |runs| && runs[i] == r;
        RunIsMaximal(runs, years, i);
      } else if Maximal(r, years) {
        MaximalIsRun(runs, years, r);
      }
    }
  }

  // ----- The text.

  function RunText(r: Run): string {
    if r.first == r.last then DecInt(r.first) else DecInt(r.first) + "-" + DecInt(r.last)
  }

  function Texts(runs: seq<Run>): (parts: seq<string>)
    ensures |parts| == |runs| && forall i | 0 <= i < |runs| :: parts[i] == RunText(runs[i])
  {
    if runs == [] then [] else Texts(runs[..|runs| - 1]) + [RunText(runs[|runs| - 1])]
  }

  /** list and sort. */
  method SortedYears(years: set<int>) returns (s: seq<int>)
    ensures forall i, j | 0 <= i < j < |s| :: s[i] < s[j]
    ensures (forall y :: y in years <==> y in s) && (s == [] <==> years == {})
  {
    var listed := Elements(years);
    var leq := (a: int, b: int) => a <= b;
    s := Sort(listed, leq);
    SortContents(listed, leq);
    SortSorts(listed, leq);
    PermutedDistinct(listed, s);
    assert forall i, j | 0 <= i < j < |s| :: leq(s[i], s[j]) && s[i] != s[j];
  }

  /** What has been read of a sorted list: the finished ranges and the one still open. */
  ghost predicate Reading(runs: seq<Run>, open: Run, s: seq<int>, n: nat)
    requires n <= |s|
  {
    Ordered(runs + [open]) && forall y :: y in s[..n] <==> Covers(runs + [open], y)
  }

  lemma CoversAppend(runs: seq<Run>, r: Run, y: int)
    ensures Covers(runs + [r], y) <==> Covers(runs, y) || r.first <= y <= r.last
  {
    var all := runs + [r];
    if Covers(runs, y) {
      var i :| 0 <= i < |runs| && runs[i].first <= y <= runs[i].last;
      assert all[i] == runs[i];
    }
    assert all[|runs|] == r;
  }

  lemma ReadStep(runs: seq<Run>, open: Run, s: seq<int>, n: nat)
    requires 0 < n < |s| && Reading(runs, open, s, n) && open.last == s[n - 1] < s[n]
    ensures if s[n] == open.last + 1 then Reading(runs, Run(open.first, s[n]), s, n + 1)
            else Reading(runs + [open], Run(s[n], s[n]), s, n + 1)
  {
    var joined := s[n] == open.last + 1;
    var runs' := if joined then runs else runs + [open];
    var open' := if joined then Run(open.first, s[n]) else Run(s[n], s[n]);
    assert s[..n + 1] == s[..n] + [s[n]];
    assert (runs + [open])[|runs|] == open;
    assert forall i | 0 <= i < |runs| :: (runs + [open])[i] == runs[i];
    forall y ensures y in s[..n + 1] <==> Covers(runs' + [open'], y) {
      CoversAppend(runs, open, y);
      CoversAppend(runs', open', y);
      assert y in s[..n + 1] <==> y in s[..n] || y == s[n];
    }
  }

  lemma FirstRead(s: seq<int>)
    requires s != []
    ensures Reading([], Run(s[0], s[0]), s, 1)
  {
    var one := [] + [Run(s[0], s[0])];
    assert s[..1] == [s[0]] && one[0] == Run(s[0], s[0]);
  }

  lemma ReadAll(runs: seq<Run>, open: Run, s: seq<int>, years: set<int>)
    requires Reading(runs, open, s, |s|) && forall y :: y in years <==> y in s
    ensures Compressed(runs + [open], years)
  {
  }

  /** datestr: popping from the empty list is an error. */
  method DateStr(years: set<int>) returns (text: Option<string>, ghost runs: seq<Run>)
    ensures text == None <==> years == {}
    ensures text.Some? ==> runs != [] && Compressed(runs, years) && text.value == Join(Texts(runs), ',')
  {
    var s := SortedYears(years);
    runs := [];
    if |s| == 0 {
      return None, [];
    }
    assert s[0] in s;
    var output: seq<string> := [];
    var first, second := s[0], s[0];
    FirstRead(s);
    hide Reading;
    var n := 1;
    while n < |s|
      invariant 1 <= n <= |s| && second == s[n - 1]
      invariant output == Texts(runs) && Reading(runs, Run(first, second), s, n)
    {
      var next := s[n];
      ReadStep(runs, Run(first, second), s, n);
      if next == second + 1 {
        second := next;
      } else {
        output := AddOutput(output, runs, first, second);
        runs := runs + [Run(first, second)];
        first, second := next, next;
      }
      n := n + 1;
    }
    output := AddOutput(output, runs, first, second);
    ReadAll(runs, Run(first, second), s, years);
    runs := runs + [Run(first, second)];
    text := Some(Join(output, ','));
  }

  method AddOutput(output: seq<string>, ghost runs: seq<Run>, first: int, second: int) returns (more: seq<string>)
    requires output == Texts(runs)
    ensures more == Texts(runs + [Run(first, second)])
  {
    assert (runs + [Run(first, second)])[..|runs|] == runs;
    if first == second {
      more := output + [DecInt(first)];
    } else {
      more := output + [DecInt(first) + "-" + DecInt(second)];
    }
  }

  // ----- Reading.

  /** What follows the white space at the beginning. */
  function Skip(s: string): string {
    if s != [] && IsSpace(s[0]) then Skip(s[1..]) else s
  }

  /** Four digits, a dash with optional white space around it, four digits; the rest is not looked at. */
  function RangeMatch(s: string): Option<(nat, nat)> {
    if |s| < 4 || !AllDigits(s[..4]) then None
    else
      var t := Skip(s[4..]);
      if t == [] || t[0] != '-' then None
      else
        var u := Skip(t[1..]);
        if |u| < 4 || !AllDigits(u[..4]) then None else Some((Value(s[..4]), Value(u[..4])))
  }

  /** xrange. */
  function Span(from: int, upto: int): (s: set<int>)
    ensures forall y :: y in s <==> from <= y < upto
    decreases upto - from
  {
    if upto <= from then {} else Span(from, upto - 1) + {upto - 1}
  }

  function Years(date: string): set<int> {
    match RangeMatch(date)
    case Some((f, l)) => Span(f, l + 1)
    case None =>
      match ParseInt(date)
      case Some(n) => {n}
      case None => {}
  }

  function AllYears(dates: seq<string>): set<int> {
    if dates == [] then {} else AllYears(dates[..|dates| - 1]) + Years(Strip(dates[|dates| - 1]))
  }

  // ----- What a part of the list means.

  /** Four digits, a dash and four digits, with white space before and around the dash, and any rest. */
  ghost predicate RangeParts(s: string, before: string, a: string, left: string, right: string,
                             b: string, rest: string) {
    && s == before + (a + (left + ("-" + (right + (b + rest)))))
    && Blank(before) && Blank(left) && Blank(right)
    && |a| == |b| == 4 && AllDigits(a) && AllDigits(b)
  }

  /** The part is a range that includes the year, or a numeral for it. */
  ghost predicate Denotes(part: string, y: int) {
    || (exists before, a, left, right, b, rest ::
          RangeParts(part, before, a, left, right, b, rest) && Value(a) <= y <= Value(b))
    || Numeral(part, y)
  }

  lemma {:induction false} SkipIs(w: string, t: string)
    requires Blank(w) && (t == [] || !White(t[0]))
    ensures Skip(w + t) == t
  {
    hide White, IsSpace;
    if w == [] {
      assert w + t == t;
      if t != [] {
        SpaceIs(t[0]);
      }
    } else {
      SpaceIs(w[0]);
      SkipIs(w[1..], t);
      assert (w + t)[1..] == w[1..] + t;
    }
  }

  lemma {:induction false} SkipMeans(s: string) returns (w: string)
    ensures Blank(w) && s == w + Skip(s)
  {
    hide White, IsSpace;
    w := "";
    if s != [] && IsSpace(s[0]) {
      SpaceIs(s[0]);
      w := SkipMeans(s[1..]);
      w := [s[0]] + w;
    }
  }

  lemma SignNotWhite(c: char)
    requires IsDigit(c) || c == '-' || c == '+'
    ensures !White(c)
  {
    SpaceIs(c);
  }

  lemma Pieces(x: string, y: string)
    ensures (x + y)[..|x|] == x && (x + y)[|x|..] == y
  {
  }

  lemma MatchIs(a: string, left: string, right: string, b: string, rest: string)
    requires Blank(left) && Blank(right) && |a| == |b| == 4 && AllDigits(a) && AllDigits(b)
    ensures RangeMatch(a + (left + ("-" + (right + (b + rest))))) == Some((Value(a), Value(b)))
  {
    hide Value, White, Skip, IsDigit;
    var u := b + rest;
    var t := "-" + (right + u);
    assert IsDigit(b[0]) && u[0] == b[0];
    SignNotWhite('-');
    SignNotWhite(b[0]);
    Pieces(a, left + t);
    SkipIs(left, t);
    Pieces("-", right + u);
    SkipIs(right, u);
    Pieces(b, rest);
  }

  lemma MatchMeans(s: string) returns (a: string, left: string, right: string, b: string, rest: string)
    requires RangeMatch(s).Some?
    ensures RangeParts(s, "", a, left, right, b, rest) && RangeMatch(s) == Some((Value(a), Value(b)))
  {
    hide Value, White, Skip;
    a := s[..4];
    left := SkipMeans(s[4..]);
    var t := Skip(s[4..]);
    right := SkipMeans(t[1..]);
    var u := Skip(t[1..]);
    b, rest := u[..4], u[4..];
    assert t == "-" + (right + u) && u == b + rest;
    assert s == "" + (a + (left + t));
  }

  lemma {:induction false} TrailingSpace(s: string) returns (keep: string, w: string)
    ensures s == keep + w && Blank(w) && (keep != [] ==> !White(keep[|keep| - 1]))
  {
    hide White;
    keep, w := s, "";
    if s != [] && White(s[|s| - 1]) {
      keep, w := TrailingSpace(s[..|s| - 1]);
      w := w + [s[|s| - 1]];
    }
  }

  lemma RangeStripped(part: string, before: string, a: string, left: string, right: string, b: string, rest: string)
    requires RangeParts(part, before, a, left, right, b, rest)
    ensures RangeMatch(Strip(part)) == Some((Value(a), Value(b)))
  {
    hide Value, White, RangeMatch, Strip, IsDigit;
    var keep, w := TrailingSpace(rest);
    var core := a + (left + ("-" + (right + (b + keep))));
    assert part == before + core + w;
    assert IsDigit(a[0]) && IsDigit(b[3]) && core[0] == a[0];
    SignNotWhite(a[0]);
    SignNotWhite(b[3]);
    assert core == (a + (left + ("-" + right))) + (b + keep);
    assert core[|core| - 1] == (b + keep)[|b + keep| - 1];
    StripIs(before, core, w);
    MatchIs(a, left, right, b, keep);
  }

  /** A stripped range comes from a range in the part. */
  lemma RangeInPart(part: string)
    returns (before: string, a: string, left: string, right: string, b: string, rest: string)
    requires RangeMatch(Strip(part)).Some?
    ensures RangeParts(part, before, a, left, right, b, rest)
    ensures RangeMatch(Strip(part)) == Some((Value(a), Value(b)))
  {
    hide Value, White, RangeMatch, Strip;
    var after;
    before, after := StripMeans(part);
    a, left, right, b, rest := MatchMeans(Strip(part));
    rest := rest + after;
    assert part == before + (a + (left + ("-" + (right + (b + rest)))));
  }

  /** A numeral has no dash after its digits, so it is no range. */
  lemma NumeralNoRange(s: string)
    requires RangeMatch(s).Some?
    ensures ParseInt(s) == None
  {
    hide Value, White, Strip, ParseInt, RangeMatch, Blank;
    var a, left, right, b, rest := MatchMeans(s);
    if ParseInt(s).Some? {
      var n := ParseInt(s).value;
      ParseIntMeans(s, n);
      var before, sign, digits, after :| NumeralParts(s, n, before, sign, digits, after);
      assert s[0] == a[0] && s[4 + |left|] == '-';
      NoDashAfterDigit(s, before, sign, digits, after, 4 + |left|);
    }
  }

  lemma NoDashAfterDigit(s: string, before: string, sign: string, digits: string, after: string, k: nat)
    requires s == before + (sign + digits) + after && Blank(before) && Blank(after)
    requires sign in {"", "+", "-"} && AllDigits(digits) && 0 < k < |s| && IsDigit(s[0])
    ensures s[k] != '-'
  {
    hide White;
    SignNotWhite(s[0]);
    SignNotWhite('-');
    assert before == [];
    assert sign == "";
  }

  /** What is read from a part is what it denotes. */
  lemma YearsMeans(part: string, y: int)
    ensures y in Years(Strip(part)) <==> Denotes(part, y)
  {
    hide Value, White, Strip, RangeMatch, ParseInt, Numeral, Blank;
    var s := Strip(part);
    ParseStripped(part);
    ParseIntMeans(part, y);
    if RangeMatch(s).Some? {
      NumeralNoRange(s);
      var before, a, left, right, b, rest := RangeInPart(part);
    }
    forall before, a, left, right, b, rest | RangeParts(part, before, a, left, right, b, rest)
      ensures RangeMatch(s) == Some((Value(a), Value(b)))
    {
      RangeStripped(part, before, a, left, right, b, rest);
    }
  }

  /** The years of a list are those that its parts denote. */
  lemma ListMeans(parts: seq<string>, y: int)
    ensures y in AllYears(parts) <==> exists i :: 0 <= i < |parts| && Denotes(parts[i], y)
  {
    hide Years, Denotes, Strip;
    AllYearsHas(parts, y);
    forall i | 0 <= i < |parts| ensures y in Years(Strip(parts[i])) <==> Denotes(parts[i], y) {
      YearsMeans(parts[i], y);
    }
  }

  ghost predicate NoComma(parts: seq<string>) {
    forall i | 0 <= i < |parts| :: ',' !in parts[i]
  }

  /** process_dates. */
  method ProcessDates(text: string) returns (output: set<int>)
    ensures output == AllYears(Split(text, ','))
    ensures forall parts: seq<string>, y | parts != [] && NoComma(parts) && text == Join(parts, ',') ::
              y in output <==> exists i :: 0 <= i < |parts| && Denotes(parts[i], y)
  {
    hide Denotes, Strip, RangeMatch, ParseInt, Split, Join;
    forall parts: seq<string>, y | parts != [] && NoComma(parts) && text == Join(parts, ',')
      ensures y in AllYears(Split(text, ',')) <==> exists i :: 0 <= i < |parts| && Denotes(parts[i], y)
    {
      SplitOfJoin(parts, ',');
      ListMeans(parts, y);
    }
    var dates := Split(text, ',');
    output := {};
    for n := 0 to |dates|
      invariant output == AllYears(dates[..n])
    {
      assert dates[..n + 1][..n] == dates[..n];
      var date := Strip(dates[n]);
      var m := RangeMatch(date);
      if m.Some? {
        var (f, l) := m.value;
        ghost var before := output;
        for i := f to (if l + 1 < f then f else l + 1)
          invariant output == before + Span(f, i)
        {
          output := output + {i};
        }
      } else {
        var v := ParseInt(date);
        if v.Some? {
          output := output + {v.value};
        }
      }
    }
    assert dates[..|dates|] == dates;
  }

  // ----- Reading back.

  /** The ranges that come back: single years, and ranges within the four-digit years. */
  predicate Good(r: Run) {
    r.first == r.last || (1000 <= r.first && r.last <= 9999)
  }

  predicate NoDash(s: string) {
    '-' !in s
  }

  lemma DigitsNoDash(n: nat)
    ensures NoDash(Dec(n)) && forall i | 0 <= i < |Dec(n)| :: !IsSpace(Dec(n)[i])
  {
  }

  lemma SingleYear(n: int)
    ensures Years(DecInt(n)) == {n}
  {
    var s := DecInt(n);
    IntOfDec(n);
    DigitsNoDash(if n < 0 then -n else n);
    if n < 0 {
      assert s[0] == '-' && !IsDigit(s[..1][0]);
      assert |s| >= 4 ==> s[..4][0] == '-';
    }
    assert RangeMatch(s) == None;
  }

  /** A dash inside a number is refused. */
  lemma NotANumber(a: int, b: int)
    ensures ParseInt(DecInt(a) + "-" + DecInt(b)) == None
  {
    var s := DecInt(a) + "-" + DecInt(b);
    var k := |DecInt(a)|;
    assert s[k] == '-' && s[0] == DecInt(a)[0] && s[|s| - 1] == DecInt(b)[|DecInt(b)| - 1];
    DigitsNoDash(if a < 0 then -a else a);
    DigitsNoDash(if b < 0 then -b else b);
    StripBare(s);
    assert s[1..][k - 1] == '-';
  }

  lemma FourDigitRange(a: nat, b: nat)
    requires 1000 <= a <= 9999 && a < b
    ensures |Dec(b)| >= 4 && RangeMatch(DecInt(a) + "-" + DecInt(b)) == Some((a, Value(Dec(b)[..4])))
  {
    var s := DecInt(a) + "-" + DecInt(b);
    FourDigits(a);
    FourDigits(b);
    ValueOfDec(a);
    assert s[..4] == Dec(a) && s[4] == '-' && s[4..][0] == '-';
    assert s[5..] == Dec(b) && s[5..][0] == Dec(b)[0] && IsDigit(Dec(b)[0]);
    assert s[5..9] == Dec(b)[..4];
  }

  /** A dash among the first four characters, or a digit right after them, is no range. */
  lemma NoRange(s: string, k: nat)
    requires k < |s| && ((k < 4 && s[k] == '-') || (k == 4 && IsDigit(s[k])))
    ensures RangeMatch(s) == None
  {
    if k < 4 {
      assert |s| >= 4 ==> s[..4][k] == '-';
    } else {
      assert s[4..][0] == s[4] && Skip(s[4..]) == s[4..];
    }
  }

  lemma OtherRange(a: int, b: int)
    requires a < b && (a < 1000 || a > 9999)
    ensures RangeMatch(DecInt(a) + "-" + DecInt(b)) == None
  {
    hide RangeMatch, Dec, Skip;
    var s := DecInt(a) + "-" + DecInt(b);
    if a < 0 {
      assert s[0] == '-';
      NoRange(s, 0);
    } else {
      FourDigits(a);
      var k := |Dec(a)|;
      if k < 4 {
        assert s[k] == '-';
        NoRange(s, k);
      } else {
        assert s[4] == Dec(a)[4];
        NoRange(s, 4);
      }
    }
  }

  /** What a printed range is read as lies within it, and is all of it exactly when it is good. */
  lemma RunYears(r: Run)
    requires r.first <= r.last
    ensures forall y | y in Years(RunText(r)) :: r.first <= y <= r.last
    ensures if Good(r) then forall y | r.first <= y <= r.last :: y in Years(RunText(r))
            else r.last !in Years(RunText(r))
  {
    hide RangeMatch, ParseInt, DecInt;
    if r.first == r.last {
      SingleYear(r.first);
    } else {
      NotANumber(r.first, r.last);
      if 1000 <= r.first <= 9999 {
        FourDigitRange(r.first, r.last);
        FourOf(r.last);
      } else {
        OtherRange(r.first, r.last);
      }
    }
  }

  lemma FourOf(n: nat)
    requires |Dec(n)| >= 4
    ensures if n <= 9999 then Value(Dec(n)[..4]) == n else Value(Dec(n)[..4]) <= 9999
  {
    FourDigits(n);
    ValueOfDec(n);
    var head := Dec(n)[..4];
    ValueBound(head);
    assert Pow10(2) == 100 && Pow10(4) == 100 * Pow10(2);
    assert |Dec(n)| == 4 ==> head == Dec(n);
  }

  lemma {:induction false} AllYearsHas(dates: seq<string>, y: int)
    ensures y in AllYears(dates) <==> exists i :: 0 <= i < |dates| && y in Years(Strip(dates[i]))
  {
    if dates != [] {
      hide Years;
      var n := |dates| - 1;
      AllYearsHas(dates[..n], y);
      assert forall i | 0 <= i < n :: dates[..n][i] == dates[i];
    }
  }

  lemma RunTextPlain(r: Run)
    ensures ',' !in RunText(r) && Strip(RunText(r)) == RunText(r)
  {
  }

  /** The years read from the text of some ranges. */
  lemma TextYears(runs: seq<Run>, y: int)
    requires runs != []
    ensures y in AllYears(Split(Join(Texts(runs), ','), ',')) <==>
            exists i :: 0 <= i < |runs| && y in Years(RunText(runs[i]))
  {
    hide Years, RunText, Split, Join, Strip, Texts;
    var parts := Texts(runs);
    forall i | 0 <= i < |runs| ensures ',' !in parts[i] && Strip(parts[i]) == RunText(runs[i]) {
      RunTextPlain(runs[i]);
    }
    SplitOfJoin(parts, ',');
    AllYearsHas(parts, y);
  }

  /** What the caller can look at: two years in a row are both four-digit years. */
  ghost predicate Readable(years: set<int>) {
    forall y | InARow(y, years) :: 1000 <= y && y + 1 <= 9999
  }

  predicate InARow(y: int, years: set<int>) {
    y in years && y + 1 in years
  }

  lemma ReadableRuns(runs: seq<Run>, years: set<int>)
    requires Compressed(runs, years)
    ensures Readable(years) <==> forall i | 0 <= i < |runs| :: Good(runs[i])
  {
    if Readable(years) {
      forall i | 0 <= i < |runs| ensures Good(runs[i]) {
        RunIsMaximal(runs, years, i);
        var r := runs[i];
        assert r.first < r.last ==> InARow(r.first, years) && InARow(r.last - 1, years);
      }
    } else {
      var y :| InARow(y, years) && !(1000 <= y && y + 1 <= 9999);
      var i :| 0 <= i < |runs| && runs[i].first <= y <= runs[i].last;
      RunIsMaximal(runs, years, i);
      assert y + 1 <= runs[i].last && !Good(runs[i]);
    }
  }

  /** Reading the printed text gives back the set exactly when it is readable. */
  lemma YearsRoundTrip(runs: seq<Run>, years: set<int>)
    requires runs != [] && Compressed(runs, years)
    ensures (forall y :: y in AllYears(Split(Join(Texts(runs), ','), ',')) <==> y in years) <==> Readable(years)
  {
    hide AllYears, Split, Join, Texts, Years, RunText, Readable;
    ReadableRuns(runs, years);
    var back := AllYears(Split(Join(Texts(runs), ','), ','));
    forall i | 0 <= i < |runs| {
      RunYears(runs[i]);
    }
    if Readable(years) {
      forall y ensures y in back <==> y in years {
        TextYears(runs, y);
        assert y in years <==> Covers(runs, y);
      }
    } else {
      var i :| 0 <= i < |runs| && !Good(runs[i]);
      var y := runs[i].last;
      TextYears(runs, y);
      assert Covers(runs, y) && y in years && y !in back;
    }
  }

  /** The two years 999 and 1000 are printed as one range, which is read as no year at all. */
  lemma ShortYearsLost()
    ensures Compressed([Run(999, 1000)], {999, 1000}) && Years(RunText(Run(999, 1000))) == {}
  {
    var runs := [Run(999, 1000)];
    assert forall y :: Covers(runs, y) <==> runs[0].first <= y <= runs[0].last;
    NotANumber(999, 1000);
    OtherRange(999, 1000);
  }

  /** Printing and reading, for a nonempty set of years. */
  method Restate(years: set<int>) returns (back: set<int>)
    requires years != {}
    ensures (forall y :: y in back <==> y in years) <==> Readable(years)
  {
    hide AllYears, Split, Join, Texts, Compressed, Readable;
    var text, runs := DateStr(years);
    back := ProcessDates(text.value);
    YearsRoundTrip(runs, years);
  }
}
