/**
 * The print queue of util/o3-pipeview.py: instructions arrive in completion order, are kept in a
 * bounded window, and leave it sorted by sequence number.
 */
module PipeViewQueue {
  import opened Arithmetic
  import opened Sorting

  /** The recorded ticks of one instruction; 0 means that the stage was not reached. */
  datatype Inst = Inst(sn: nat, fetch: nat, decode: nat, rename: nat, dispatch: nat, issue: nat,
                       complete: nat, retire: nat, store: nat)

  predicate BySn(a: Inst, b: Inst) {
    a.sn <= b.sn
  }

  /** The bounds that print_insts applies; 0 or less switches a bound off. */
  datatype Range = Range(snStart: int, snStop: int, tickStart: int, tickStop: int, onlyCommitted: bool)

  ghost predicate Between(x: int, first: int, last: int) {
    (first > 0 ==> first <= x) && (last > 0 ==> x <= last)
  }

  /** Within both ranges, and retired if that is asked for. */
  ghost predicate Wanted(r: Range, i: Inst) {
    && Between(i.sn, r.snStart, r.snStop) && Between(i.fetch, r.tickStart, r.tickStop)
    && (r.onlyCommitted ==> i.retire != 0)
  }

  ghost function Filter(s: seq<Inst>, r: Range): seq<Inst> {
    if s == [] then []
    else Filter(s[..|s| - 1], r) + if Wanted(r, s[|s| - 1]) then [s[|s| - 1]] else []
  }

  /** What has left the queue, and what is still in it. */
  datatype Window = Window(popped: seq<Inst>, queue: seq<Inst>)

  /** print_insts: sort the queue and pop all but the last lower elements. */
  function Drain(w: Window, lower: nat): Window {
    var s := Sort(w.queue, BySn);
    var k := if |s| > lower then |s| - lower else 0;
    Window(w.popped + s[..k], s[k..])
  }

  /** queue_inst for each arrival in turn, with thresholds lo and hi. */
  function After(a: seq<Inst>, lo: nat, hi: nat): Window {
    if a == [] then Window([], [])
    else
      var w := After(a[..|a| - 1], lo, hi);
      var grown := Window(w.popped, w.queue + [a[|a| - 1]]);
      if |grown.queue| > hi then Drain(grown, lo) else grown
  }

  /** Everything that is popped by the end of the trace. */
  function Popped(a: seq<Inst>, lo: nat, hi: nat): seq<Inst> {
    Drain(After(a, lo, hi), 0).popped
  }

  /** How many arrivals had been seen at the last drain among the first n. */
  function DrainedAt(n: nat, lo: nat, hi: nat): (t: nat)
    requires lo <= hi
    ensures t <= n
  {
    if n <= hi then 0
    else hi + 1 + (n - hi - 1) / (hi + 1 - lo) * (hi + 1 - lo)
  }

  function Larger(s: seq<Inst>, sn: nat): nat {
    if s == [] then 0 else Larger(s[..|s| - 1], sn) + if s[|s| - 1].sn > sn then 1 else 0
  }

  // ----- The window is drained at fixed arrival counts.

  lemma DivStep(m: nat, d: nat)
    requires d > 0
    ensures (m + 1) / d == if m % d == d - 1 then m / d + 1 else m / d
    ensures m == m / d * d + m % d
  {
    var q, r := m / d, m % d;
    if r == d - 1 {
      assert m + 1 == (q + 1) * d + 0;
      DivIs(m + 1, d, q + 1, 0);
    } else {
      DivIs(m + 1, d, q, r + 1);
    }
  }

  lemma DrainStep(n: nat, lo: nat, hi: nat)
    requires lo <= hi
    ensures var t := DrainedAt(n, lo, hi);
            var held := if t > 0 then lo + n - t else n;
            held <= hi && DrainedAt(n + 1, lo, hi) == if held + 1 > hi then n + 1 else t
  {
    var d := hi + 1 - lo;
    if n > hi {
      DivStep(n - hi - 1, d);
    } else if n == hi {
      assert 0 / d == 0;
    }
  }

  lemma AfterStep(b: seq<Inst>, x: Inst, lo: nat, hi: nat)
    ensures var w := After(b, lo, hi);
            var grown := Window(w.popped, w.queue + [x]);
            After(b + [x], lo, hi) == if |grown.queue| > hi then Drain(grown, lo) else grown
  {
  }

  lemma DrainLength(w: Window, lower: nat)
    ensures |Drain(w, lower).queue| == if |w.queue| > lower then lower else |w.queue|
  {
    SortContents(w.queue, BySn);
  }

  /** The queue holds what the last drain left and the arrivals since. */
  lemma {:induction false} QueueLength(a: seq<Inst>, lo: nat, hi: nat)
    requires lo <= hi
    ensures var t := DrainedAt(|a|, lo, hi);
            |After(a, lo, hi).queue| == if t > 0 then lo + |a| - t else |a|
  {
    if a != [] {
      hide After, Drain, DrainedAt;
      var b, x := a[..|a| - 1], a[|a| - 1];
      assert a == b + [x];
      QueueLength(b, lo, hi);
      DrainStep(|b|, lo, hi);
      AfterStep(b, x, lo, hi);
      var w := After(b, lo, hi);
      DrainLength(Window(w.popped, w.queue + [x]), lo);
    }
  }

  ghost predicate UnpoppedSince(a: seq<Inst>, t: nat, lo: nat, hi: nat)
    requires t <= |a|
  {
    var w, v := After(a, lo, hi), After(a[..t], lo, hi);
    w.popped == v.popped && w.queue == v.queue + a[t..]
  }

  lemma UnpoppedStep(b: seq<Inst>, x: Inst, t: nat, lo: nat, hi: nat)
    requires t <= |b| && UnpoppedSince(b, t, lo, hi) && |After(b, lo, hi).queue| + 1 <= hi
    ensures UnpoppedSince(b + [x], t, lo, hi)
  {
    hide After, Drain;
    AfterStep(b, x, lo, hi);
    assert (b + [x])[..t] == b[..t] && (b + [x])[t..] == b[t..] + [x];
  }

  /** Since the last drain nothing has been popped and the arrivals have been appended. */
  lemma {:induction false} SinceDrain(a: seq<Inst>, lo: nat, hi: nat)
    requires lo <= hi
    ensures UnpoppedSince(a, DrainedAt(|a|, lo, hi), lo, hi)
    ensures |After(a[..DrainedAt(|a|, lo, hi)], lo, hi).queue| == if DrainedAt(|a|, lo, hi) > 0 then lo else 0
  {
    hide After, Drain, DrainedAt;
    var t := DrainedAt(|a|, lo, hi);
    QueueLength(a, lo, hi);
    if t == |a| {
      assert a[..t] == a && a[t..] == [];
    } else {
      var b, x := a[..|a| - 1], a[|a| - 1];
      assert a == b + [x];
      SinceDrain(b, lo, hi);
      DrainStep(|b|, lo, hi);
      QueueLength(b, lo, hi);
      UnpoppedStep(b, x, t, lo, hi);
    }
  }

  // ----- Nothing is lost or duplicated.

  lemma {:induction false} Conserved(a: seq<Inst>, lo: nat, hi: nat)
    ensures multiset(After(a, lo, hi).popped) + multiset(After(a, lo, hi).queue) == multiset(a)
  {
    if a != [] {
      var b, x := a[..|a| - 1], a[|a| - 1];
      Conserved(b, lo, hi);
      assert a == b + [x];
      var w := After(b, lo, hi);
      DrainConserves(Window(w.popped, w.queue + [x]), lo);
    }
  }

  lemma DrainConserves(w: Window, lower: nat)
    ensures multiset(Drain(w, lower).popped) + multiset(Drain(w, lower).queue) == multiset(w.popped) + multiset(w.queue)
  {
    SortContents(w.queue, BySn);
    var s := Sort(w.queue, BySn);
    var k := if |s| > lower then |s| - lower else 0;
    assert s == s[..k] + s[k..];
  }

  lemma PoppedContents(a: seq<Inst>, lo: nat, hi: nat)
    ensures multiset(Popped(a, lo, hi)) == multiset(a)
  {
    Conserved(a, lo, hi);
    var w := After(a, lo, hi);
    DrainConserves(w, 0);
    SortContents(w.queue, BySn);
    assert Drain(w, 0).queue == [];
  }

  // ----- Counting larger sequence numbers.

  lemma {:induction false} LargerConcat(s: seq<Inst>, t: seq<Inst>, sn: nat)
    ensures Larger(s + t, sn) == Larger(s, sn) + Larger(t, sn)
  {
    if t == [] {
      assert s + t == s;
    } else {
      assert (s + t)[..|s + t| - 1] == s + t[..|t| - 1];
      LargerConcat(s, t[..|t| - 1], sn);
    }
  }

  lemma LargerRemove(t: seq<Inst>, i: nat, sn: nat)
    requires i < |t|
    ensures Larger(t, sn) == Larger(t[..i] + t[i + 1..], sn) + if t[i].sn > sn then 1 else 0
  {
    assert t == t[..i] + [t[i]] + t[i + 1..];
    LargerConcat(t[..i], t[i + 1..], sn);
    LargerConcat(t[..i] + [t[i]], t[i + 1..], sn);
    LargerConcat(t[..i], [t[i]], sn);
    assert [t[i]][..0] == [];
  }

  lemma RemoveContents<T>(t: seq<T>, i: nat)
    requires i < |t|
    ensures multiset(t[..i] + t[i + 1..]) == multiset(t) - multiset{t[i]}
  {
    assert t == t[..i] + [t[i]] + t[i + 1..];
  }

  lemma {:induction false} LargerPermuted(s: seq<Inst>, t: seq<Inst>, sn: nat)
    requires multiset(s) == multiset(t)
    ensures Larger(s, sn) == Larger(t, sn)
  {
    if s == [] {
      assert t == [];
    } else {
      var n := |s| - 1;
      assert s[n] in multiset(t);
      var i :| 0 <= i < |t| && t[i] == s[n];
      RemoveContents(s, n);
      RemoveContents(t, i);
      assert s[..n] + s[n + 1..] == s[..n];
      LargerPermuted(s[..n], t[..i] + t[i + 1..], sn);
      LargerRemove(t, i, sn);
    }
  }

  lemma {:induction false} LargerBounds(s: seq<Inst>, sn: nat)
    ensures Larger(s, sn) <= |s|
    ensures (forall i | 0 <= i < |s| :: s[i].sn > sn) ==> Larger(s, sn) == |s|
    ensures (forall i | 0 <= i < |s| :: s[i].sn <= sn) ==> Larger(s, sn) == 0
  {
    if s != [] {
      LargerBounds(s[..|s| - 1], sn);
    }
  }

  // ----- Exactly when the output is in order.

  /** No arrival is overtaken by more than lo of the instructions seen by the last drain before it. */
  ghost predicate InWindow(a: seq<Inst>, lo: nat, hi: nat)
    requires lo <= hi
  {
    forall t | 0 <= t < |a| :: Larger(a[..DrainedAt(t, lo, hi)], a[t].sn) <= lo
  }

  /** The assumption the source states: no arrival has more than lo earlier arrivals above it. */
  ghost predicate NearlySorted(a: seq<Inst>, lo: nat) {
    forall t | 0 <= t < |a| :: Larger(a[..t], a[t].sn) <= lo
  }

  lemma NearlySortedInWindow(a: seq<Inst>, lo: nat, hi: nat)
    requires lo <= hi && NearlySorted(a, lo)
    ensures InWindow(a, lo, hi)
  {
    hide DrainedAt, Larger;
    forall t | 0 <= t < |a| ensures Larger(a[..DrainedAt(t, lo, hi)], a[t].sn) <= lo {
      LargerPrefix(a[..t], DrainedAt(t, lo, hi), a[t].sn);
      assert a[..t][..DrainedAt(t, lo, hi)] == a[..DrainedAt(t, lo, hi)];
    }
  }

  /** lo + 1 instructions and then one that belongs before all of them. */
  function Overtaken(lo: nat): seq<Inst> {
    seq(lo + 1, _ => Inst(1, 0, 0, 0, 0, 0, 0, 0, 0)) + [Inst(0, 0, 0, 0, 0, 0, 0, 0, 0)]
  }

  lemma OvertakenInWindow(lo: nat, hi: nat)
    requires lo < hi
    ensures InWindow(Overtaken(lo), lo, hi) && !NearlySorted(Overtaken(lo), lo)
  {
    var a := Overtaken(lo);
    LargerBounds(a[..lo + 1], 0);
    assert Larger(a[..lo + 1], a[lo + 1].sn) == lo + 1;
    forall t | 0 <= t < |a| ensures Larger(a[..DrainedAt(t, lo, hi)], a[t].sn) <= lo {
      assert a[..0] == [];
    }
  }

  lemma OneWide(a: seq<Inst>, lo: nat)
    requires InWindow(a, lo, lo)
    ensures NearlySorted(a, lo)
  {
    hide DrainedAt, Larger;
    forall t | 0 <= t < |a| ensures Larger(a[..t], a[t].sn) <= lo {
      LargerBounds(a[..t], a[t].sn);
      if t > lo {
        DrainedAlways(t, lo);
      }
    }
  }

  lemma DrainedAlways(t: nat, lo: nat)
    requires t > lo
    ensures DrainedAt(t, lo, lo) == t
  {
  }

  /** The stated assumption is what the queue needs only if it drains at every arrival. */
  lemma WindowWider(lo: nat, hi: nat)
    requires lo <= hi
    ensures (forall a :: InWindow(a, lo, hi) <==> NearlySorted(a, lo)) <==> lo == hi
  {
    hide InWindow, NearlySorted;
    if lo < hi {
      OvertakenInWindow(lo, hi);
    } else {
      forall a ensures InWindow(a, lo, hi) <==> NearlySorted(a, lo) {
        if InWindow(a, lo, hi) {
          OneWide(a, lo);
        }
        if NearlySorted(a, lo) {
          NearlySortedInWindow(a, lo, hi);
        }
      }
    }
  }

  lemma LargerPrefix(s: seq<Inst>, d: nat, sn: nat)
    requires d <= |s|
    ensures Larger(s[..d], sn) <= Larger(s, sn)
  {
    assert s == s[..d] + s[d..];
    LargerConcat(s[..d], s[d..], sn);
  }

  lemma SnOrder()
    ensures Preorder(BySn)
  {
  }

  ghost predicate Below(s: seq<Inst>, sn: nat) {
    forall i | 0 <= i < |s| :: s[i].sn <= sn
  }

  /** The queue never holds anything smaller than what was popped, and together they sort the arrivals. */
  ghost predicate Ordered(a: seq<Inst>, lo: nat, hi: nat) {
    var w := After(a, lo, hi);
    && Sort(a, BySn) == w.popped + Sort(w.queue, BySn)
    && forall i | 0 <= i < |w.queue| :: Below(w.popped, w.queue[i].sn)
  }

  /** The next arrival is not below anything already popped. */
  lemma ArrivalAbove(a: seq<Inst>, x: Inst, lo: nat, hi: nat)
    requires lo <= hi && Ordered(a, lo, hi)
    requires Larger(a[..DrainedAt(|a|, lo, hi)], x.sn) <= lo
    ensures Below(After(a, lo, hi).popped, x.sn)
  {
    var t := DrainedAt(|a|, lo, hi);
    var w, v := After(a, lo, hi), After(a[..t], lo, hi);
    SinceDrain(a, lo, hi);
    forall i | 0 <= i < |w.popped| ensures w.popped[i].sn <= x.sn {
      if w.popped[i].sn > x.sn {
        var m := w.popped[i];
        Conserved(a[..t], lo, hi);
        LargerPermuted(v.popped + v.queue, a[..t], x.sn);
        LargerConcat(v.popped, v.queue, x.sn);
        forall j | 0 <= j < |v.queue| ensures v.queue[j].sn > x.sn {
          assert v.queue[j] == w.queue[j];
        }
        LargerBounds(v.queue, x.sn);
        LargerHas(v.popped, i, x.sn);
        assert false;
      }
    }
  }

  lemma {:induction false} LargerHas(s: seq<Inst>, i: nat, sn: nat)
    requires i < |s| && s[i].sn > sn
    ensures Larger(s, sn) > 0
  {
    if i < |s| - 1 {
      LargerHas(s[..|s| - 1], i, sn);
    }
  }

  lemma InWindowPrefix(b: seq<Inst>, x: Inst, lo: nat, hi: nat)
    requires lo <= hi && InWindow(b + [x], lo, hi)
    ensures InWindow(b, lo, hi) && Larger(b[..DrainedAt(|b|, lo, hi)], x.sn) <= lo
  {
    hide Larger, DrainedAt;
    var a := b + [x];
    forall t | 0 <= t < |b| ensures Larger(b[..DrainedAt(t, lo, hi)], b[t].sn) <= lo {
      assert b[..DrainedAt(t, lo, hi)] == a[..DrainedAt(t, lo, hi)] && b[t] == a[t];
    }
    assert b[..DrainedAt(|b|, lo, hi)] == a[..DrainedAt(|b|, lo, hi)] && a[|b|] == x;
  }

  lemma OrderedStep(b: seq<Inst>, x: Inst, lo: nat, hi: nat)
    requires lo <= hi && Ordered(b, lo, hi) && Below(After(b, lo, hi).popped, x.sn)
    ensures Ordered(b + [x], lo, hi)
  {
    hide After, Drain, Sort, Insert, InsertLast;
    var w := After(b, lo, hi);
    SnOrder();
    SortAppend(b, x, BySn);
    InsertLastBehind(x, w.popped, Sort(w.queue, BySn), BySn);
    SortAppend(w.queue, x, BySn);
    AfterStep(b, x, lo, hi);
    OrderedDrain(b + [x], w.popped, w.queue + [x], lo);
  }

  lemma {:induction false} StaysOrdered(a: seq<Inst>, lo: nat, hi: nat)
    requires lo <= hi && InWindow(a, lo, hi)
    ensures Ordered(a, lo, hi)
  {
    if a != [] {
      hide InWindow, Ordered;
      var b, x := a[..|a| - 1], a[|a| - 1];
      assert a == b + [x];
      InWindowPrefix(b, x, lo, hi);
      StaysOrdered(b, lo, hi);
      ArrivalAbove(b, x, lo, hi);
      OrderedStep(b, x, lo, hi);
    }
  }

  lemma SplitSorted(s: seq<Inst>, k: nat)
    requires Sorted(s, BySn) && k <= |s|
    ensures Sorted(s[k..], BySn)
    ensures forall i | k <= i < |s| :: Below(s[..k], s[i].sn)
  {
  }

  lemma OrderedDrain(a: seq<Inst>, popped: seq<Inst>, queue: seq<Inst>, lo: nat)
    requires Sort(a, BySn) == popped + Sort(queue, BySn)
    requires forall i | 0 <= i < |queue| :: Below(popped, queue[i].sn)
    ensures var d := Drain(Window(popped, queue), lo);
            && Sort(a, BySn) == d.popped + Sort(d.queue, BySn)
            && forall i | 0 <= i < |d.queue| :: Below(d.popped, d.queue[i].sn)
  {
    var s := Sort(queue, BySn);
    var k := if |s| > lo then |s| - lo else 0;
    hide Sort;
    SnOrder();
    SortSorts(queue, BySn);
    SortContents(queue, BySn);
    SplitSorted(s, k);
    SortOfSorted(s[k..], BySn);
    assert s == s[..k] + s[k..];
    assert popped + s == popped + s[..k] + s[k..];
    forall i | k <= i < |s| ensures Below(popped + s[..k], s[i].sn) {
      assert s[i] in multiset(s);
      assert s[i] in queue;
    }
  }

  lemma PoppedOrdered(a: seq<Inst>, lo: nat, hi: nat)
    requires Ordered(a, lo, hi)
    ensures Popped(a, lo, hi) == Sort(a, BySn)
  {
  }

  /** The windowed output of a whole trace is its stable sort, if and only if every arrival is in window. */
  lemma OutputSortedIff(a: seq<Inst>, lo: nat, hi: nat)
    requires lo <= hi
    ensures Sorted(Popped(a, lo, hi), BySn) <==> InWindow(a, lo, hi)
    ensures InWindow(a, lo, hi) ==> Popped(a, lo, hi) == Sort(a, BySn)
  {
    hide Sort, Popped, After, DrainedAt, Larger;
    if InWindow(a, lo, hi) {
      StaysOrdered(a, lo, hi);
      PoppedOrdered(a, lo, hi);
      SnOrder();
      SortSorts(a, BySn);
    }
    if Sorted(Popped(a, lo, hi), BySn) {
      forall t | 0 <= t < |a| ensures Larger(a[..DrainedAt(t, lo, hi)], a[t].sn) <= lo {
        SortedMeansInWindow(a, t, lo, hi);
      }
    }
  }

  lemma {:induction false} PoppedGrows(a: seq<Inst>, k: nat, lo: nat, hi: nat)
    requires k <= |a|
    ensures After(a[..k], lo, hi).popped <= After(a, lo, hi).popped
  {
    if k == |a| {
      assert a[..k] == a;
    } else {
      var b := a[..|a| - 1];
      assert b[..k] == a[..k];
      PoppedGrows(b, k, lo, hi);
    }
  }

  lemma SortedMeansInWindow(a: seq<Inst>, t: nat, lo: nat, hi: nat)
    requires lo <= hi && t < |a| && Sorted(Popped(a, lo, hi), BySn)
    ensures Larger(a[..DrainedAt(t, lo, hi)], a[t].sn) <= lo
  {
    hide Sort, Drain;
    var b, x := a[..t], a[t];
    var d := DrainedAt(t, lo, hi);
    var v := After(a[..d], lo, hi);
    SinceDrain(b, lo, hi);
    assert b[..d] == a[..d];
    PoppedBefore(a, t, lo, hi);
    Conserved(a[..d], lo, hi);
    LargerPermuted(v.popped + v.queue, a[..d], x.sn);
    LargerConcat(v.popped, v.queue, x.sn);
    LargerBounds(v.popped, x.sn);
    LargerBounds(v.queue, x.sn);
  }

  /** In a sorted output, what was popped before an arrival is not above it. */
  lemma PoppedBefore(a: seq<Inst>, t: nat, lo: nat, hi: nat)
    requires lo <= hi && t < |a| && Sorted(Popped(a, lo, hi), BySn)
    ensures Below(After(a[..t], lo, hi).popped, a[t].sn)
  {
    hide After, Sort;
    var out, early := Popped(a, lo, hi), After(a[..t], lo, hi).popped;
    PoppedGrows(a, t, lo, hi);
    PoppedContents(a, lo, hi);
    Conserved(a[..t], lo, hi);
    assert early <= out;
    var late := out[|early|..];
    assert out == early + late;
    assert a == a[..t] + [a[t]] + a[t + 1..];
    assert multiset(late)[a[t]] == multiset(a)[a[t]] - multiset(early)[a[t]];
    assert multiset(early)[a[t]] <= multiset(a[..t])[a[t]] < multiset(a)[a[t]];
    assert a[t] in multiset(late);
    var j :| 0 <= j < |late| && late[j] == a[t];
    assert out[|early| + j] == a[t];
    forall i | 0 <= i < |early| ensures early[i].sn <= a[t].sn {
      assert BySn(out[i], out[|early| + j]);
    }
  }

  lemma FilterAppend(s: seq<Inst>, x: Inst, r: Range)
    ensures Filter(s + [x], r) == Filter(s, r) + if Wanted(r, x) then [x] else []
  {
  }

  /** Filtering keeps exactly the wanted instructions, each as often as it came. */
  lemma {:induction false} FilterContents(s: seq<Inst>, r: Range)
    ensures forall x :: multiset(Filter(s, r))[x] == if Wanted(r, x) then multiset(s)[x] else 0
  {
    if s != [] {
      hide Wanted;
      var rest, x := s[..|s| - 1], s[|s| - 1];
      FilterContents(rest, r);
      assert s == rest + [x];
    }
  }

  lemma {:induction false} FilterBelow(s: seq<Inst>, r: Range, sn: nat)
    requires Below(s, sn)
    ensures Below(Filter(s, r), sn)
  {
    if s != [] {
      FilterBelow(s[..|s| - 1], r, sn);
    }
  }

  lemma {:induction false} FilterSorted(s: seq<Inst>, r: Range)
    requires Sorted(s, BySn)
    ensures Sorted(Filter(s, r), BySn)
  {
    if s != [] {
      hide Wanted;
      var rest := s[..|s| - 1];
      FilterSorted(rest, r);
      assert Below(rest, s[|s| - 1].sn) by {
        forall i | 0 <= i < |rest| ensures rest[i].sn <= s[|s| - 1].sn { assert BySn(s[i], s[|s| - 1]); }
      }
      FilterBelow(rest, r, s[|s| - 1].sn);
    }
  }

  /** The global print queue; the thresholds are 1000 and 2000 in the source. */
  class PrintQueue {
    const lo: nat
    const hi: nat
    const range: Range
    var queue: seq<Inst>
    var printed: seq<Inst>
    ghost var popped: seq<Inst>

    ghost predicate Valid()
      reads this
    {
      lo <= hi && printed == Filter(popped, range)
    }

    ghost function Held(): Window
      reads this
    {
      Window(popped, queue)
    }

    constructor (lo: nat, hi: nat, range: Range)
      requires lo <= hi
      ensures Valid() && Held() == Window([], []) && this.lo == lo && this.hi == hi && this.range == range
    {
      this.lo, this.hi, this.range := lo, hi, range;
      queue, printed, popped := [], [], [];
    }

    method PrintInsts(lower: nat)
      requires Valid()
      modifies this
      ensures Valid() && Held() == Drain(old(Held()), lower)
    {
      hide Sort, Filter;
      queue := Sort(queue, BySn);
      ghost var s, before := queue, popped;
      ghost var n := 0;
      while |queue| > lower
        invariant Valid() && n <= |s| && queue == s[n..] && popped == before + s[..n]
        invariant n <= if |s| > lower then |s| - lower else 0
      {
        var item := queue[0];
        queue := queue[1..];
        FilterAppend(popped, item, range);
        var skip := false;
        if range.snStart > 0 && item.sn < range.snStart {
          skip := true; // before the first sequence number
        } else if range.snStop > 0 && item.sn > range.snStop {
          skip := true; // after the last sequence number
        } else if range.tickStart > 0 && item.fetch < range.tickStart {
          skip := true; // before the first tick
        } else if range.tickStop > 0 && item.fetch > range.tickStop {
          skip := true; // after the last tick
        } else if range.onlyCommitted && item.retire == 0 {
          skip := true; // not completed
        }
        assert skip == !Wanted(range, item);
        if !skip {
          printed := printed + [item];
        }
        popped := popped + [item];
        assert s[..n + 1] == s[..n] + [s[n]];
        n := n + 1;
      }
    }

    method QueueInst(inst: Inst, ghost arrivals: seq<Inst>)
      requires Valid() && Held() == After(arrivals, lo, hi)
      modifies this
      ensures Valid() && Held() == After(arrivals + [inst], lo, hi)
    {
      AfterStep(arrivals, inst, lo, hi);
      queue := queue + [inst];
      if |queue| > hi {
        PrintInsts(lo);
      }
    }
  }

  /** A whole trace up to the flush at the end of the file. */
  method PrintTrace(arrivals: seq<Inst>, lo: nat, hi: nat, range: Range) returns (printed: seq<Inst>)
    requires lo <= hi
    ensures printed == Filter(Popped(arrivals, lo, hi), range)
    ensures forall x :: multiset(printed)[x] == if Wanted(range, x) then multiset(arrivals)[x] else 0
    ensures InWindow(arrivals, lo, hi) ==> printed == Filter(Sort(arrivals, BySn), range) && Sorted(printed, BySn)
    ensures NearlySorted(arrivals, lo) ==> InWindow(arrivals, lo, hi)
  {
    var q := new PrintQueue(lo, hi, range);
    for i := 0 to |arrivals|
      invariant q.Valid() && q.Held() == After(arrivals[..i], lo, hi)
      invariant q.lo == lo && q.hi == hi && q.range == range
    {
      q.QueueInst(arrivals[i], arrivals[..i]);
      assert arrivals[..i + 1] == arrivals[..i] + [arrivals[i]];
    }
    assert arrivals[..|arrivals|] == arrivals;
    q.PrintInsts(0);
    printed := q.printed;
    TraceFacts(arrivals, lo, hi, range);
  }

  lemma TraceFacts(a: seq<Inst>, lo: nat, hi: nat, r: Range)
    requires lo <= hi
    ensures var out := Filter(Popped(a, lo, hi), r);
            && (forall x :: multiset(out)[x] == if Wanted(r, x) then multiset(a)[x] else 0)
            && (InWindow(a, lo, hi) ==> out == Filter(Sort(a, BySn), r) && Sorted(out, BySn))
    ensures NearlySorted(a, lo) ==> InWindow(a, lo, hi)
  {
    hide After, Sort, Filter, InWindow, NearlySorted, Popped;
    PoppedContents(a, lo, hi);
    FilterContents(Popped(a, lo, hi), r);
    OutputSortedIff(a, lo, hi);
    if InWindow(a, lo, hi) { FilterSorted(Popped(a, lo, hi), r); }
    if NearlySorted(a, lo) { NearlySortedInWindow(a, lo, hi); }
  }
}
