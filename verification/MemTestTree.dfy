/**
 * The tree that configs/example/memtest.py builds, in closed form: which components exist and
 * what each of them is connected to.
 */
module MemTestTree {
  import opened Wrappers
  import opened Sorting
  import opened Arithmetic
  import opened MemTest

  // ----- The closed form.

  /** Every level fans out. */
  ghost predicate Fanned(s: Spec) {
    Sound(s) && forall i | 0 <= i < |s.caches| :: s.caches[i] > 0
  }

  function Fan(s: Spec, level: nat): nat
    requires 0 < level <= Levels(s)
  {
    s.caches[Levels(s) - level]
  }

  function TestersAt(s: Spec, level: nat): nat
    requires Sound(s) && level <= Levels(s)
  {
    s.testers[Levels(s) - level]
  }

  /** The number of subsystems on a level. */
  function Subsystems(s: Spec, level: nat): nat
    requires level <= Levels(s)
  {
    Prod(s.caches[..Levels(s) - level])
  }

  /** What a subsystem contains; one at the top has a crossbar only for several testers. */
  predicate Contains(s: Spec, c: Component)
    requires Sound(s)
  {
    c != Memory && c.level <= Levels(s) &&
    match c
    case Xbar(l, _) => l > 0 || TestersAt(s, 0) > 1
    case TreeCache(l, _, n) => l > 0 && n < Fan(s, l)
    case TesterCache(l, _, n) => l > 0 && n < TestersAt(s, l)
    case Tester(l, _, n) => n < TestersAt(s, l)
  }

  /** The components of the system. */
  predicate Exists(s: Spec, c: Component)
    requires Sound(s)
  {
    Contains(s, c) && c.index < Subsystems(s, c.level)
  }

  /** What the i-th subsystem of a level is connected to. */
  function Above(s: Spec, level: nat, i: nat): Component
    requires Fanned(s) && level <= Levels(s)
  {
    if level == Levels(s) then Memory
    else TreeCache(level + 1, i / Fan(s, level + 1), i % Fan(s, level + 1))
  }

  /** What a component is connected to. */
  function Wire(s: Spec, c: Component): Component
    requires Fanned(s) && Contains(s, c)
  {
    match c
    case Xbar(l, i) => Above(s, l, i)
    case TreeCache(l, i, _) => Xbar(l, i)
    case TesterCache(l, i, _) => Xbar(l, i)
    case Tester(l, i, n) =>
      if l > 0 then TesterCache(l, i, n)
      else if TestersAt(s, 0) > 1 then Xbar(0, i)
      else Above(s, 0, i)
  }

  // ----- Adding exactly some components, as wired.

  ghost predicate Laid(s: Spec, p: Plant, q: Plant, added: iset<Component>)
    requires Fanned(s)
  {
    && (forall c :: c in q.links <==> c in p.links || c in added)
    && (forall c | c in added :: Contains(s, c) && c in q.links && q.links[c] == Wire(s, c))
    && (forall c | c in p.links && c !in added :: c in q.links && q.links[c] == p.links[c])
  }

  lemma LaidTrans(s: Spec, p: Plant, q: Plant, r: Plant, a: iset<Component>, b: iset<Component>, all: iset<Component>)
    requires Fanned(s) && Laid(s, p, q, a) && Laid(s, q, r, b) && forall c :: c in all <==> c in a || c in b
    ensures Laid(s, p, r, all)
  {
    hide Contains, Wire;
  }

  lemma LaidNone(s: Spec, p: Plant, q: Plant)
    requires Fanned(s) && p.links == q.links
    ensures Laid(s, p, q, iset{})
  {
  }

  lemma LaidLink(s: Spec, p: Plant, c: Component, to: Component)
    requires Fanned(s) && Contains(s, c) && Wire(s, c) == to
    ensures Laid(s, p, Link(p, c, to), iset{c})
  {
    hide Contains, Wire;
  }

  ghost function CachedSet(level: nat, index: nat, n: nat): iset<Component> {
    iset c: Component | (c.TesterCache? || c.Tester?) && c.level == level && c.index == index && c.n < n
  }

  lemma {:induction false} CachedLaid(s: Spec, p: Plant, level: nat, index: nat, n: nat)
    requires Fanned(s) && 0 < level <= Levels(s) && n <= TestersAt(s, level)
    ensures Laid(s, p, CachedTesters(p, level, index, n), CachedSet(level, index, n))
  {
    if n == 0 {
      LaidNone(s, p, p);
      assert CachedSet(level, index, n) == iset{};
    } else {
      CachedLaid(s, p, level, index, n - 1);
      var q := CachedTesters(p, level, index, n - 1);
      var t, c := Tester(level, index, n - 1), TesterCache(level, index, n - 1);
      var mid := Link(q, c, Xbar(level, index));
      LaidLink(s, q, c, Xbar(level, index));
      var r := CachedTesters(p, level, index, n);
      var a := CachedSet(level, index, n - 1);
      hide Laid;
      LaidTrans(s, p, q, mid, a, iset{c}, a + iset{c});
      LaidTester(s, mid, r, t, c);
      LaidTrans(s, p, mid, r, a + iset{c}, iset{t}, CachedSet(level, index, n));
    }
  }

  lemma LaidTester(s: Spec, p: Plant, q: Plant, t: Component, to: Component)
    requires Fanned(s) && Contains(s, t) && Wire(s, t) == to && q.links == Link(p, t, to).links
    ensures Laid(s, p, q, iset{t})
  {
    LaidLink(s, p, t, to);
  }

  ghost function PlainSet(index: nat, n: nat): iset<Component> {
    iset c: Component | c.Tester? && c.level == 0 && c.index == index && c.n < n
  }

  lemma {:induction false} PlainLaid(s: Spec, p: Plant, index: nat, n: nat, to: Component)
    requires Fanned(s) && n <= TestersAt(s, 0) && to == Wire(s, Tester(0, index, 0))
    ensures Laid(s, p, PlainTesters(p, index, n, to), PlainSet(index, n))
  {
    if n == 0 {
      LaidNone(s, p, p);
      assert PlainSet(index, n) == iset{};
    } else {
      PlainLaid(s, p, index, n - 1, to);
      var q, t := PlainTesters(p, index, n - 1, to), Tester(0, index, n - 1);
      LaidTester(s, q, PlainTesters(p, index, n, to), t, to);
      hide Laid;
      LaidTrans(s, p, q, PlainTesters(p, index, n, to), PlainSet(index, n - 1), iset{t}, PlainSet(index, n));
    }
  }

  // ----- Subtrees: the subsystems of a subtree are numbered consecutively on every level.

  /** Subsystem i of level l lies below the subsystems from..upto of a level. */
  predicate Below(s: Spec, level: nat, l: nat, from: nat, upto: nat, i: nat)
    requires l <= level <= Levels(s)
  {
    from * Width(s, level, l) <= i < upto * Width(s, level, l)
  }

  /** The k-th subtree of a level, without the connection to memory. */
  ghost function BuiltSet(s: Spec, level: nat, k: nat): iset<Component>
    requires Sound(s) && level <= Levels(s)
  {
    iset c | Contains(s, c) && c.level <= level && Below(s, level, c.level, k, k + 1, c.index)
           && c != Xbar(Levels(s), 0)
  }

  /** The first m caches below the k-th crossbar of a level, with their subtrees. */
  ghost function GrownSet(s: Spec, level: nat, k: nat, m: nat): iset<Component>
    requires Sound(s) && 0 < level <= Levels(s)
  {
    iset c: Component | || (c.TreeCache? && c.level == level && c.index == k && c.n < m)
             || (Contains(s, c) && c.level < level &&
                 Below(s, level - 1, c.level, k * Fan(s, level), k * Fan(s, level) + m, c.index))
  }

  lemma SpanSplit(from: nat, mid: nat, upto: nat, w: nat, i: nat)
    requires from <= mid <= upto
    ensures from * w <= i < upto * w <==> (from * w <= i < mid * w) || (mid * w <= i < upto * w)
  {
    assert (mid - from) * w >= 0 && (upto - mid) * w >= 0;
  }

  lemma GrownSplit(s: Spec, level: nat, k: nat, m: nat, c: Component)
    requires Sound(s) && 0 < level <= Levels(s) && m > 0
    ensures c in GrownSet(s, level, k, m) <==>
            || c in GrownSet(s, level, k, m - 1) || c == TreeCache(level, k, m - 1)
            || c in BuiltSet(s, level - 1, k * Fan(s, level) + (m - 1))
  {
    if c != Memory && c.level < level {
      var a := k * Fan(s, level);
      hide Contains, Fan;
      SpanSplit(a, a + m - 1, a + m, Width(s, level - 1, c.level), c.index);
    }
  }

  lemma BelowChildren(s: Spec, level: nat, l: nat, k: nat, i: nat)
    requires l < level <= Levels(s)
    ensures Below(s, level, l, k, k + 1, i) <==>
            Below(s, level - 1, l, k * Fan(s, level), k * Fan(s, level) + Fan(s, level), i)
  {
    var f, w := Fan(s, level), Width(s, level - 1, l);
    assert k * (f * w) == (k * f) * w;
    assert (k + 1) * (f * w) == (k * f + f) * w;
  }

  lemma BuiltSplit(s: Spec, level: nat, k: nat, c: Component)
    requires Sound(s) && 0 < level <= Levels(s) && (level == Levels(s) ==> k == 0)
    ensures c in BuiltSet(s, level, k) <==>
            || (c == Xbar(level, k) && level < Levels(s)) || c in GrownSet(s, level, k, Fan(s, level))
            || c in CachedSet(level, k, TestersAt(s, level))
  {
    if c != Memory && c.level < level {
      BelowChildren(s, level, c.level, k, c.index);
    }
  }

  lemma TopSplit(s: Spec, k: nat, c: Component)
    requires Sound(s) && Levels(s) > 0
    ensures c in BuiltSet(s, 0, k) <==>
            (c == Xbar(0, k) && TestersAt(s, 0) > 1) || c in PlainSet(k, TestersAt(s, 0))
  {
  }

  // ----- The recursion builds the closed form.

  /** All subtrees of the level so far are complete: the counters are multiples of the first one. */
  ghost predicate Aligned(s: Spec, p: Plant, level: nat, k: nat)
    requires level <= Levels(s) && |p.next| == Levels(s) + 1
  {
    forall l | 0 <= l <= level :: p.next[l] == k * Width(s, level, l)
  }

  /** The same for the levels above the given one. */
  ghost predicate AlignedUnder(s: Spec, p: Plant, level: nat, k: nat)
    requires level <= Levels(s) && |p.next| == Levels(s) + 1
  {
    forall l | 0 <= l < level :: p.next[l] == k * Width(s, level, l)
  }

  lemma AlignedTaken(s: Spec, p: Plant, level: nat, k: nat)
    requires level <= Levels(s) && |p.next| == Levels(s) + 1 && Aligned(s, p, level, k)
    ensures p.next[level] == k && AlignedUnder(s, Taken(p, level), level, k)
  {
    assert k * Width(s, level, level) == k;
  }

  lemma AlignedSame(s: Spec, p: Plant, q: Plant, level: nat, k: nat)
    requires level <= Levels(s) && |p.next| == Levels(s) + 1 && q.next == p.next && AlignedUnder(s, p, level, k)
    ensures AlignedUnder(s, q, level, k)
  {
  }

  ghost predicate HangsAt(s: Spec, level: nat, k: nat, parent: Option<Component>)
    requires Fanned(s) && level <= Levels(s)
  {
    if level == Levels(s) then k == 0 && parent == None else parent == Some(Above(s, level, k))
  }

  lemma AlignedChild(s: Spec, p: Plant, q: Plant, level: nat, k: nat, m: nat)
    requires 0 < level <= Levels(s) && |p.next| == |q.next| == Levels(s) + 1
    requires AlignedUnder(s, p, level, k)
    requires CountsGrow(s, p, q, level - 1, m)
    ensures Aligned(s, q, level - 1, k * Fan(s, level) + m)
  {
    var f := Fan(s, level);
    forall l | 0 <= l < level ensures q.next[l] == (k * f + m) * Width(s, level - 1, l) {
      var w := Width(s, level - 1, l);
      assert k * (f * w) + m * w == (k * f + m) * w;
    }
  }

  lemma {:induction false} GrownLaid(s: Spec, p: Plant, level: nat, k: nat, m: nat)
    requires Fanned(s) && 0 < level <= Levels(s) && |p.next| == Levels(s) + 1 && m <= Fan(s, level)
    requires AlignedUnder(s, p, level, k)
    ensures var q := Grown(s, p, level, k, m);
            Laid(s, p, q, GrownSet(s, level, k, m)) && CountsGrow(s, p, q, level - 1, m)
    decreases level, 0, m
  {
    hide Laid, GrownSet, BuiltSet, CountsGrow, Width, Built, Contains, Wire;
    if m == 0 {
      CountsZero(s, p, level - 1);
      GrownNone(s, p, level, k);
    } else {
      GrownLaid(s, p, level, k, m - 1);
      var q := Grown(s, p, level, k, m - 1);
      var cache, child := TreeCache(level, k, m - 1), k * Fan(s, level) + (m - 1);
      var q1 := Link(q, cache, Xbar(level, k));
      var r := Built(s, q1, level - 1, Some(cache));
      assert r == Grown(s, p, level, k, m);
      CacheLaid(s, q, level, k, m - 1);
      CountsLinked(s, p, q, q1, level - 1, m - 1);
      AlignedChild(s, p, q1, level, k, m - 1);
      ChildHangs(s, level, k, m - 1);
      BuiltLaid(s, q1, level - 1, child, Some(cache));
      CountsAdd(s, p, q, q1, r, level - 1, m - 1);
      GrownJoin(s, p, q, q1, r, level, k, m, child);
    }
  }

  lemma GrownNone(s: Spec, p: Plant, level: nat, k: nat)
    requires Fanned(s) && 0 < level <= Levels(s)
    ensures Laid(s, p, p, GrownSet(s, level, k, 0))
  {
    hide Contains, Wire;
  }

  lemma CacheLaid(s: Spec, q: Plant, level: nat, k: nat, m: nat)
    requires Fanned(s) && 0 < level <= Levels(s) && m < Fan(s, level)
    ensures Laid(s, q, Link(q, TreeCache(level, k, m), Xbar(level, k)), iset{TreeCache(level, k, m)})
  {
    LaidLink(s, q, TreeCache(level, k, m), Xbar(level, k));
  }

  lemma CountsLinked(s: Spec, p: Plant, q: Plant, q1: Plant, level: nat, times: nat)
    requires level <= Levels(s) && |p.next| == |q.next| == Levels(s) + 1 && q1.next == q.next
    requires CountsGrow(s, p, q, level, times)
    ensures CountsGrow(s, p, q1, level, times)
  {
  }

  lemma GrownJoin(s: Spec, p: Plant, q: Plant, q1: Plant, r: Plant, level: nat, k: nat, m: nat, child: nat)
    requires Fanned(s) && 0 < level <= Levels(s) && m > 0 && child == k * Fan(s, level) + (m - 1)
    requires Laid(s, p, q, GrownSet(s, level, k, m - 1)) && Laid(s, q, q1, iset{TreeCache(level, k, m - 1)})
    requires Laid(s, q1, r, BuiltSet(s, level - 1, child))
    ensures Laid(s, p, r, GrownSet(s, level, k, m))
  {
    hide Laid, GrownSet, BuiltSet, Fan;
    var before, cache := GrownSet(s, level, k, m - 1), TreeCache(level, k, m - 1);
    var built := BuiltSet(s, level - 1, child);
    LaidTrans(s, p, q, q1, before, iset{cache}, before + iset{cache});
    forall c ensures c in GrownSet(s, level, k, m) <==> c in before + iset{cache} || c in built {
      GrownSplit(s, level, k, m, c);
    }
    LaidTrans(s, p, q1, r, before + iset{cache}, built, GrownSet(s, level, k, m));
  }

  lemma ChildHangs(s: Spec, level: nat, k: nat, m: nat)
    requires Fanned(s) && 0 < level <= Levels(s) && m < Fan(s, level)
    ensures HangsAt(s, level - 1, k * Fan(s, level) + m, Some(TreeCache(level, k, m)))
  {
    DivIs(k * Fan(s, level) + m, Fan(s, level), k, m);
  }

  lemma {:induction false} BuiltLaid(s: Spec, p: Plant, level: nat, k: nat, parent: Option<Component>)
    requires Fanned(s) && Levels(s) > 0 && level <= Levels(s) && |p.next| == Levels(s) + 1
    requires Aligned(s, p, level, k) && HangsAt(s, level, k, parent)
    ensures var q := Built(s, p, level, parent);
            Laid(s, p, q, BuiltSet(s, level, k)) && CountsGrow(s, p, q, level, 1)
    decreases level, 1, 0
  {
    hide Aligned, AlignedUnder, Width, CachedTesters, PlainTesters, Laid, BuiltSet, GrownSet, CachedSet, CountsGrow;
    hide Grown, Contains, Wire, Built, Above, FirstSet;
    AlignedTaken(s, p, level, k);
    if level > 0 {
      var p1 := Taken(p, level);
      var p2 := if parent.Some? then Link(p1, Xbar(level, k), parent.value) else p1;
      var m, n := Fan(s, level), TestersAt(s, level);
      var p3 := Grown(s, p2, level, k, m);
      var q := CachedTesters(p3, level, k, n);
      BuiltIs(s, p, level, k, parent);
      XbarLaid(s, p, level, k, parent);
      AlignedSame(s, p1, p2, level, k);
      GrownLaid(s, p2, level, k, m);
      CachedLaid(s, p3, level, k, n);
      CountsHere(s, p, p2, p3, q, level);
      BuiltJoin(s, p, p2, p3, q, level, k);
    } else {
      TopLaid(s, p, k, parent);
    }
  }

  lemma BuiltIs(s: Spec, p: Plant, level: nat, k: nat, parent: Option<Component>)
    requires Sound(s) && 0 < level <= Levels(s) && |p.next| == Levels(s) + 1 && p.next[level] == k
    ensures var p1 := Taken(p, level);
            var p2 := if parent.Some? then Link(p1, Xbar(level, k), parent.value) else p1;
            Built(s, p, level, parent) ==
            CachedTesters(Grown(s, p2, level, k, Fan(s, level)), level, k, TestersAt(s, level))
  {
    hide CachedTesters, Grown;
  }

  /** The crossbar of a subsystem, unless it is the one at memory. */
  ghost function FirstSet(s: Spec, level: nat, k: nat): iset<Component> {
    if level < Levels(s) then iset{Xbar(level, k)} else iset{}
  }

  lemma BuiltJoin(s: Spec, p: Plant, p2: Plant, p3: Plant, q: Plant, level: nat, k: nat)
    requires Fanned(s) && 0 < level <= Levels(s) && (level == Levels(s) ==> k == 0)
    requires Laid(s, p, p2, FirstSet(s, level, k)) && Laid(s, p2, p3, GrownSet(s, level, k, Fan(s, level)))
    requires Laid(s, p3, q, CachedSet(level, k, TestersAt(s, level)))
    ensures Laid(s, p, q, BuiltSet(s, level, k))
  {
    hide Laid, GrownSet, BuiltSet, CachedSet, Fan, TestersAt;
    var first, grown := FirstSet(s, level, k), GrownSet(s, level, k, Fan(s, level));
    var cached := CachedSet(level, k, TestersAt(s, level));
    LaidTrans(s, p, p2, p3, first, grown, first + grown);
    forall c ensures c in BuiltSet(s, level, k) <==> c in first + grown || c in cached {
      BuiltSplit(s, level, k, c);
    }
    LaidTrans(s, p, p3, q, first + grown, cached, BuiltSet(s, level, k));
  }

  lemma XbarLaid(s: Spec, p: Plant, level: nat, k: nat, parent: Option<Component>)
    requires Fanned(s) && 0 < level <= Levels(s) && |p.next| == Levels(s) + 1 && HangsAt(s, level, k, parent)
    ensures var p1 := Taken(p, level);
            Laid(s, p, if parent.Some? then Link(p1, Xbar(level, k), parent.value) else p1, FirstSet(s, level, k))
  {
    var p1 := Taken(p, level);
    LaidNone(s, p, p1);
    if parent.Some? {
      LaidLink(s, p1, Xbar(level, k), parent.value);
    }
  }

  lemma TopLaid(s: Spec, p: Plant, k: nat, parent: Option<Component>)
    requires Fanned(s) && Levels(s) > 0 && |p.next| == Levels(s) + 1 && p.next[0] == k && HangsAt(s, 0, k, parent)
    ensures var q := Built(s, p, 0, parent);
            Laid(s, p, q, BuiltSet(s, 0, k)) && CountsGrow(s, p, q, 0, 1)
  {
    hide PlainTesters, BuiltSet, PlainSet;
    var p1, n, x, q := Taken(p, 0), TestersAt(s, 0), Xbar(0, k), Built(s, p, 0, parent);
    TopCounts(s, p, q);
    LaidNone(s, p, p1);
    forall c {
      TopSplit(s, k, c);
    }
    if n > 1 {
      var p2 := Link(p1, x, parent.value);
      LaidLink(s, p1, x, parent.value);
      PlainLaid(s, p2, k, n, x);
      hide Laid, CountsGrow;
      LaidTrans(s, p, p1, p2, iset{}, iset{x}, iset{x});
      LaidTrans(s, p, p2, q, iset{x}, PlainSet(k, n), BuiltSet(s, 0, k));
    } else {
      PlainLaid(s, p1, k, n, parent.value);
      hide Laid, CountsGrow;
      LaidTrans(s, p, p1, q, iset{}, PlainSet(k, n), BuiltSet(s, 0, k));
    }
  }

  // ----- The whole system.

  lemma WholeSet(s: Spec, c: Component)
    requires Fanned(s) && Levels(s) > 0
    ensures Exists(s, c) <==> c in BuiltSet(s, Levels(s), 0) || c == Xbar(Levels(s), 0)
  {
    var k := Levels(s);
    if c == Xbar(k, 0) {
      assert s.caches[..0] == [];
    } else if Contains(s, c) {
      hide Contains, Prod;
      WidthIs(s, k, c.level);
      assert s.caches[0..k - c.level] == s.caches[..k - c.level];
    }
  }

  /** The links of the finished system are exactly those of the closed form. */
  lemma FinishedLinks(s: Spec)
    requires Fanned(s) && Levels(s) > 0
    ensures forall c :: c in Finished(s).links <==> Exists(s, c)
    ensures forall c | c in Finished(s).links :: Contains(s, c) && Finished(s).links[c] == Wire(s, c)
  {
    var k, root, p := Levels(s), Xbar(Levels(s), 0), Empty(s);
    var q := Built(s, p, k, None);
    hide Built, BuiltSet, Exists;
    assert Aligned(s, p, k, 0);
    BuiltLaid(s, p, k, 0, None);
    LaidLink(s, q, root, Memory);
    forall c {
      WholeSet(s, c);
    }
  }

  /** What is connected to a cache: the tester, or the subsystem that hangs below it. */
  function User(s: Spec, c: Component): Component
    requires Fanned(s) && Contains(s, c) && (c.TreeCache? || c.TesterCache?)
  {
    if c.TesterCache? then Tester(c.level, c.index, c.n)
    else
      var k := c.index * Fan(s, c.level) + c.n;
      if c.level > 1 || TestersAt(s, 0) > 1 then Xbar(c.level - 1, k) else Tester(0, k, 0)
  }

  lemma SubsystemsStep(s: Spec, level: nat)
    requires 0 < level <= Levels(s)
    ensures Subsystems(s, level - 1) == Subsystems(s, level) * Fan(s, level)
  {
    var d := Levels(s) - level;
    assert s.caches[..d + 1][..d] == s.caches[..d];
  }

  lemma ChildBound(i: nat, n: nat, f: nat, m: nat)
    requires i < m && n < f
    ensures i * f + n < m * f
  {
    assert (i + 1) * f <= m * f;
  }

  lemma ChildExists(s: Spec, level: nat, i: nat, n: nat)
    requires 0 < level <= Levels(s) && i < Subsystems(s, level) && n < Fan(s, level)
    ensures i * Fan(s, level) + n < Subsystems(s, level - 1)
  {
    hide Subsystems, Fan;
    SubsystemsStep(s, level);
    ChildBound(i, n, Fan(s, level), Subsystems(s, level));
  }

  lemma UserExists(s: Spec, c: Component)
    requires Fanned(s) && Exists(s, c) && (c.TreeCache? || c.TesterCache?)
    ensures Exists(s, User(s, c)) && Wire(s, User(s, c)) == c
  {
    if c.TreeCache? {
      ChildExists(s, c.level, c.index, c.n);
      hide Subsystems;
      var f := Fan(s, c.level);
      DivIs(c.index * f + c.n, f, c.index, c.n);
    }
  }

  /** Every cache has exactly one component connected to it. */
  lemma OneUser(s: Spec, c: Component, b: Component)
    requires Fanned(s) && Exists(s, c) && (c.TreeCache? || c.TesterCache?)
    requires Exists(s, b) && Wire(s, b) == c
    ensures b == User(s, c)
  {
    hide Subsystems;
    if c.TreeCache? {
      var f := Fan(s, c.level);
      assert b.index == b.index / f * f + b.index % f;
    }
  }

  /** Which components exist, what each is connected to, and that every cache is connected to once. */
  ghost predicate IsTree(s: Spec, links: Links)
    requires Fanned(s)
  {
    && (forall c :: c in links <==> Exists(s, c))
    && (forall c | c in links :: Contains(s, c) && links[c] == Wire(s, c))
    && (forall c | c in links && (c.TreeCache? || c.TesterCache?) :: UsedOnce(links, c))
    && (forall c | c in links :: Reaches(links, c, Levels(s)))
  }

  /** Exactly one link leads to the component. */
  ghost predicate UsedOnce(links: Links, c: Component) {
    exists b | b in links :: links[b] == c && forall d | d in links && links[d] == c :: d == b
  }

  lemma FinishedIsTree(s: Spec)
    requires Fanned(s) && Levels(s) > 0
    ensures IsTree(s, Finished(s).links)
  {
    var links := Finished(s).links;
    FinishedLinks(s);
    FinishedTree(s);
    hide Finished, Exists, Wire, Reaches, Contains;
    forall c | c in links && (c.TreeCache? || c.TesterCache?) ensures UsedOnce(links, c) {
      UserExists(s, c);
      forall d | d in links && links[d] == c ensures d == User(s, c) {
        OneUser(s, c, d);
      }
    }
  }

  // ----- The script.

  ghost function SpecOf(caches: seq<int>, testers: seq<int>): Spec
    requires ValidSpec(caches, testers)
  {
    Spec(Nats(caches), Nats(testers))
  }

  /** Prototypes, recursion and the connection to memory. */
  method Construct(l1: Prototype, spec: Spec) returns (plant: Plant, kinds: map<Component, Prototype>)
    requires Sound(spec) && Levels(spec) > 0
    ensures plant == Finished(spec)
    ensures forall x :: x in kinds <==> x in plant.links && x.TreeCache?
    ensures forall x | x in kinds :: 0 < x.level <= Levels(spec) && kinds[x] == Scaled(l1, spec.caches, x.level - 1)
  {
    hide Built, Scaled;
    var protos := ScalePrototypes(l1, spec.caches);
    var system := new System(spec, protos);
    system.MakeCacheLevel(spec.caches, protos, Levels(spec), None);
    system.Connect(Xbar(Levels(spec), 0), Memory);
    plant, kinds := Plant(system.next, system.links, system.testers), system.kinds;
    forall x | x in kinds ensures 0 < x.level <= Levels(spec) && kinds[x] == Scaled(l1, spec.caches, x.level - 1) {
      var j := x.level - 1;
      assert protos[|spec.caches| - 1 - j] == Scaled(l1, spec.caches, j);
    }
  }

  /**
   * The script up to instantiation. It goes ahead exactly on the valid specifications of at most
   * one tester per byte of a block; then the system is the tree of the closed form, its testers
   * are distinct and as many as asked for, and its caches are made from the prototypes of their level.
   */
  method BuildSystem(l1: Prototype, caches: seq<int>, testers: seq<int>)
    returns (r: Result<(Plant, map<Component, Prototype>), SpecError>)
    ensures r.Ok? <==> ValidSpec(caches, testers) && Total(caches, testers) <= 64
    ensures r.Ok? ==>
              var (plant, _) := r.value;
              && IsTree(SpecOf(caches, testers), plant.links)
              && |plant.testers| == Total(caches, testers) && Distinct(plant.testers)
              && (forall x :: x in plant.testers <==> x in plant.links && x.Tester?)
    ensures r.Ok? ==>
              var (plant, kinds) := r.value;
              && (forall x :: x in kinds <==> x in plant.links && x.TreeCache?)
              && (forall x | x in kinds :: 0 < x.level <= |caches| && kinds[x] == Scaled(l1, Nats(caches), x.level - 1))
    ensures r.Err? ==> Blames(r.error, caches, testers)
  {
    hide Finished, Sum, Subtree, Reaches, Scaled, Blames, Prod, Distinct, IsTree;
    var checked := CheckSpec(caches, testers);
    if checked.Err? {
      return Err(checked.error);
    }
    var spec := checked.value;
    assert spec == SpecOf(caches, testers);
    SumIsTree(spec.caches, spec.testers);
    FinishedTree(spec);
    FinishedIsTree(spec);
    var plant, kinds := Construct(l1, spec);
    r := Ok((plant, kinds));
  }
}
