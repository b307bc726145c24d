/**
 * The tree of caches, crossbars and testers that configs/example/memtest.py builds from its two
 * colon-separated lists: caches[d] is the fan-out at depth d below memory, testers[d] the number
 * of testers in each subsystem at that depth.
 */
module MemTest {
  import opened Wrappers
  import opened Sorting

  const BLOCK_SIZE: nat := 64

  // ----- How many testers a specification asks for.

  function Prod(s: seq<nat>): nat {
    if s == [] then 1 else Prod(s[..|s| - 1]) * s[|s| - 1]
  }

  /** The testers of the first n depths: the count per subsystem times the number of subsystems. */
  function Sum(caches: seq<nat>, testers: seq<nat>, n: nat): nat
    requires n <= |testers| && n <= |caches| + 1
  {
    if n == 0 then 0 else Sum(caches, testers, n - 1) + testers[n - 1] * Prod(caches[..n - 1])
  }

  /** numtesters: the multiplier list is built first, then zipped with the tester counts. */
  method NumTesters(caches: seq<nat>, testers: seq<nat>) returns (total: nat)
    ensures total == Sum(caches, testers, if |testers| <= |caches| then |testers| else |caches| + 1)
  {
    var multiplier: seq<nat> := [1];
    for i := 0 to |caches|
      invariant |multiplier| == i + 1 && forall j | 0 <= j <= i :: multiplier[j] == Prod(caches[..j])
    {
      assert caches[..i + 1][..i] == caches[..i];
      multiplier := multiplier + [multiplier[|multiplier| - 1] * caches[i]];
    }
    total := 0;
    var n := if |testers| <= |multiplier| then |testers| else |multiplier|;
    for i := 0 to n
      invariant total == Sum(caches, testers, i)
    {
      total := total + testers[i] * multiplier[i];
    }
  }

  /** The testers in one subtree whose root is at depth d. */
  function Subtree(caches: seq<nat>, testers: seq<nat>, d: nat): nat
    requires |testers| == |caches| + 1 && d <= |caches|
    decreases |caches| - d
  {
    testers[d] + if d == |caches| then 0 else caches[d] * Subtree(caches, testers, d + 1)
  }

  lemma {:induction false} SumIsSubtree(caches: seq<nat>, testers: seq<nat>, n: nat)
    requires |testers| == |caches| + 1 && n <= |caches|
    ensures Sum(caches, testers, n) + Prod(caches[..n]) * Subtree(caches, testers, n) == Subtree(caches, testers, 0)
  {
    if n == 0 {
      assert caches[..0] == [];
    } else {
      SumIsSubtree(caches, testers, n - 1);
      var p, t, c, s := Prod(caches[..n - 1]), testers[n - 1], caches[n - 1], Subtree(caches, testers, n);
      assert caches[..n][..n - 1] == caches[..n - 1];
      assert Prod(caches[..n]) == p * c;
      assert p * (t + c * s) == t * p + p * c * s;
    }
  }

  /** The closed form agrees with the recursion that builds the tree. */
  lemma SumIsTree(caches: seq<nat>, testers: seq<nat>)
    requires |testers| == |caches| + 1
    ensures Sum(caches, testers, |testers|) == Subtree(caches, testers, 0)
  {
    hide Prod;
    var k := |caches|;
    SumIsSubtree(caches, testers, k);
    Commute(Prod(caches[..k]), testers[k]);
  }

  lemma Commute(a: nat, b: nat)
    ensures a * b == b * a
  {
  }

  // ----- The checks on the command line.

  datatype SpecError = NoCaches | LengthMismatch | NoTopTesters | NegativeTesters | EmptyLevel | TooManyTesters

  ghost predicate ValidSpec(caches: seq<int>, testers: seq<int>) {
    && |caches| >= 1 && |testers| == |caches| + 1 && testers[|caches|] != 0
    && (forall i | 0 <= i < |testers| :: testers[i] >= 0)
    && (forall i | 0 <= i < |caches| :: caches[i] >= 1)
  }

  ghost function Nats(s: seq<int>): seq<nat>
    requires forall i | 0 <= i < |s| :: s[i] >= 0
  {
    s
  }

  ghost function Total(caches: seq<int>, testers: seq<int>): nat
    requires ValidSpec(caches, testers)
  {
    Subtree(Nats(caches), Nats(testers), 0)
  }

  // ----- The components.

  /** Components are named by the level and index of their subsystem and a number within it. */
  datatype Component =
    | Memory
    | Xbar(level: nat, index: nat)
    | TreeCache(level: nat, index: nat, n: nat)
    | TesterCache(level: nat, index: nat, n: nat)
    | Tester(level: nat, index: nat, n: nat)

  /** Links towards memory lead to a higher rank. */
  function Rank(c: Component, levels: nat): nat {
    match c
    case Memory => 3 * levels + 3
    case Xbar(l, _) => 3 * l + 2
    case TreeCache(l, _, _) => 3 * l + 1
    case TesterCache(l, _, _) => 3 * l + 1
    case Tester(l, _, _) => 3 * l
  }

  type Links = map<Component, Component>

  /** Following the links from c arrives at memory. */
  ghost predicate Reaches(links: Links, c: Component, levels: nat)
    decreases 3 * levels + 3 - Rank(c, levels)
  {
    c == Memory ||
    (c in links && Rank(c, levels) < Rank(links[c], levels) <= 3 * levels + 3 && Reaches(links, links[c], levels))
  }

  /** Every link leads up in rank to another linked component or to the root. */
  ghost predicate Rising(links: Links, root: Component, levels: nat) {
    forall c | c in links ::
      && Rank(c, levels) < Rank(links[c], levels) <= Rank(root, levels)
      && (links[c] in links || links[c] == root)
  }

  lemma {:induction false} RisingReaches(links: Links, c: Component, levels: nat)
    requires Rising(links, Memory, levels) && (c in links || c == Memory)
    ensures Reaches(links, c, levels)
    decreases 3 * levels + 3 - Rank(c, levels)
  {
    if c != Memory {
      RisingReaches(links, links[c], levels);
    }
  }

  // ----- Building the tree.

  /** A valid specification; levels count down from |caches| at memory to 0 at the top. */
  datatype Spec = Spec(caches: seq<nat>, testers: seq<nat>)

  ghost predicate Sound(s: Spec) {
    |s.testers| == |s.caches| + 1 && s.testers[|s.caches|] > 0
  }

  function Levels(s: Spec): nat {
    |s.caches|
  }

  /** The next free subsystem index of each level, the links so far, and the testers created. */
  datatype Plant = Plant(next: seq<nat>, links: Links, testers: seq<Component>)

  function Link(p: Plant, from: Component, to: Component): Plant {
    p.(links := p.links[from := to])
  }

  function AddTester(p: Plant, t: Component, to: Component): Plant {
    Link(p, t, to).(testers := p.testers + [t])
  }

  /** n testers, each behind its own cache on the subsystem's crossbar. */
  function CachedTesters(p: Plant, level: nat, index: nat, n: nat): (q: Plant)
    ensures q.next == p.next
  {
    if n == 0 then p
    else
      var q := CachedTesters(p, level, index, n - 1);
      var t, c := Tester(level, index, n - 1), TesterCache(level, index, n - 1);
      AddTester(Link(q, c, Xbar(level, index)), t, c)
  }

  /** n testers attached directly to one component. */
  function PlainTesters(p: Plant, index: nat, n: nat, to: Component): (q: Plant)
    ensures q.next == p.next
  {
    if n == 0 then p
    else
      var q := PlainTesters(p, index, n - 1, to);
      var t := Tester(0, index, n - 1);
      AddTester(q, t, to)
  }

  /** make_cache_level; parent is the cache this subtree hangs below, absent at memory. */
  function Built(s: Spec, p: Plant, level: nat, parent: Option<Component>): (q: Plant)
    requires Sound(s) && level <= Levels(s) && |p.next| == Levels(s) + 1
    ensures |q.next| == |p.next|
    decreases level, 1, 0
  {
    var index := p.next[level];
    var n := s.testers[Levels(s) - level];
    var p1 := p.(next := p.next[level := index + 1]);
    if level > 0 then
      var p2 := if parent.Some? then Link(p1, Xbar(level, index), parent.value) else p1;
      var p3 := Grown(s, p2, level, index, s.caches[Levels(s) - level]);
      CachedTesters(p3, level, index, n)
    else if parent == None then p1
    else if n > 1 then PlainTesters(Link(p1, Xbar(0, index), parent.value), index, n, Xbar(0, index))
    else PlainTesters(p1, index, n, parent.value)
  }

  /** The first m subtrees below a crossbar. */
  function Grown(s: Spec, p: Plant, level: nat, index: nat, m: nat): (q: Plant)
    requires Sound(s) && 0 < level <= Levels(s) && |p.next| == Levels(s) + 1
    ensures |q.next| == |p.next|
    decreases level, 0, m
  {
    if m == 0 then p
    else
      var q := Grown(s, p, level, index, m - 1);
      var cache := TreeCache(level, index, m - 1);
      Built(s, Link(q, cache, Xbar(level, index)), level - 1, Some(cache))
  }

  // ----- What the construction keeps.

  ghost predicate Named(p: Plant, c: Component) {
    c != Memory && c.level < |p.next| && c.index < p.next[c.level]
  }

  /** Names in use lie below the counters, links rise towards the root, testers are listed once. */
  ghost predicate Good(s: Spec, p: Plant) {
    && |p.next| == Levels(s) + 1
    && (forall c | c in p.links :: Named(p, c))
    && Rising(p.links, Xbar(Levels(s), 0), Levels(s))
    && Distinct(p.testers)
    && (forall c :: c in p.testers <==> c in p.links && c.Tester?)
  }

  /** Links are only added, and only in levels up to the given one. */
  ghost predicate Extends(p: Plant, q: Plant, level: nat) {
    && (forall c | c in p.links :: c in q.links && q.links[c] == p.links[c])
    && (forall c | c in q.links && c !in p.links :: c != Memory && c.level <= level)
  }

  lemma ExtendsSelf(p: Plant, level: nat)
    ensures Extends(p, p, level)
  {
  }

  lemma ExtendsTrans(p: Plant, q: Plant, r: Plant, level: nat)
    requires Extends(p, q, level) && Extends(q, r, level)
    ensures Extends(p, r, level)
  {
  }

  /** A link from an unused name of an opened subsystem to a linked component keeps the plant good. */
  lemma LinkGood(s: Spec, p: Plant, from: Component, to: Component)
    requires Good(s, p) && from !in p.links && Named(p, from) && !from.Tester? && from != Xbar(Levels(s), 0)
    requires to in p.links || to == Xbar(Levels(s), 0)
    requires Rank(from, Levels(s)) < Rank(to, Levels(s)) <= 3 * Levels(s) + 2
    ensures Good(s, Link(p, from, to)) && Extends(p, Link(p, from, to), from.level)
  {
  }

  lemma TesterGood(s: Spec, p: Plant, t: Component, to: Component)
    requires Good(s, p) && t !in p.links && Named(p, t) && t.Tester?
    requires to in p.links || to == Xbar(Levels(s), 0)
    requires Rank(t, Levels(s)) < Rank(to, Levels(s)) <= 3 * Levels(s) + 2
    ensures Good(s, AddTester(p, t, to)) && Extends(p, AddTester(p, t, to), t.level)
  {
    assert t !in p.testers;
  }

  /** The subsystem is open: its index is taken, and links may lead to its crossbar. */
  ghost predicate Open(s: Spec, p: Plant, level: nat, index: nat) {
    && level <= Levels(s) && |p.next| == Levels(s) + 1 && index < p.next[level]
    && (Xbar(level, index) in p.links || Xbar(level, index) == Xbar(Levels(s), 0))
  }

  /** No tester or tester cache numbered n or higher exists in the subsystem. */
  ghost predicate TestersFrom(p: Plant, level: nat, index: nat, n: nat) {
    forall i: nat | i >= n :: Tester(level, index, i) !in p.links && TesterCache(level, index, i) !in p.links
  }

  lemma CachedStep(s: Spec, q: Plant, level: nat, index: nat, n: nat)
    requires Good(s, q) && Open(s, q, level, index) && TestersFrom(q, level, index, n)
    ensures var c := TesterCache(level, index, n);
            var r := AddTester(Link(q, c, Xbar(level, index)), Tester(level, index, n), c);
            && Good(s, r) && Extends(q, r, level) && Open(s, r, level, index) && TestersFrom(r, level, index, n + 1)
  {
    var t, c, x := Tester(level, index, n), TesterCache(level, index, n), Xbar(level, index);
    var mid := Link(q, c, x);
    hide Good, Extends;
    assert Rank(c, Levels(s)) < Rank(x, Levels(s)) <= 3 * Levels(s) + 2;
    LinkGood(s, q, c, x);
    TesterGood(s, mid, t, c);
    ExtendsTrans(q, mid, AddTester(mid, t, c), level);
  }

  lemma {:induction false} CachedGood(s: Spec, p: Plant, level: nat, index: nat, n: nat)
    requires Good(s, p) && Open(s, p, level, index) && TestersFrom(p, level, index, 0)
    ensures var q := CachedTesters(p, level, index, n);
            && Good(s, q) && Extends(p, q, level) && |q.testers| == |p.testers| + n
            && Open(s, q, level, index) && TestersFrom(q, level, index, n)
  {
    hide Good, Open, TestersFrom, Extends;
    ExtendsSelf(p, level);
    if n > 0 {
      CachedGood(s, p, level, index, n - 1);
      var q := CachedTesters(p, level, index, n - 1);
      CachedStep(s, q, level, index, n - 1);
      ExtendsTrans(p, q, CachedTesters(p, level, index, n), level);
    }
  }

  lemma PlainStep(s: Spec, q: Plant, index: nat, n: nat, to: Component)
    requires Good(s, q) && |q.next| > 0 && index < q.next[0]
    requires to in q.links && 0 < Rank(to, Levels(s)) <= 3 * Levels(s) + 2
    requires TestersFrom(q, 0, index, n)
    ensures var r := AddTester(q, Tester(0, index, n), to);
            Good(s, r) && Extends(q, r, 0) && to in r.links && TestersFrom(r, 0, index, n + 1)
  {
    TesterGood(s, q, Tester(0, index, n), to);
  }

  lemma {:induction false} PlainGood(s: Spec, p: Plant, index: nat, n: nat, to: Component)
    requires Good(s, p) && |p.next| > 0 && index < p.next[0]
    requires to in p.links && 0 < Rank(to, Levels(s)) <= 3 * Levels(s) + 2
    requires TestersFrom(p, 0, index, 0)
    ensures var q := PlainTesters(p, index, n, to);
            && Good(s, q) && Extends(p, q, 0) && |q.testers| == |p.testers| + n
            && to in q.links && TestersFrom(q, 0, index, n)
  {
    hide Good, TestersFrom, Extends, Rank;
    ExtendsSelf(p, 0);
    if n > 0 {
      PlainGood(s, p, index, n - 1, to);
      var q := PlainTesters(p, index, n - 1, to);
      PlainStep(s, q, index, n - 1, to);
      ExtendsTrans(p, q, PlainTesters(p, index, n, to), 0);
    }
  }

  /** How many subsystems of level l a subtree rooted at the given level contains. */
  function Width(s: Spec, level: nat, l: nat): nat
    requires l <= level <= Levels(s)
  {
    if l == level then 1 else s.caches[Levels(s) - level] * Width(s, level - 1, l)
  }

  function TestersBelow(s: Spec, level: nat): nat
    requires Sound(s) && level <= Levels(s)
  {
    Subtree(s.caches, s.testers, Levels(s) - level)
  }

  ghost predicate CountsGrow(s: Spec, p: Plant, q: Plant, level: nat, times: nat)
    requires level <= Levels(s) && |p.next| == |q.next| == Levels(s) + 1
  {
    forall l | 0 <= l <= Levels(s) :: q.next[l] == p.next[l] + if l <= level then times * Width(s, level, l) else 0
  }

  ghost predicate TreesFrom(p: Plant, level: nat, index: nat, n: nat) {
    forall i: nat | i >= n :: TreeCache(level, index, i) !in p.links
  }

  /** The plant after taking the next index of a level. */
  function Taken(p: Plant, level: nat): Plant
    requires level < |p.next|
  {
    p.(next := p.next[level := p.next[level] + 1])
  }

  lemma TakenFresh(s: Spec, p: Plant, level: nat)
    requires Good(s, p) && level <= Levels(s)
    ensures var q, index := Taken(p, level), p.next[level];
            && Good(s, q) && Extends(p, q, level) && Xbar(level, index) !in q.links
            && TestersFrom(q, level, index, 0) && TreesFrom(q, level, index, 0)
  {
    forall c | c in p.links ensures Named(Taken(p, level), c) && (c.level == level ==> c.index != p.next[level]) {
      assert Named(p, c);
    }
  }

  /** Where a subtree may hang: below a linked cache of the next level, or at memory as the very first. */
  ghost predicate Hangs(s: Spec, p: Plant, level: nat, parent: Option<Component>) {
    match parent
    case None => level == Levels(s) && |p.next| == Levels(s) + 1 && p.next[level] == 0
    case Some(c) => c in p.links && c.TreeCache? && c.level == level + 1 <= Levels(s)
  }

  /** Linking the crossbar opens the new subsystem. */
  lemma XbarOpen(s: Spec, p: Plant, level: nat, parent: Option<Component>)
    requires Good(s, p) && level <= Levels(s) && Hangs(s, p, level, parent)
    ensures var index := p.next[level];
            var p1 := Taken(p, level);
            var q := if parent.Some? then Link(p1, Xbar(level, index), parent.value) else p1;
            && Good(s, q) && Extends(p, q, level) && Open(s, q, level, index)
            && TestersFrom(q, level, index, 0) && TreesFrom(q, level, index, 0)
  {
    TakenFresh(s, p, level);
    if parent.Some? {
      LinkGood(s, Taken(p, level), Xbar(level, p.next[level]), parent.value);
    }
  }

  lemma TreeStep(s: Spec, q: Plant, level: nat, index: nat, m: nat)
    requires Good(s, q) && Open(s, q, level, index) && level > 0
    requires TestersFrom(q, level, index, 0) && TreesFrom(q, level, index, m)
    ensures var c := TreeCache(level, index, m);
            var r := Link(q, c, Xbar(level, index));
            && Good(s, r) && Extends(q, r, level) && Hangs(s, r, level - 1, Some(c)) && Open(s, r, level, index)
            && TestersFrom(r, level, index, 0) && TreesFrom(r, level, index, m + 1)
  {
    var c, x := TreeCache(level, index, m), Xbar(level, index);
    hide Good, Extends;
    assert Rank(c, Levels(s)) < Rank(x, Levels(s)) <= 3 * Levels(s) + 2;
    LinkGood(s, q, c, x);
  }

  /** What is added in lower levels does not touch the subsystem. */
  lemma LowerKeeps(s: Spec, q: Plant, r: Plant, level: nat, index: nat, m: nat)
    requires level > 0 && Open(s, q, level, index) && Extends(q, r, level - 1)
    requires |q.next| == |r.next| && r.next[level] == q.next[level]
    requires TestersFrom(q, level, index, 0) && TreesFrom(q, level, index, m)
    ensures Extends(q, r, level) && Open(s, r, level, index)
    ensures TestersFrom(r, level, index, 0) && TreesFrom(r, level, index, m)
  {
  }

  lemma {:induction false} GrownGood(s: Spec, p: Plant, level: nat, index: nat, m: nat)
    requires Sound(s) && Good(s, p) && 0 < level <= Levels(s) && Open(s, p, level, index)
    requires TestersFrom(p, level, index, 0) && TreesFrom(p, level, index, 0)
    ensures |p.next| == Levels(s) + 1
    ensures var q := Grown(s, p, level, index, m);
            && Good(s, q) && Extends(p, q, level) && Open(s, q, level, index)
            && TestersFrom(q, level, index, 0) && TreesFrom(q, level, index, m)
            && |q.testers| == |p.testers| + m * TestersBelow(s, level - 1)
            && CountsGrow(s, p, q, level - 1, m)
    decreases level, 0, m
  {
    hide Open, TestersFrom, TreesFrom, Extends, TestersBelow, Built, CountsGrow, Rising, Named;
    ExtendsSelf(p, level);
    if m == 0 {
      CountsZero(s, p, level - 1);
    } else {
      GrownGood(s, p, level, index, m - 1);
      var q := Grown(s, p, level, index, m - 1);
      TreeStep(s, q, level, index, m - 1);
      var cache := TreeCache(level, index, m - 1);
      var q1 := Link(q, cache, Xbar(level, index));
      hide Good;
      BuiltGood(s, q1, level - 1, Some(cache));
      var r := Built(s, q1, level - 1, Some(cache));
      CountsAdd(s, p, q, q1, r, level - 1, m - 1);
      LowerKeeps(s, q1, r, level, index, m);
      ExtendsTrans(p, q, q1, level);
      ExtendsTrans(p, q1, r, level);
      Distribute(m, TestersBelow(s, level - 1));
    }
  }

  lemma Distribute(m: nat, t: nat)
    requires m > 0
    ensures m * t == (m - 1) * t + t
  {
  }

  lemma CountsZero(s: Spec, p: Plant, level: nat)
    requires level <= Levels(s) && |p.next| == Levels(s) + 1
    ensures CountsGrow(s, p, p, level, 0)
  {
  }

  lemma CountsAdd(s: Spec, p: Plant, q: Plant, q1: Plant, r: Plant, level: nat, times: nat)
    requires level < Levels(s) && |p.next| == |q.next| == |r.next| == Levels(s) + 1 && q1.next == q.next
    requires CountsGrow(s, p, q, level, times) && CountsGrow(s, q1, r, level, 1)
    ensures CountsGrow(s, p, r, level, times + 1) && r.next[level + 1] == q1.next[level + 1]
  {
  }

  lemma GoodShape(s: Spec, p: Plant)
    requires Good(s, p)
    ensures |p.next| == Levels(s) + 1
  {
  }

  lemma TestersBelowStep(s: Spec, level: nat)
    requires Sound(s) && 0 < level <= Levels(s)
    ensures TestersBelow(s, level) ==
            s.testers[Levels(s) - level] + s.caches[Levels(s) - level] * TestersBelow(s, level - 1)
  {
  }

  lemma CountsHere(s: Spec, p: Plant, p2: Plant, p3: Plant, q: Plant, level: nat)
    requires 0 < level <= Levels(s) && |p.next| == |p3.next| == Levels(s) + 1 && p2.next == Taken(p, level).next
    requires CountsGrow(s, p2, p3, level - 1, s.caches[Levels(s) - level]) && q.next == p3.next
    ensures CountsGrow(s, p, q, level, 1)
  {
  }

  /** A subtree adds exactly its share of testers and subsystems and leaves everything else alone. */
  lemma {:induction false} BuiltGood(s: Spec, p: Plant, level: nat, parent: Option<Component>)
    requires Sound(s) && Levels(s) > 0 && Good(s, p) && level <= Levels(s) && Hangs(s, p, level, parent)
    ensures |p.next| == Levels(s) + 1
    ensures var q := Built(s, p, level, parent);
            && Good(s, q) && Extends(p, q, level)
            && |q.testers| == |p.testers| + TestersBelow(s, level)
            && CountsGrow(s, p, q, level, 1)
    decreases level, 1, 0
  {
    hide Good, Hangs, Open, TestersFrom, TreesFrom, Extends, CountsGrow, TestersBelow, Grown,
         CachedTesters, PlainTesters;
    GoodShape(s, p);
    if level > 0 {
      var index, p1 := p.next[level], Taken(p, level);
      var p2 := if parent.Some? then Link(p1, Xbar(level, index), parent.value) else p1;
      var m := s.caches[Levels(s) - level];
      XbarOpen(s, p, level, parent);
      GrownGood(s, p2, level, index, m);
      var p3 := Grown(s, p2, level, index, m);
      CachedGood(s, p3, level, index, s.testers[Levels(s) - level]);
      var q := CachedTesters(p3, level, index, s.testers[Levels(s) - level]);
      assert q == Built(s, p, level, parent);
      ExtendsTrans(p, p2, p3, level);
      ExtendsTrans(p, p3, q, level);
      CountsHere(s, p, p2, p3, q, level);
      TestersBelowStep(s, level);
    } else {
      TopGood(s, p, parent);
    }
  }

  lemma TopShape(s: Spec, p: Plant, parent: Option<Component>)
    requires Sound(s) && Levels(s) > 0 && |p.next| == Levels(s) + 1 && Hangs(s, p, 0, parent)
    ensures parent.Some? && parent.value in p.links && 0 < Rank(parent.value, Levels(s)) <= 3 * Levels(s) + 2
    ensures TestersBelow(s, 0) == s.testers[Levels(s)]
  {
  }

  lemma TopCounts(s: Spec, p: Plant, q: Plant)
    requires |p.next| == Levels(s) + 1 && q.next == Taken(p, 0).next
    ensures CountsGrow(s, p, q, 0, 1)
  {
  }

  lemma OpenTop(s: Spec, p: Plant, index: nat)
    requires Levels(s) > 0 && Open(s, p, 0, index)
    ensures |p.next| > 0 && index < p.next[0] && Xbar(0, index) in p.links
  {
  }

  lemma TopGood(s: Spec, p: Plant, parent: Option<Component>)
    requires Sound(s) && Levels(s) > 0 && Good(s, p) && Hangs(s, p, 0, parent)
    ensures |p.next| == Levels(s) + 1
    ensures var q := Built(s, p, 0, parent);
            && Good(s, q) && Extends(p, q, 0)
            && |q.testers| == |p.testers| + TestersBelow(s, 0)
            && CountsGrow(s, p, q, 0, 1)
  {
    hide Good, Hangs, Open, TestersFrom, TreesFrom, Extends, CountsGrow, TestersBelow, Grown,
         CachedTesters, PlainTesters;
    GoodShape(s, p);
    TopShape(s, p, parent);
    var index, n, p1 := p.next[0], s.testers[Levels(s)], Taken(p, 0);
    TopCounts(s, p, Built(s, p, 0, parent));
    if n > 1 {
      XbarOpen(s, p, 0, parent);
      var p2 := Link(p1, Xbar(0, index), parent.value);
      OpenTop(s, p2, index);
      PlainGood(s, p2, index, n, Xbar(0, index));
      ExtendsTrans(p, p2, PlainTesters(p2, index, n, Xbar(0, index)), 0);
    } else {
      TakenFresh(s, p, 0);
      PlainGood(s, p1, index, n, parent.value);
      ExtendsTrans(p, p1, PlainTesters(p1, index, n, parent.value), 0);
    }
  }

  // ----- The whole system.

  function Empty(s: Spec): Plant {
    Plant(seq(Levels(s) + 1, _ => 0), map[], [])
  }

  lemma EmptyGood(s: Spec)
    ensures Good(s, Empty(s)) && Hangs(s, Empty(s), Levels(s), None)
  {
  }

  /** The finished tree, with the lowest crossbar connected to memory. */
  function Finished(s: Spec): Plant
    requires Sound(s)
  {
    Link(Built(s, Empty(s), Levels(s), None), Xbar(Levels(s), 0), Memory)
  }

  /**
   * The finished system has as many testers as the closed form says, all different; level l has
   * as many subsystems as the product of the fan-outs below it; and every linked component
   * reaches memory.
   */
  lemma FinishedTree(s: Spec)
    requires Sound(s) && Levels(s) > 0
    ensures var p := Finished(s);
            && |p.testers| == Sum(s.caches, s.testers, |s.testers|) && Distinct(p.testers)
            && (forall c :: c in p.testers <==> c in p.links && c.Tester?)
            && (forall c | c in p.links :: Reaches(p.links, c, Levels(s)))
            && |p.next| == Levels(s) + 1
            && (forall l | 0 <= l <= Levels(s) :: p.next[l] == Prod(s.caches[..Levels(s) - l]))
            && (forall c | c in p.links :: c != Memory && c.level <= Levels(s) && c.index < p.next[c.level])
  {
    var k := Levels(s);
    var q := Built(s, Empty(s), k, None);
    hide Built, Grown, Sum, Subtree, Width, Reaches, Prod;
    EmptyGood(s);
    BuiltGood(s, Empty(s), k, None);
    SumIsTree(s.caches, s.testers);
    assert Width(s, k, k) == 1 by { WidthIs(s, k, k); assert s.caches[0..0] == []; ProdNone(); }
    RootGood(s, q);
    forall c | c in Finished(s).links ensures Reaches(Finished(s).links, c, k) {
      RisingReaches(Finished(s).links, c, k);
    }
    forall l | 0 <= l <= k ensures Finished(s).next[l] == Prod(s.caches[..k - l]) {
      WidthIs(s, k, l);
      assert s.caches[0..k - l] == s.caches[..k - l];
    }
  }

  lemma ProdNone()
    ensures Prod([]) == 1
  {
  }

  lemma RootGood(s: Spec, q: Plant)
    requires Good(s, q) && q.next[Levels(s)] == 1
    ensures var p := Link(q, Xbar(Levels(s), 0), Memory);
            && Rising(p.links, Memory, Levels(s))
            && (forall c | c in p.links :: Named(p, c))
            && (forall c :: c in p.testers <==> c in p.links && c.Tester?)
  {
  }

  lemma {:induction false} ProdFirst(s: seq<nat>)
    requires s != []
    ensures Prod(s) == s[0] * Prod(s[1..])
  {
    if |s| == 1 {
      assert s[..0] == [] && s[1..] == [];
    } else {
      ProdFirst(s[..|s| - 1]);
      assert s[..|s| - 1][1..] == s[1..][..|s| - 2];
      var a, b, c := s[0], Prod(s[1..][..|s| - 2]), s[|s| - 1];
      assert a * b * c == a * (b * c);
    }
  }

  lemma {:induction false} WidthIs(s: Spec, level: nat, l: nat)
    requires l <= level <= Levels(s)
    ensures Width(s, level, l) == Prod(s.caches[Levels(s) - level..Levels(s) - l])
  {
    var k := Levels(s);
    if l == level {
      assert s.caches[k - level..k - l] == [];
    } else {
      hide Prod;
      WidthIs(s, level - 1, l);
      var here := s.caches[k - level..k - l];
      ProdFirst(here);
      assert here[0] == s.caches[k - level] && here[1..] == s.caches[k - (level - 1)..k - l];
    }
  }

  // ----- The cache prototypes.

  datatype Prototype = Prototype(size: nat, assoc: nat, mshrs: nat, latency: nat, inclusive: bool, writebackClean: bool)

  function Power10(n: nat): nat {
    if n == 0 then 1 else 10 * Power10(n - 1)
  }

  /** The prototype j levels away from the first: sizes grow with the fan-outs, latencies tenfold. */
  ghost function Scaled(l1: Prototype, caches: seq<nat>, j: nat): Prototype
    requires j <= |caches|
  {
    var f := Prod(caches[..j]);
    var even := j % 2 == 0;
    Prototype(l1.size * f, l1.assoc * f, l1.mshrs * f, l1.latency * Power10(j),
              l1.inclusive == even, l1.writebackClean == even)
  }

  /** One prototype per level, the scaled ones first and the original last. */
  method ScalePrototypes(l1: Prototype, caches: seq<nat>) returns (protos: seq<Prototype>)
    requires caches != []
    ensures |protos| == |caches|
    ensures forall j | 0 <= j < |caches| :: protos[|caches| - 1 - j] == Scaled(l1, caches, j)
  {
    protos := [l1];
    assert caches[..0] == [];
    for i := 0 to |caches| - 1
      invariant |protos| == i + 1 && protos[0] == Scaled(l1, caches, i)
      invariant forall j | 0 <= j <= i :: protos[i - j] == Scaled(l1, caches, j)
    {
      var prev, scale := protos[0], caches[i];
      ScaledStep(l1, caches, i);
      var following := Prototype(prev.size * scale, prev.assoc * scale, prev.mshrs * scale, prev.latency * 10,
                                 !prev.inclusive, !prev.writebackClean);
      protos := [following] + protos;
    }
  }

  lemma ScaledStep(l1: Prototype, caches: seq<nat>, i: nat)
    requires i < |caches|
    ensures var a, b, scale := Scaled(l1, caches, i), Scaled(l1, caches, i + 1), caches[i];
            b == Prototype(a.size * scale, a.assoc * scale, a.mshrs * scale, a.latency * 10,
                           !a.inclusive, !a.writebackClean)
  {
    assert caches[..i + 1][..i] == caches[..i];
    var f, scale := Prod(caches[..i]), caches[i];
    Associate(l1.size, f, scale);
    Associate(l1.assoc, f, scale);
    Associate(l1.mshrs, f, scale);
    Associate(l1.latency, Power10(i), 10);
    assert (i + 1) % 2 == 1 - i % 2;
  }

  lemma Associate(a: nat, b: nat, c: nat)
    ensures a * (b * c) == a * b * c
  {
  }

  /** The script's global state: the subsystem counters and the objects attached to the system. */
  class System {
    const spec: Spec
    const protos: seq<Prototype>
    var kinds: map<Component, Prototype>
    var next: seq<nat>
    var links: Links
    var testers: seq<Component>

    ghost predicate Valid()
      reads this
    {
      Sound(spec) && |protos| == Levels(spec) && |next| == Levels(spec) + 1
    }

    /** The caches of the tree are made from the prototype of their level. */
    ghost predicate MadeFrom()
      requires |protos| == Levels(spec)
      reads this`links, this`kinds
    {
      && (forall c :: c in kinds <==> c in links && c.TreeCache?)
      && (forall c | c in kinds ::
            c.TreeCache? && 0 < c.level <= Levels(spec) && kinds[c] == protos[Levels(spec) - c.level])
    }

    ghost function State(): Plant
      reads this
    {
      Plant(next, links, testers)
    }

    constructor (spec: Spec, protos: seq<Prototype>)
      requires Sound(spec) && |protos| == Levels(spec)
      ensures Valid() && MadeFrom() && this.spec == spec && this.protos == protos && State() == Empty(spec)
    {
      this.spec, this.protos, kinds := spec, protos, map[];
      next, links, testers := seq(Levels(spec) + 1, _ => 0), map[], [];
    }

    method Connect(from: Component, to: Component)
      modifies this`links
      requires |protos| == Levels(spec) && !from.TreeCache?
      ensures links == old(links)[from := to]
      ensures old(MadeFrom()) ==> MadeFrom()
    {
      links := links[from := to];
    }

    method AttachTesters(level: nat, index: nat, n: nat)
      requires Valid() && MadeFrom()
      modifies this`links, this`testers
      ensures Valid() && MadeFrom() && State() == CachedTesters(old(State()), level, index, n)
    {
      hide MadeFrom;
      for i := 0 to n
        invariant Valid() && MadeFrom() && State() == CachedTesters(old(State()), level, index, i)
      {
        var t, c := Tester(level, index, i), TesterCache(level, index, i);
        testers := testers + [t];
        Connect(c, Xbar(level, index));
        Connect(t, c);
      }
    }

    method AttachDirectly(index: nat, n: nat, to: Component)
      requires Valid() && MadeFrom()
      modifies this`links, this`testers
      ensures Valid() && MadeFrom() && State() == PlainTesters(old(State()), index, n, to)
    {
      hide MadeFrom;
      for i := 0 to n
        invariant Valid() && MadeFrom() && State() == PlainTesters(old(State()), index, i, to)
      {
        testers := testers + [Tester(0, index, i)];
        Connect(Tester(0, index, i), to);
      }
    }

    method AddTreeCache(cache: Component, to: Component, proto: Prototype)
      requires Valid() && MadeFrom() && cache.TreeCache? && 0 < cache.level <= Levels(spec)
      requires proto == protos[Levels(spec) - cache.level]
      modifies this`links, this`kinds
      ensures Valid() && MadeFrom() && State() == Link(old(State()), cache, to)
    {
      kinds := kinds[cache := proto];
      links := links[cache := to];
    }

    method MakeCacheLevel(ncaches: seq<nat>, prototypes: seq<Prototype>, level: nat, parent: Option<Component>)
      requires Valid() && MadeFrom() && level <= Levels(spec) && (level == 0 ==> parent.Some?)
      requires ncaches == spec.caches[Levels(spec) - level..] && prototypes == protos[Levels(spec) - level..]
      modifies this
      ensures Valid() && MadeFrom() && State() == Built(spec, old(State()), level, parent)
      decreases level, 1
    {
      hide MadeFrom, Grown, CachedTesters, PlainTesters;
      var index := next[level];
      var n := spec.testers[Levels(spec) - level];
      next := next[level := index + 1];
      if level > 0 {
        if parent.Some? {
          Connect(Xbar(level, index), parent.value);
        }
        GrowTree(ncaches, prototypes, level, index);
        AttachTesters(level, index, n);
      } else if n > 1 {
        Connect(Xbar(0, index), parent.value);
        AttachDirectly(index, n, Xbar(0, index));
      } else {
        AttachDirectly(index, n, parent.value);
      }
    }

    /** The loop over the caches that fan out below a crossbar. */
    method GrowTree(ncaches: seq<nat>, prototypes: seq<Prototype>, level: nat, index: nat)
      requires Valid() && MadeFrom() && 0 < level <= Levels(spec)
      requires ncaches == spec.caches[Levels(spec) - level..] && prototypes == protos[Levels(spec) - level..]
      modifies this
      ensures Valid() && MadeFrom() && State() == Grown(spec, old(State()), level, index, ncaches[0])
      decreases level, 0
    {
      hide MadeFrom, Built, CachedTesters, PlainTesters;
      ghost var before := State();
      var fewer, rest := ncaches[1..], prototypes[1..];
      assert fewer == spec.caches[Levels(spec) - (level - 1)..] && rest == protos[Levels(spec) - (level - 1)..];
      assert prototypes[0] == protos[Levels(spec) - level];
      for j := 0 to ncaches[0]
        invariant Valid() && MadeFrom() && State() == Grown(spec, before, level, index, j)
      {
        var cache := TreeCache(level, index, j);
        AddTreeCache(cache, Xbar(level, index), prototypes[0]);
        MakeCacheLevel(fewer, rest, level - 1, Some(cache));
      }
    }
  }

  /** What each message means: its own check fails and every earlier one passes. */
  ghost predicate Blames(e: SpecError, caches: seq<int>, testers: seq<int>) {
    var negative := exists i | 0 <= i < |testers| :: testers[i] < 0;
    var empty := exists i | 0 <= i < |caches| :: caches[i] < 1;
    match e
    case NoCaches => caches == []
    case LengthMismatch => caches != [] && |testers| != |caches| + 1
    case NoTopTesters => caches != [] && |testers| == |caches| + 1 && testers[|caches|] == 0
    case NegativeTesters => caches != [] && |testers| == |caches| + 1 && testers[|caches|] != 0 && negative
    case EmptyLevel => caches != [] && |testers| == |caches| + 1 && testers[|caches|] != 0 && !negative && empty
    case TooManyTesters => ValidSpec(caches, testers) && Total(caches, testers) > 64
  }

  /** The checks on the two lists, in the order of the script. */
  method CheckSpec(caches: seq<int>, testers: seq<int>) returns (r: Result<Spec, SpecError>)
    ensures r.Ok? <==> ValidSpec(caches, testers) && Total(caches, testers) <= 64
    ensures r.Ok? ==> r.value.caches == caches && r.value.testers == testers && Sound(r.value)
    ensures r.Err? ==> Blames(r.error, caches, testers)
  {
    if |caches| < 1 { return Err(NoCaches); }
    if |caches| != |testers| - 1 { return Err(LengthMismatch); }
    if testers[|testers| - 1] == 0 { return Err(NoTopTesters); }
    var t: seq<nat> := [];
    for i := 0 to |testers|
      invariant |t| == i && t == testers[..i]
    {
      if testers[i] < 0 { return Err(NegativeTesters); }
      t := t + [testers[i]];
    }
    var c: seq<nat> := [];
    for i := 0 to |caches|
      invariant |c| == i && c == caches[..i] && forall j | 0 <= j < i :: caches[j] >= 1
    {
      if caches[i] < 1 { return Err(EmptyLevel); }
      c := c + [caches[i]];
    }
    assert t == testers && c == caches;
    assert t == Nats(testers) && c == Nats(caches);
    var total := NumTesters(c, t);
    SumIsTree(c, t);
    if total > BLOCK_SIZE { return Err(TooManyTesters); }
    r := Ok(Spec(c, t));
  }
}
