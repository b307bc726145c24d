/**
 * Rebuilding the port wiring of a simulated system from its config.ini: the single sorted
 * pass of configs/example/read_config.py that decides in which order, and in which of the two
 * listed directions, each link is bound.
 */
module ReadConfig {
  import opened Wrappers
  import opened Sorting

  datatype Port = Port(owner: string, name: string)

  /** One element of a (vector) port. */
  datatype End = End(port: Port, index: nat)

  datatype Connection = Connection(from: End, to: End)

  function Reverse(c: Connection): Connection {
    Connection(c.to, c.from)
  }

  // ----- The order of the pass: object name, then port name, then index.

  predicate EndLeq(a: End, b: End) {
    if a.port.owner != b.port.owner then TextLeq(a.port.owner, b.port.owner)
    else if a.port.name != b.port.name then TextLeq(a.port.name, b.port.name)
    else a.index <= b.index
  }

  predicate ConnectionLeq(a: Connection, b: Connection) {
    if a.from != b.from then EndLeq(a.from, b.from) else EndLeq(a.to, b.to)
  }

  /** Ends are in the order of the object's name, then of the port's name, then of the index. */
  lemma EndLeqMeans(a: End, b: End)
    ensures EndLeq(a, b) <==>
            || Before(a.port.owner, b.port.owner)
            || (a.port.owner == b.port.owner && Before(a.port.name, b.port.name))
            || (a.port == b.port && a.index <= b.index)
  {
    TextLeqMeans(a.port.owner, b.port.owner);
    TextLeqMeans(a.port.name, b.port.name);
    hide TextLeq;
    NotBeforeItself(a.port.owner);
    NotBeforeItself(a.port.name);
  }

  /** A proper prefix, or smaller in the first character that differs. */
  ghost predicate Before(a: string, b: string) {
    a < b || exists k: nat :: DiffersAt(a, b, k)
  }

  lemma NotBeforeItself(a: string)
    ensures !Before(a, a)
  {
  }

  /** Connections are sorted by the end they start from, and then by the other one. */
  lemma SortedByEnds(s: seq<Connection>, i: nat, j: nat)
    requires i < j < |Sort(s, ConnectionLeq)|
    ensures var x, y := Sort(s, ConnectionLeq)[i], Sort(s, ConnectionLeq)[j];
            EndLeq(x.from, y.from) && (x.from == y.from ==> EndLeq(x.to, y.to))
  {
    hide EndLeq;
    ConnectionOrder();
    SortSorts(s, ConnectionLeq);
    var x, y := Sort(s, ConnectionLeq)[i], Sort(s, ConnectionLeq)[j];
    assert ConnectionLeq(x, y);
    EndLeqTotal(x.from, y.from);
  }

  lemma EndLeqTotal(a: End, b: End)
    ensures EndLeq(a, b) || EndLeq(b, a)
    ensures EndLeq(a, b) && EndLeq(b, a) ==> a == b
  {
    TextLeqTotal(a.port.owner, b.port.owner);
    TextLeqTotal(a.port.name, b.port.name);
  }

  lemma EndLeqTransitive(a: End, b: End, c: End)
    requires EndLeq(a, b) && EndLeq(b, c)
    ensures EndLeq(a, c)
  {
    if a.port.owner != b.port.owner && b.port.owner != c.port.owner {
      TextLeqTransitive(a.port.owner, b.port.owner, c.port.owner);
      TextLeqTotal(a.port.owner, b.port.owner);
    }
    if a.port.name != b.port.name && b.port.name != c.port.name {
      if a.port.owner == b.port.owner == c.port.owner {
        TextLeqTransitive(a.port.name, b.port.name, c.port.name);
      }
      TextLeqTotal(a.port.name, b.port.name);
    }
  }

  lemma ConnectionOrder()
    ensures Preorder(ConnectionLeq)
  {
    forall a, b ensures ConnectionLeq(a, b) || ConnectionLeq(b, a) {
      EndLeqTotal(a.from, b.from);
      EndLeqTotal(a.to, b.to);
    }
    forall a, b, c | ConnectionLeq(a, b) && ConnectionLeq(b, c) ensures ConnectionLeq(a, c) {
      EndLeqTotal(a.from, b.from);
      if EndLeq(a.from, b.from) && EndLeq(b.from, c.from) {
        EndLeqTransitive(a.from, b.from, c.from);
      }
      if a.from == b.from == c.from {
        EndLeqTransitive(a.to, b.to, c.to);
      }
    }
  }

  // ----- The greedy pass.

  /** How many ends of port p the connections use: the port's entry in port_bind_indices. */
  function Count(made: seq<Connection>, p: Port): nat {
    if made == [] then 0
    else
      var c := made[|made| - 1];
      Count(made[..|made| - 1], p)
      + (if c.from.port == p then 1 else 0) + (if c.to.port == p then 1 else 0)
  }

  /** Both ends of c are the next free index of their ports. */
  predicate Fits(made: seq<Connection>, c: Connection) {
    Count(made, c.from.port) == c.from.index && Count(made, c.to.port) == c.to.index
  }

  /** The connections the pass binds. */
  function Made(order: seq<Connection>): seq<Connection> {
    if order == [] then []
    else
      var made, c := Made(order[..|order| - 1]), order[|order| - 1];
      if Fits(made, c) then made + [c] else made
  }

  /** Every port is bound at index 0, 1, 2, ... in turn. */
  ghost predicate InOrder(made: seq<Connection>) {
    forall k | 0 <= k < |made| :: Fits(made[..k], made[k])
  }

  ghost predicate NoLoops(s: seq<Connection>) {
    forall c | c in s :: c.from != c.to
  }

  ghost predicate HasEnd(made: seq<Connection>, e: End) {
    exists c | c in made :: c.from == e || c.to == e
  }

  lemma InOrderAppend(made: seq<Connection>, c: Connection)
    ensures InOrder(made + [c]) <==> InOrder(made) && Fits(made, c)
  {
    assert forall k | 0 <= k <= |made| :: (made + [c])[..k] == made[..k];
    assert made[..|made|] == made;
    if InOrder(made + [c]) {
      assert (made + [c])[|made|] == c;
      forall k | 0 <= k < |made| ensures Fits(made[..k], made[k]) {
        assert (made + [c])[k] == made[k];
      }
    }
  }

  lemma {:induction false} MadeInOrder(order: seq<Connection>)
    ensures InOrder(Made(order))
    ensures forall c | c in Made(order) :: c in order
  {
    if order != [] {
      MadeInOrder(order[..|order| - 1]);
      InOrderAppend(Made(order[..|order| - 1]), order[|order| - 1]);
    }
  }

  lemma HasEndAppend(made: seq<Connection>, c: Connection, e: End)
    ensures HasEnd(made + [c], e) <==> HasEnd(made, e) || c.from == e || c.to == e
  {
  }

  /** In an ordered binding the ends in use at a port are exactly those below its counter. */
  lemma {:induction false} EndsBelowCount(made: seq<Connection>, e: End)
    requires InOrder(made) && NoLoops(made)
    ensures HasEnd(made, e) <==> e.index < Count(made, e.port)
  {
    if made != [] {
      var rest, c := made[..|made| - 1], made[|made| - 1];
      assert made == rest + [c];
      InOrderAppend(rest, c);
      HasEndAppend(rest, c, e);
      hide HasEnd, InOrder;
      EndsBelowCount(rest, e);
    }
  }

  // ----- Connection lists: both directions of every link, indices 0..n-1 once per port.

  ghost predicate WellFormed(s: seq<Connection>) {
    && (forall i, j | 0 <= i < j < |s| :: s[i].from != s[j].from)
    && (forall c | c in s :: Reverse(c) in s && c.from != c.to)
    && (forall c, j: nat | c in s && j < c.from.index :: HasFrom(s, End(c.from.port, j)))
  }

  ghost predicate HasFrom(s: seq<Connection>, e: End) {
    exists c | c in s :: c.from == e
  }

  /** Two listed connections that share an end are the same link. */
  lemma SameLink(s: seq<Connection>, c: Connection, d: Connection, e: End)
    requires WellFormed(s) && c in s && d in s
    requires c.from == e || c.to == e
    requires d.from == e || d.to == e
    ensures d == c || d == Reverse(c)
  {
    var a := if c.from == e then c else Reverse(c);
    var b := if d.from == e then d else Reverse(d);
    assert a in s && b in s && a.from == b.from;
  }

  /** No link is bound twice, in the same or in opposite directions. */
  ghost predicate Once(made: seq<Connection>) {
    forall i, j | 0 <= i < j < |made| :: made[i] != made[j] && made[i] != Reverse(made[j])
  }

  lemma InOrderOnce(made: seq<Connection>)
    requires InOrder(made) && NoLoops(made)
    ensures Once(made)
  {
    forall i, j | 0 <= i < j < |made| ensures made[i] != made[j] && made[i] != Reverse(made[j]) {
      var before := made[..j];
      assert InOrder(before) by {
        forall k | 0 <= k < j ensures Fits(before[..k], before[k]) { assert before[..k] == made[..k]; }
      }
      assert made[i] == before[i];
      EndsBelowCount(before, made[j].from);
    }
  }

  function Backwards(s: seq<Connection>): (r: seq<Connection>)
    ensures |r| == |s| && forall i | 0 <= i < |s| :: r[i] == Reverse(s[i])
  {
    seq(|s|, i requires 0 <= i < |s| => Reverse(s[i]))
  }

  lemma {:induction false} DistinctCard<T>(s: seq<T>)
    requires Distinct(s)
    ensures |set x | x in s| == |s|
  {
    if s != [] {
      var rest := s[..|s| - 1];
      DistinctCard(rest);
      assert (set x | x in s) == (set x | x in rest) + {s[|s| - 1]};
    }
  }

  lemma SubsetCard<T>(a: set<T>, b: set<T>)
    requires a <= b
    ensures |a| <= |b|
    ensures |a| == |b| <==> a == b
  {
    assert b == a + (b - a);
    assert |b| == |a| + |b - a|;
  }

  lemma BothDirections(s: seq<Connection>, made: seq<Connection>)
    requires WellFormed(s) && Once(made) && forall c | c in made :: c in s
    ensures var both := made + Backwards(made);
            && Distinct(both)
            && (forall c :: c in both <==> c in made || Reverse(c) in made)
  {
    var both := made + Backwards(made);
    forall i, j | 0 <= i < j < |both| ensures both[i] != both[j] {
      if i < |made| <= j {
        var k := j - |made|;
        assert both[j] == Reverse(made[k]);
        if k == i { assert made[i] in s; }
      }
    }
    forall c ensures c in both <==> c in made || Reverse(c) in made {
      if Reverse(c) in made {
        var i :| 0 <= i < |made| && made[i] == Reverse(c);
        assert both[|made| + i] == c;
      }
    }
  }

  /** Half of the list is bound exactly when every link is. */
  lemma HalfMeansAll(s: seq<Connection>, made: seq<Connection>)
    requires WellFormed(s) && Once(made) && forall c | c in made :: c in s
    ensures 2 * |made| == |s| <==> forall c | c in s :: c in made || Reverse(c) in made
  {
    var both := made + Backwards(made);
    BothDirections(s, made);
    DistinctCard(both);
    DistinctCard(s);
    var bound, all := set c | c in both, set c | c in s;
    forall c | c in both ensures c in s {
      assert Reverse(Reverse(c)) == c;
    }
    SubsetCard(bound, all);
    if forall c | c in s :: c in made || Reverse(c) in made {
      assert bound == all;
    }
    if bound == all {
      forall c | c in s ensures c in both { assert c in all; }
    }
  }

  // ----- Exactly when the pass succeeds.

  /** Keep the connections of order that are in the chosen set. */
  function Select(order: seq<Connection>, chosen: set<Connection>): seq<Connection> {
    if order == [] then []
    else
      var rest, c := Select(order[..|order| - 1], chosen), order[|order| - 1];
      if c in chosen then rest + [c] else rest
  }

  /** One direction is chosen for every link. */
  ghost predicate Orients(chosen: set<Connection>, s: seq<Connection>) {
    forall c | c in s :: c in chosen <==> Reverse(c) !in chosen
  }

  /** Some choice of directions visits the indices of every port in turn. */
  ghost predicate Orderable(order: seq<Connection>) {
    exists chosen :: Orients(chosen, order) && InOrder(Select(order, chosen))
  }

  lemma {:induction false} SelectContents(order: seq<Connection>, chosen: set<Connection>)
    ensures forall c :: c in Select(order, chosen) <==> c in order && c in chosen
  {
    if order != [] {
      SelectContents(order[..|order| - 1], chosen);
    }
  }

  /** Whatever an ordered choice binds within a prefix, the greedy pass has bound as well. */
  lemma {:induction false} GreedyKeepsUp(s: seq<Connection>, order: seq<Connection>, chosen: set<Connection>)
    requires WellFormed(s) && forall c | c in order :: c in s
    requires InOrder(Select(order, chosen))
    ensures forall c | c in Select(order, chosen) :: c in Made(order) || Reverse(c) in Made(order)
  {
    if order != [] {
      var before, c := order[..|order| - 1], order[|order| - 1];
      var picked, made := Select(before, chosen), Made(before);
      assert c in order;
      MadeInOrder(before);
      SelectContents(before, chosen);
      if c in chosen {
        InOrderAppend(picked, c);
        GreedyKeepsUp(s, before, chosen);
        if c !in made && Reverse(c) !in made {
          NextIndex(s, made, picked, c, c.from);
          NextIndex(s, made, picked, c, c.to);
        }
      } else {
        GreedyKeepsUp(s, before, chosen);
      }
    }
  }

  /** If c is the next chosen connection and not yet bound, its end e is next at its port too. */
  lemma NextIndex(s: seq<Connection>, made: seq<Connection>, picked: seq<Connection>, c: Connection, e: End)
    requires WellFormed(s) && c in s && (e == c.from || e == c.to)
    requires InOrder(made) && InOrder(picked) && Count(picked, e.port) == e.index
    requires (forall d | d in made :: d in s) && (forall d | d in picked :: d in s)
    requires forall d | d in picked :: d in made || Reverse(d) in made
    requires c !in made && Reverse(c) !in made
    ensures Count(made, e.port) == e.index
  {
    EndsBelowCount(made, e);
    if HasEnd(made, e) {
      var d :| d in made && (d.from == e || d.to == e);
      SameLink(s, c, d, e);
      assert false;
    }
    if e.index > 0 {
      var last := End(e.port, e.index - 1);
      EndsBelowCount(picked, last);
      var d :| d in picked && (d.from == last || d.to == last);
      assert HasEnd(made, last);
      EndsBelowCount(made, last);
    }
  }

  lemma {:induction false} MadePrefix(order: seq<Connection>, k: nat)
    requires k <= |order|
    ensures forall c | c in Made(order[..k]) :: c in Made(order)
    ensures forall c | c in Made(order) :: c in Made(order[..k]) || c in order[k..]
  {
    if k == |order| {
      assert order[..k] == order;
    } else {
      var before := order[..|order| - 1];
      MadePrefix(before, k);
      assert before[..k] == order[..k] && order[k..] == before[k..] + [order[|order| - 1]];
    }
  }

  /** The connections that were made, taken as a choice of directions, reproduce the pass. */
  lemma {:induction false} SelectMade(order: seq<Connection>, k: nat)
    requires k <= |order| && Distinct(order)
    ensures Select(order[..k], set c | c in Made(order)) == Made(order[..k])
  {
    if k > 0 {
      SelectMade(order, k - 1);
      assert order[..k][..k - 1] == order[..k - 1];
      MadePrefix(order, k);
      MadeInOrder(order[..k - 1]);
    }
  }

  lemma SameElements(s: seq<Connection>, order: seq<Connection>)
    requires WellFormed(s) && multiset(order) == multiset(s)
    ensures (forall c :: c in order <==> c in s) && |order| == |s| && Distinct(order)
  {
    PermutedDistinct(s, order);
  }

  lemma NeverBoth(s: seq<Connection>, made: seq<Connection>, c: Connection)
    requires WellFormed(s) && Once(made) && c in s
    ensures c in made ==> Reverse(c) !in made
  {
  }

  lemma ChoiceMeansAll(s: seq<Connection>, order: seq<Connection>, chosen: set<Connection>)
    requires WellFormed(s) && multiset(order) == multiset(s)
    requires Orients(chosen, order) && InOrder(Select(order, chosen))
    ensures forall c | c in s :: c in Made(order) || Reverse(c) in Made(order)
  {
    SameElements(s, order);
    GreedyKeepsUp(s, order, chosen);
    SelectContents(order, chosen);
    forall c | c in s ensures c in Made(order) || Reverse(c) in Made(order) {
      assert Reverse(Reverse(c)) == c;
      assert c in chosen || Reverse(c) in chosen;
    }
  }

  /** The pass binds every link if and only if some choice of directions respects all indices. */
  lemma SucceedsIff(s: seq<Connection>, order: seq<Connection>)
    requires WellFormed(s) && multiset(order) == multiset(s)
    ensures 2 * |Made(order)| == |s| <==> Orderable(order)
  {
    var made := Made(order);
    SameElements(s, order);
    MadeInOrder(order);
    InOrderOnce(made);
    HalfMeansAll(s, made);
    if chosen :| Orients(chosen, order) && InOrder(Select(order, chosen)) {
      ChoiceMeansAll(s, order, chosen);
    }
    if 2 * |made| == |s| {
      var chosen := set c | c in made;
      SelectMade(order, |order|);
      assert order[..|order|] == order;
      forall c | c in order ensures c in chosen <==> Reverse(c) !in chosen {
        NeverBoth(s, made, c);
      }
      assert Orients(chosen, order) && InOrder(Select(order, chosen));
    }
  }

  // ----- The same condition, two links at a time.

  predicate NextTo(e: End, f: End) {
    e.port == f.port && f.index == e.index + 1
  }

  /** Some port has c at one index and d at the next. */
  predicate Precedes(c: Connection, d: Connection) {
    NextTo(c.from, d.from) || NextTo(c.from, d.to) || NextTo(c.to, d.from) || NextTo(c.to, d.to)
  }

  /** Of two chosen connections at consecutive indices of a port, the one at the lower index comes first. */
  ghost predicate Stepwise(order: seq<Connection>, chosen: set<Connection>) {
    forall i, j | 0 <= i < |order| && 0 <= j < |order| && order[i] in chosen && order[j] in chosen ::
      Precedes(order[i], order[j]) ==> i < j
  }

  ghost predicate PairwiseOrderable(order: seq<Connection>) {
    exists chosen :: Orients(chosen, order) && Stepwise(order, chosen)
  }

  /** The end of a chosen connection is not in use before its turn. */
  lemma NotYet(s: seq<Connection>, order: seq<Connection>, chosen: set<Connection>, k: nat, e: End)
    requires WellFormed(s) && (forall c | c in order :: c in s) && Distinct(order) && Orients(chosen, order)
    requires k < |order| && order[k] in chosen && (e == order[k].from || e == order[k].to)
    ensures !HasEnd(Select(order[..k], chosen), e)
  {
    SelectContents(order[..k], chosen);
    forall d | d in Select(order[..k], chosen) ensures d.from != e && d.to != e {
      assert order[k] in order && d in order;
      if d.from == e || d.to == e {
        SameLink(s, order[k], d, e);
        assert false;
      }
    }
  }

  /** With the lower index first, the index below a chosen connection's end is in use when its turn comes. */
  lemma AlreadyBelow(s: seq<Connection>, order: seq<Connection>, chosen: set<Connection>, k: nat, e: End)
    requires WellFormed(s) && (forall c :: c in order <==> c in s) && Orients(chosen, order) && Stepwise(order, chosen)
    requires k < |order| && order[k] in chosen && (e == order[k].from || e == order[k].to) && e.index > 0
    ensures HasEnd(Select(order[..k], chosen), End(e.port, e.index - 1))
  {
    var below, c := End(e.port, e.index - 1), order[k];
    assert c in order;
    var here := if e == c.from then c else Reverse(c);
    assert here in s && here.from == e;
    assert HasFrom(s, below);
    var b :| b in s && b.from == below;
    var d := if b in chosen then b else Reverse(b);
    assert d in chosen && d in order;
    var j :| 0 <= j < |order| && order[j] == d;
    assert Precedes(d, c);
    assert order[..k][j] == d;
    SelectContents(order[..k], chosen);
  }

  lemma {:induction false} StepwiseInOrder(s: seq<Connection>, order: seq<Connection>, chosen: set<Connection>, k: nat)
    requires WellFormed(s) && (forall c :: c in order <==> c in s) && Distinct(order)
    requires Orients(chosen, order) && Stepwise(order, chosen) && k <= |order|
    ensures InOrder(Select(order[..k], chosen))
  {
    if k > 0 {
      StepwiseInOrder(s, order, chosen, k - 1);
      var picked, c := Select(order[..k - 1], chosen), order[k - 1];
      assert order[..k][..k - 1] == order[..k - 1];
      if c in chosen {
        TurnFits(s, order, chosen, k - 1, c.from);
        TurnFits(s, order, chosen, k - 1, c.to);
        InOrderAppend(picked, c);
      }
    }
  }

  lemma TurnFits(s: seq<Connection>, order: seq<Connection>, chosen: set<Connection>, k: nat, e: End)
    requires WellFormed(s) && (forall c :: c in order <==> c in s) && Distinct(order)
    requires Orients(chosen, order) && Stepwise(order, chosen)
    requires k < |order| && order[k] in chosen && (e == order[k].from || e == order[k].to)
    requires InOrder(Select(order[..k], chosen))
    ensures Count(Select(order[..k], chosen), e.port) == e.index
  {
    var picked := Select(order[..k], chosen);
    SelectNoLoops(s, order[..k], chosen);
    NotYet(s, order, chosen, k, e);
    EndsBelowCount(picked, e);
    if e.index > 0 {
      AlreadyBelow(s, order, chosen, k, e);
      EndsBelowCount(picked, End(e.port, e.index - 1));
    }
  }

  lemma SelectNoLoops(s: seq<Connection>, order: seq<Connection>, chosen: set<Connection>)
    requires WellFormed(s) && forall c | c in order :: c in s
    ensures NoLoops(Select(order, chosen))
  {
    SelectContents(order, chosen);
  }

  lemma {:induction false} SelectPrefix(order: seq<Connection>, chosen: set<Connection>, k: nat)
    requires k <= |order| && InOrder(Select(order, chosen))
    ensures InOrder(Select(order[..k], chosen))
    ensures k < |order| && order[k] in chosen ==> Fits(Select(order[..k], chosen), order[k])
    decreases |order|
  {
    if k == |order| {
      assert order[..k] == order;
    } else {
      var before, c := order[..|order| - 1], order[|order| - 1];
      if c in chosen {
        InOrderAppend(Select(before, chosen), c);
      }
      if k < |order| - 1 {
        SelectPrefix(before, chosen, k);
        assert before[..k] == order[..k];
      }
    }
  }

  lemma InOrderStepwise(s: seq<Connection>, order: seq<Connection>, chosen: set<Connection>,
                        i: nat, j: nat, e: End, f: End)
    requires WellFormed(s) && (forall c | c in order :: c in s) && Orients(chosen, order)
    requires InOrder(Select(order, chosen)) && i < |order| && j < |order| && order[i] in chosen && order[j] in chosen
    requires (e == order[i].from || e == order[i].to) && (f == order[j].from || f == order[j].to) && NextTo(e, f)
    requires Distinct(order)
    ensures i < j
  {
    var picked := Select(order[..j], chosen);
    SelectPrefix(order, chosen, j);
    SelectNoLoops(s, order[..j], chosen);
    EndsBelowCount(picked, e);
    SelectContents(order[..j], chosen);
    var b :| b in picked && (b.from == e || b.to == e);
    assert b in order && order[i] in order;
    SameLink(s, order[i], b, e);
    var m :| 0 <= m < j && order[m] == b;
  }

  lemma StepwiseIff(s: seq<Connection>, order: seq<Connection>, chosen: set<Connection>)
    requires WellFormed(s) && multiset(order) == multiset(s) && Orients(chosen, order)
    ensures InOrder(Select(order, chosen)) <==> Stepwise(order, chosen)
  {
    SameElements(s, order);
    hide InOrder, Select, WellFormed, Orients, Distinct;
    if InOrder(Select(order, chosen)) {
      forall i, j | 0 <= i < |order| && 0 <= j < |order| && order[i] in chosen && order[j] in chosen
                    && Precedes(order[i], order[j])
        ensures i < j
      {
        var e := if NextTo(order[i].from, order[j].from) || NextTo(order[i].from, order[j].to)
                 then order[i].from else order[i].to;
        var f := if NextTo(e, order[j].from) then order[j].from else order[j].to;
        InOrderStepwise(s, order, chosen, i, j, e, f);
      }
    }
    if Stepwise(order, chosen) {
      StepwiseInOrder(s, order, chosen, |order|);
      assert order[..|order|] == order;
    }
  }

  /** The pass binds every link if and only if links can be directed so that consecutive indices come in turn. */
  lemma SucceedsPairwise(s: seq<Connection>, order: seq<Connection>)
    requires WellFormed(s) && multiset(order) == multiset(s)
    ensures 2 * |Made(order)| == |s| <==> PairwiseOrderable(order)
  {
    SucceedsIff(s, order);
    hide InOrder, Select, WellFormed, Orients, Stepwise, Made;
    if chosen :| Orients(chosen, order) && InOrder(Select(order, chosen)) {
      StepwiseIff(s, order, chosen);
    }
    if chosen :| Orients(chosen, order) && Stepwise(order, chosen) {
      StepwiseIff(s, order, chosen);
    }
  }

  // ----- Systems in which every link has an end on a single-connection port always succeed.

  ghost predicate Single(s: seq<Connection>, p: Port) {
    forall c | c in s && c.from.port == p :: c.from.index == 0
  }

  ghost predicate StarLike(s: seq<Connection>) {
    forall c | c in s :: Single(s, c.from.port) || Single(s, c.to.port)
  }

  /** Bind from the shared port to the single one; between two single ports, from the smaller end. */
  ghost predicate FromHub(s: seq<Connection>, c: Connection) {
    !Single(s, c.from.port) || (Single(s, c.to.port) && EndLeq(c.from, c.to))
  }

  ghost function Hubs(s: seq<Connection>): set<Connection> {
    set c | c in s && FromHub(s, c)
  }

  lemma HubsOrient(s: seq<Connection>, order: seq<Connection>)
    requires WellFormed(s) && StarLike(s) && forall c | c in order :: c in s
    ensures Orients(Hubs(s), order)
  {
    forall c | c in order ensures c in Hubs(s) <==> Reverse(c) !in Hubs(s) {
      EndLeqTotal(c.from, c.to);
      assert Reverse(c) in s;
    }
  }

  /** Earlier ends of a shared port come earlier in the sorted list. */
  lemma {:induction false} HubsInOrder(s: seq<Connection>, order: seq<Connection>, k: nat)
    requires WellFormed(s) && StarLike(s) && multiset(order) == multiset(s)
    requires Sorted(order, ConnectionLeq) && k <= |order|
    ensures InOrder(Select(order[..k], Hubs(s)))
  {
    if k > 0 {
      HubsInOrder(s, order, k - 1);
      var c, picked := order[k - 1], Select(order[..k - 1], Hubs(s));
      assert order[..k][..k - 1] == order[..k - 1];
      if c in Hubs(s) {
        HubEndNext(s, order, k - 1, c.from);
        HubEndNext(s, order, k - 1, c.to);
        InOrderAppend(picked, c);
      }
    }
  }

  lemma HubEndNext(s: seq<Connection>, order: seq<Connection>, k: nat, e: End)
    requires WellFormed(s) && StarLike(s) && multiset(order) == multiset(s)
    requires Sorted(order, ConnectionLeq) && k < |order| && order[k] in Hubs(s)
    requires e == order[k].from || e == order[k].to
    requires InOrder(Select(order[..k], Hubs(s)))
    ensures Count(Select(order[..k], Hubs(s)), e.port) == e.index
  {
    var c, picked := order[k], Select(order[..k], Hubs(s));
    SameElements(s, order);
    SelectContents(order[..k], Hubs(s));
    EndsBelowCount(picked, e);
    if HasEnd(picked, e) {
      var d :| d in picked && (d.from == e || d.to == e);
      SameLink(s, c, d, e);
      HubsOrient(s, order);
      assert false;
    }
    if e.index > 0 {
      var before := End(e.port, e.index - 1);
      EarlierPicked(s, order, k, e, before);
      EndsBelowCount(picked, before);
    }
  }

  lemma LowerFirst(d: Connection, c: Connection)
    requires d.from.port == c.from.port && d.from.index < c.from.index
    ensures ConnectionLeq(d, c) && !ConnectionLeq(c, d)
  {
  }

  /** An end with a lower end beside it is the shared one. */
  lemma SharedEnd(s: seq<Connection>, c: Connection, e: End)
    requires WellFormed(s) && StarLike(s) && c in Hubs(s) && (e == c.from || e == c.to) && e.index > 0
    ensures e == c.from
  {
    hide EndLeq;
    assert Reverse(c) in s;
  }

  lemma EarlierPicked(s: seq<Connection>, order: seq<Connection>, k: nat, e: End, before: End)
    requires WellFormed(s) && StarLike(s) && multiset(order) == multiset(s)
    requires Sorted(order, ConnectionLeq) && k < |order| && order[k] in Hubs(s)
    requires e == order[k].from || e == order[k].to
    requires e.port == before.port && before.index < e.index
    ensures HasEnd(Select(order[..k], Hubs(s)), before)
  {
    hide ConnectionLeq, EndLeq;
    SameElements(s, order);
    var c := order[k];
    SharedEnd(s, c, e);
    assert HasFrom(s, before);
    var d :| d in s && d.from == before;
    assert d in Hubs(s) by { HubStays(s, c, d); }
    hide WellFormed, StarLike, Hubs;
    var i :| 0 <= i < |order| && order[i] == d;
    LowerFirst(d, c);
    assert i < k;
    assert d in order[..k];
    SelectContents(order[..k], Hubs(s));
  }

  lemma HubStays(s: seq<Connection>, c: Connection, d: Connection)
    requires WellFormed(s) && c in s && d in s && c.from.port == d.from.port && c.from.index > 0
    ensures d in Hubs(s)
  {
    hide EndLeq;
  }

  /** The sorted pass never fails on such systems, whatever their size. */
  lemma StarSucceeds(s: seq<Connection>)
    requires WellFormed(s) && StarLike(s)
    ensures 2 * |Made(Sort(s, ConnectionLeq))| == |s|
  {
    var order := Sort(s, ConnectionLeq);
    ConnectionOrder();
    SortContents(s, ConnectionLeq);
    SortSorts(s, ConnectionLeq);
    SameElements(s, order);
    HubsOrient(s, order);
    HubsInOrder(s, order, |order|);
    assert order[..|order|] == order;
    SucceedsIff(s, order);
  }

  // ----- The rebuilt wiring.

  type Wiring = map<Port, seq<End>>

  function Peers(w: Wiring, p: Port): seq<End> {
    if p in w then w[p] else []
  }

  /** obj1.portA = obj2.portB: both ports grow by one element and the two elements become peers. */
  function Connect(w: Wiring, c: Connection): Wiring {
    var f, t := c.from.port, c.to.port;
    var fromEnd, toEnd := End(f, |Peers(w, f)|), End(t, |Peers(w, t)|);
    var w1 := w[f := Peers(w, f) + [toEnd]];
    w1[t := Peers(w1, t) + [fromEnd]]
  }

  function Wired(made: seq<Connection>): Wiring {
    if made == [] then map[] else Connect(Wired(made[..|made| - 1]), made[|made| - 1])
  }

  /** The wiring gives the end c.from the peer c.to. */
  predicate Declares(w: Wiring, c: Connection) {
    c.from.index < |Peers(w, c.from.port)| && Peers(w, c.from.port)[c.from.index] == c.to
  }

  lemma {:induction false} WiredLength(made: seq<Connection>, p: Port)
    ensures |Peers(Wired(made), p)| == Count(made, p)
  {
    if made != [] {
      WiredLength(made[..|made| - 1], p);
    }
  }

  lemma ConnectKeeps(w: Wiring, c: Connection, d: Connection)
    requires Declares(w, d)
    ensures Declares(Connect(w, c), d)
  {
  }

  /** Binding in order gives every bound end the peer it was declared with. */
  lemma {:induction false} WiredAsDeclared(made: seq<Connection>, c: Connection)
    requires InOrder(made) && NoLoops(made) && c in made
    ensures Declares(Wired(made), c) && Declares(Wired(made), Reverse(c))
  {
    hide Fits, Count;
    var rest, last := made[..|made| - 1], made[|made| - 1];
    assert made == rest + [last];
    InOrderAppend(rest, last);
    if c == last {
      LastFits(rest, c);
    } else {
      WiredAsDeclared(rest, c);
      ConnectKeeps(Wired(rest), last, c);
      ConnectKeeps(Wired(rest), last, Reverse(c));
    }
  }

  lemma LastFits(rest: seq<Connection>, c: Connection)
    requires Fits(rest, c) && c.from != c.to
    ensures Declares(Connect(Wired(rest), c), c) && Declares(Connect(Wired(rest), c), Reverse(c))
  {
    WiredLength(rest, c.from.port);
    WiredLength(rest, c.to.port);
  }

  // ----- The methods.

  datatype Failure = MissingPort | Unordered

  ghost predicate Known(s: seq<Connection>) {
    forall c | c in s :: IsFromPort(s, c.to.port)
  }

  ghost predicate IsFromPort(s: seq<Connection>, p: Port) {
    exists c | c in s :: c.from.port == p
  }

  ghost predicate Counters(indices: map<Port, nat>, made: seq<Connection>) {
    forall p | p in indices :: indices[p] == Count(made, p)
  }

  method StartIndices(connections: seq<Connection>) returns (indices: map<Port, nat>)
    ensures forall p :: p in indices <==> IsFromPort(connections, p)
    ensures Counters(indices, [])
  {
    indices := map[];
    for i := 0 to |connections|
      invariant forall p :: p in indices <==> IsFromPort(connections[..i], p)
      invariant Counters(indices, [])
    {
      assert connections[..i + 1] == connections[..i] + [connections[i]];
      indices := indices[connections[i].from.port := 0];
    }
    assert connections[..|connections|] == connections;
  }

  lemma CountersStep(indices: map<Port, nat>, made: seq<Connection>, c: Connection)
    requires Counters(indices, made) && c.from.port in indices && c.to.port in indices
    ensures var once := indices[c.from.port := indices[c.from.port] + 1];
            Counters(once[c.to.port := once[c.to.port] + 1], made + [c])
  {
  }

  /** The pass over the sorted connections with its dictionary of counters. */
  method Pass(connections: seq<Connection>, order: seq<Connection>) returns (r: Option<seq<Connection>>)
    requires multiset(order) == multiset(connections)
    ensures r.Some? ==> r.value == Made(order)
    ensures Known(connections) ==> r.Some?
  {
    hide Count;
    var indices := StartIndices(connections);
    assert forall c :: c in order <==> c in multiset(order);
    assert forall c :: c in connections <==> c in multiset(connections);
    var made: seq<Connection> := [];
    for k := 0 to |order|
      invariant made == Made(order[..k])
      invariant forall p :: p in indices <==> IsFromPort(connections, p)
      invariant Counters(indices, made)
    {
      var c := order[k];
      assert order[..k + 1][..k] == order[..k];
      assert c in connections && IsFromPort(connections, c.from.port);
      if indices[c.from.port] == c.from.index {
        if c.to.port !in indices {
          return None;
        }
        if indices[c.to.port] == c.to.index {
          CountersStep(indices, made, c);
          indices := indices[c.from.port := indices[c.from.port] + 1];
          indices := indices[c.to.port := indices[c.to.port] + 1];
          made := made + [c];
        }
      }
    }
    assert order[..|order|] == order;
    r := Some(made);
  }

  /** Bind all ports of a connection list. */
  method BindPorts(connections: seq<Connection>) returns (r: Result<Wiring, Failure>)
    ensures Known(connections) ==> r != Err(MissingPort)
    ensures WellFormed(connections) ==> (r.Ok? <==> Orderable(Sort(connections, ConnectionLeq)))
    ensures WellFormed(connections) && StarLike(connections) ==> r.Ok?
    ensures WellFormed(connections) && r.Ok? ==>
              && (forall c | c in connections :: Declares(r.value, c))
              && (forall p, i: nat | i < |Peers(r.value, p)| :: HasFrom(connections, End(p, i)))
  {
    hide WellFormed, StarLike, Orderable, Known, Made, Sort, Declares;
    var order := Sort(connections, ConnectionLeq);
    SortContents(connections, ConnectionLeq);
    var pass := Pass(connections, order);
    if WellFormed(connections) {
      SymmetricIsKnown(connections);
      SucceedsIff(connections, order);
      if StarLike(connections) { StarSucceeds(connections); }
    }
    if pass == None {
      return Err(MissingPort);
    }
    var made := pass.value;
    if |made| * 2 != |connections| {
      return Err(Unordered);
    }
    var w: Wiring := map[];
    for k := 0 to |made|
      invariant w == Wired(made[..k])
    {
      assert made[..k + 1][..k] == made[..k];
      w := Connect(w, made[k]);
    }
    assert made[..|made|] == made;
    if WellFormed(connections) {
      AllWired(connections, order);
    }
    r := Ok(w);
  }

  lemma SymmetricIsKnown(s: seq<Connection>)
    requires WellFormed(s)
    ensures Known(s)
  {
    forall c | c in s ensures IsFromPort(s, c.to.port) {
      assert Reverse(c) in s;
    }
  }

  lemma AllWired(s: seq<Connection>, order: seq<Connection>)
    requires WellFormed(s) && multiset(order) == multiset(s) && 2 * |Made(order)| == |s|
    ensures forall c | c in s :: Declares(Wired(Made(order)), c)
    ensures forall p, i: nat | i < |Peers(Wired(Made(order)), p)| :: HasFrom(s, End(p, i))
  {
    hide Declares, Wired;
    SameElements(s, order);
    MadeInOrder(order);
    InOrderOnce(Made(order));
    HalfMeansAll(s, Made(order));
    forall c | c in s ensures Declares(Wired(Made(order)), c) {
      assert Reverse(Reverse(c)) == c;
      WiredAsDeclared(Made(order), if c in Made(order) then c else Reverse(c));
    }
    forall p, i: nat | i < |Peers(Wired(Made(order)), p)| ensures HasFrom(s, End(p, i)) {
      WiredLength(Made(order), p);
      EndsBelowCount(Made(order), End(p, i));
      var c :| c in Made(order) && (c.from == End(p, i) || c.to == End(p, i));
      assert c in s && Reverse(c) in s;
    }
  }

  // ----- From the configuration file to the wiring.

  /** A port section of the configuration: the port and the peers of its elements, in order. */
  datatype PortSection = PortSection(port: Port, peers: seq<End>)

  ghost predicate DistinctPorts(config: seq<PortSection>) {
    forall i, j | 0 <= i < j < |config| :: config[i].port != config[j].port
  }

  ghost predicate Lists(config: seq<PortSection>, c: Connection) {
    exists sec | sec in config ::
      c.from.port == sec.port && c.from.index < |sec.peers| && sec.peers[c.from.index] == c.to
  }

  ghost predicate Froms(s: seq<Connection>) {
    forall i, j | 0 <= i < j < |s| :: s[i].from != s[j].from
  }

  /** One connection per element of every port. */
  method GatherConnections(config: seq<PortSection>) returns (s: seq<Connection>)
    ensures forall c :: c in s <==> Lists(config, c)
    ensures DistinctPorts(config) ==> Froms(s)
  {
    s := [];
    for i := 0 to |config|
      invariant forall c :: c in s <==> Lists(config[..i], c)
      invariant DistinctPorts(config) ==> Froms(s)
    {
      var sec := config[i];
      ghost var before := s;
      for k := 0 to |sec.peers|
        invariant forall c :: c in s <==>
                    c in before || (c.from.port == sec.port && c.from.index < k && sec.peers[c.from.index] == c.to)
        invariant DistinctPorts(config) ==> Froms(s)
      {
        assert DistinctPorts(config) ==> forall c | c in before :: c.from.port != sec.port;
        s := s + [Connection(End(sec.port, k), sec.peers[k])];
      }
      assert config[..i + 1] == config[..i] + [sec];
    }
    assert config[..|config|] == config;
  }

  /** Each link is described at both of its ends and joins two different ends. */
  ghost predicate Mutual(config: seq<PortSection>) {
    forall c :: Lists(config, c) ==> Lists(config, Reverse(c)) && c.from != c.to
  }

  lemma MutualIsWellFormed(config: seq<PortSection>, s: seq<Connection>)
    requires Mutual(config) && Froms(s) && forall c :: c in s <==> Lists(config, c)
    ensures WellFormed(s)
  {
    forall c, j: nat | c in s && j < c.from.index ensures HasFrom(s, End(c.from.port, j)) {
      var sec :| sec in config && c.from.port == sec.port && c.from.index < |sec.peers|
                 && sec.peers[c.from.index] == c.to;
      var d := Connection(End(sec.port, j), sec.peers[j]);
      assert Lists(config, d) && d in s;
    }
  }

  /** Rebuilding a mutual configuration either reports that it cannot be ordered or reproduces it exactly. */
  method RebuildWiring(config: seq<PortSection>) returns (r: Result<Wiring, Failure>)
    requires DistinctPorts(config)
    ensures Mutual(config) ==> r != Err(MissingPort)
    ensures Mutual(config) && r.Ok? ==> forall sec | sec in config :: Peers(r.value, sec.port) == sec.peers
  {
    var s := GatherConnections(config);
    if Mutual(config) {
      MutualIsWellFormed(config, s);
      SymmetricIsKnown(s);
    }
    r := BindPorts(s);
    if Mutual(config) && r.Ok? {
      forall sec | sec in config ensures Peers(r.value, sec.port) == sec.peers {
        PeersMatch(config, s, r.value, sec);
      }
    }
  }

  lemma ListedPeer(config: seq<PortSection>, s: seq<Connection>, w: Wiring, sec: PortSection, i: nat)
    requires sec in config && i < |sec.peers| && forall c :: c in s <==> Lists(config, c)
    requires forall c | c in s :: Declares(w, c)
    ensures i < |Peers(w, sec.port)| && Peers(w, sec.port)[i] == sec.peers[i]
  {
    var c := Connection(End(sec.port, i), sec.peers[i]);
    assert Lists(config, c) && c in s && Declares(w, c);
  }

  lemma PeersMatch(config: seq<PortSection>, s: seq<Connection>, w: Wiring, sec: PortSection)
    requires DistinctPorts(config) && sec in config && forall c :: c in s <==> Lists(config, c)
    requires forall c | c in s :: Declares(w, c)
    requires forall p, i: nat | i < |Peers(w, p)| :: HasFrom(s, End(p, i))
    ensures Peers(w, sec.port) == sec.peers
  {
    var peers := Peers(w, sec.port);
    forall i | 0 <= i < |sec.peers| ensures i < |peers| && peers[i] == sec.peers[i] {
      ListedPeer(config, s, w, sec, i);
    }
    if sec.peers != [] {
      ListedPeer(config, s, w, sec, |sec.peers| - 1);
    }
    if |peers| > |sec.peers| {
      OnlyListed(config, s, sec, |sec.peers|);
    }
  }

  lemma OnlyListed(config: seq<PortSection>, s: seq<Connection>, sec: PortSection, i: nat)
    requires DistinctPorts(config) && sec in config && forall c :: c in s <==> Lists(config, c)
    requires HasFrom(s, End(sec.port, i))
    ensures i < |sec.peers|
  {
  }

  // ----- The source's claim that one direction of every pair is always bindable does not hold.

  /**
   * The links d[0]-c[0], c[1]-b[0] and b[1]-a[0], each listed from both ends: two crossbars in a
   * row, of which b and c are the ports that face each other.
   */
  function Chain(a: Port, b: Port, c: Port, d: Port): seq<Connection> {
    [Connection(End(a, 0), End(b, 1)), Connection(End(b, 0), End(c, 1)), Connection(End(b, 1), End(a, 0)),
     Connection(End(c, 0), End(d, 0)), Connection(End(c, 1), End(b, 0)), Connection(End(d, 0), End(c, 0))]
  }

  predicate Different(a: Port, b: Port, c: Port, d: Port) {
    a != b && a != c && a != d && b != c && b != d && c != d
  }

  predicate Ascending(a: Port, b: Port, c: Port, d: Port) {
    && Different(a, b, c, d)
    && EndLeq(End(a, 0), End(b, 0)) && EndLeq(End(b, 0), End(c, 0)) && EndLeq(End(c, 0), End(d, 0))
  }

  /** Every link joins a master port and a slave port. */
  ghost predicate JoinsRoles(s: seq<Connection>, masters: set<Port>) {
    forall e | e in s :: (e.from.port in masters) != (e.to.port in masters)
  }

  lemma ChainSorted(a: Port, b: Port, c: Port, d: Port)
    requires Ascending(a, b, c, d)
    ensures Sorted(Chain(a, b, c, d), ConnectionLeq)
  {
    hide TextLeq;
    EndLeqTransitive(End(a, 0), End(b, 0), End(c, 0));
    EndLeqTransitive(End(b, 0), End(c, 0), End(d, 0));
    EndLeqTransitive(End(a, 0), End(b, 0), End(d, 0));
  }

  lemma ChainRoles(a: Port, b: Port, c: Port, d: Port)
    requires Different(a, b, c, d)
    ensures JoinsRoles(Chain(a, b, c, d), {b, d})
  {
  }

  lemma ChainFirst(a: Port, b: Port, c: Port, d: Port, e: Connection, j: nat)
    requires e in Chain(a, b, c, d) && j < e.from.index
    ensures HasFrom(Chain(a, b, c, d), End(e.from.port, j))
  {
    var s := Chain(a, b, c, d);
    assert s[1] in s && s[3] in s;
  }

  lemma ChainWellFormed(a: Port, b: Port, c: Port, d: Port)
    requires Different(a, b, c, d)
    ensures WellFormed(Chain(a, b, c, d))
  {
    hide HasFrom;
    var s := Chain(a, b, c, d);
    assert s[2] == Reverse(s[0]) && s[4] == Reverse(s[1]) && s[5] == Reverse(s[3]);
    forall e, j: nat | e in s && j < e.from.index ensures HasFrom(s, End(e.from.port, j)) {
      ChainFirst(a, b, c, d, e, j);
    }
  }

  lemma MadeStep(order: seq<Connection>, e: Connection)
    ensures Made(order + [e]) == if Fits(Made(order), e) then Made(order) + [e] else Made(order)
  {
  }

  lemma ChainCounts(a: Port, b: Port, c: Port, d: Port, p: Port)
    requires Different(a, b, c, d)
    ensures var s := Chain(a, b, c, d);
            && Count([s[3]], p) == (if p == c || p == d then 1 else 0)
            && Count([s[3], s[4]], p) == (if p == c then 2 else if p == b || p == d then 1 else 0)
  {
  }

  lemma EmptyPass()
    ensures Made([]) == [] && forall p :: Count([], p) == 0
  {
  }

  lemma ChainMade(a: Port, b: Port, c: Port, d: Port)
    requires Different(a, b, c, d)
    ensures |Made(Chain(a, b, c, d))| == 2
  {
    hide Made, Count;
    var s := Chain(a, b, c, d);
    EmptyPass();
    ChainCounts(a, b, c, d, a);
    ChainCounts(a, b, c, d, b);
    ChainCounts(a, b, c, d, c);
    ChainCounts(a, b, c, d, d);
    MadeStep([], s[0]);
    MadeStep([s[0]], s[1]);
    MadeStep([s[0], s[1]], s[2]);
    MadeStep([s[0], s[1], s[2]], s[3]);
    MadeStep([s[0], s[1], s[2], s[3]], s[4]);
    MadeStep([s[0], s[1], s[2], s[3], s[4]], s[5]);
    assert [] + [s[0]] == [s[0]] && [s[0]] + [s[1]] == [s[0], s[1]] && [] + [s[3]] == [s[3]];
    assert [s[0], s[1]] + [s[2]] == [s[0], s[1], s[2]] && [s[3]] + [s[4]] == [s[3], s[4]];
    assert [s[0], s[1], s[2]] + [s[3]] == [s[0], s[1], s[2], s[3]];
    assert [s[0], s[1], s[2], s[3]] + [s[4]] == [s[0], s[1], s[2], s[3], s[4]];
    assert [s[0], s[1], s[2], s[3], s[4]] + [s[5]] == s;
  }

  /** Some order of the three links respects all indices. */
  lemma ChainByHand(a: Port, b: Port, c: Port, d: Port) returns (byHand: seq<Connection>)
    requires Different(a, b, c, d)
    ensures InOrder(byHand) && |byHand| == 3 && forall e | e in byHand :: e in Chain(a, b, c, d)
  {
    hide Count, InOrder;
    var s := Chain(a, b, c, d);
    byHand := [s[3], s[4], s[2]];
    EmptyPass();
    assert InOrder([]) by { MadeInOrder([]); }
    ChainCounts(a, b, c, d, a);
    ChainCounts(a, b, c, d, b);
    ChainCounts(a, b, c, d, c);
    InOrderAppend([], s[3]);
    InOrderAppend([s[3]], s[4]);
    InOrderAppend([s[3], s[4]], s[2]);
    assert [] + [s[3]] == [s[3]] && [s[3]] + [s[4]] == [s[3], s[4]] && [s[3], s[4]] + [s[2]] == byHand;
  }

  /**
   * Whatever the names, the pass fails on this wiring of masters with slaves although another
   * order would bind all of it: being sorted does not make one direction of every pair bindable.
   */
  lemma PassMayFail(a: Port, b: Port, c: Port, d: Port) returns (byHand: seq<Connection>)
    requires Ascending(a, b, c, d)
    ensures WellFormed(Chain(a, b, c, d)) && JoinsRoles(Chain(a, b, c, d), {b, d})
    ensures InOrder(byHand) && 2 * |byHand| == |Chain(a, b, c, d)| && forall e | e in byHand :: e in Chain(a, b, c, d)
    ensures 2 * |Made(Sort(Chain(a, b, c, d), ConnectionLeq))| != |Chain(a, b, c, d)|
  {
    ChainWellFormed(a, b, c, d);
    ChainRoles(a, b, c, d);
    ChainSorted(a, b, c, d);
    SortOfSorted(Chain(a, b, c, d), ConnectionLeq);
    ChainMade(a, b, c, d);
    byHand := ChainByHand(a, b, c, d);
  }
}
