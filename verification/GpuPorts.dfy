/**
 * The port numbering shared by two scripts: configs/ruby/GPU_RfO.py fills the list of sequencers,
 * configs/example/apu_se.py walks it with a running index.
 */
module GpuPorts {
  import opened Wrappers
  import opened Arithmetic

  datatype Sequencer =
    | CorePair(controller: nat, half: nat) // the two sequencers of a controller for two CPUs
    | Coalescer(cu: nat)
    | InstCache(sqc: nat)
    | ProcessorData(cp: nat) // a command processor's TCP
    | ProcessorInst(cp: nat) // and its SQC

  datatype Counts = Counts(cpus: nat, cus: nat, cusPerSqc: nat, cps: nat)

  function Pairs(c: Counts): nat {
    (c.cpus + 1) / 2
  }

  /** The ceiling of cus / cusPerSqc. */
  function Sqcs(c: Counts): nat
    requires c.cusPerSqc > 0
  {
    (c.cus + c.cusPerSqc - 1) / c.cusPerSqc
  }

  /** n groups of size d are enough for all, and one fewer is not. */
  ghost predicate Rounded(n: nat, all: nat, d: nat) {
    n * d >= all && (n > 0 ==> (n - 1) * d < all)
  }

  lemma SqcsRound(c: Counts)
    requires c.cusPerSqc > 0
    ensures Rounded(Sqcs(c), c.cus, c.cusPerSqc)
  {
    var m, d := c.cus + c.cusPerSqc - 1, c.cusPerSqc;
    var n := Sqcs(c);
    assert m == n * d + m % d;
    assert (n - 1) * d == n * d - d;
  }

  // ----- The list, in the order of its construction.

  predicate CoreAt(s: seq<Sequencer>, i: nat) {
    2 * i + 1 < |s| && s[2 * i] == CorePair(i, 0) && s[2 * i + 1] == CorePair(i, 1)
  }

  predicate UnitAt(s: seq<Sequencer>, c: Counts, i: nat) {
    var k := 2 * Pairs(c) + i;
    k < |s| && s[k] == Coalescer(i)
  }

  predicate CacheAt(s: seq<Sequencer>, c: Counts, i: nat) {
    var k := 2 * Pairs(c) + c.cus + i;
    k < |s| && s[k] == InstCache(i)
  }

  predicate ProcessorAt(s: seq<Sequencer>, c: Counts, i: nat)
    requires c.cusPerSqc > 0
  {
    var k := 2 * Pairs(c) + c.cus + Sqcs(c) + 2 * i;
    k + 1 < |s| && s[k] == ProcessorData(i) && s[k + 1] == ProcessorInst(i)
  }

  /** What every position of the list holds. */
  ghost predicate Listed(s: seq<Sequencer>, c: Counts)
    requires c.cusPerSqc > 0
  {
    && |s| == 2 * Pairs(c) + c.cus + Sqcs(c) + 2 * c.cps
    && (forall i: nat | i < Pairs(c) :: CoreAt(s, i))
    && (forall i: nat | i < c.cus :: UnitAt(s, c, i))
    && (forall i: nat | i < Sqcs(c) :: CacheAt(s, c, i))
    && (forall i: nat | i < c.cps :: ProcessorAt(s, c, i))
  }

  function Cores(n: nat): seq<Sequencer> {
    if n == 0 then [] else Cores(n - 1) + [CorePair(n - 1, 0), CorePair(n - 1, 1)]
  }

  function Units(n: nat): seq<Sequencer> {
    if n == 0 then [] else Units(n - 1) + [Coalescer(n - 1)]
  }

  function Caches(n: nat): seq<Sequencer> {
    if n == 0 then [] else Caches(n - 1) + [InstCache(n - 1)]
  }

  function Processors(n: nat): seq<Sequencer> {
    if n == 0 then [] else Processors(n - 1) + [ProcessorData(n - 1), ProcessorInst(n - 1)]
  }

  lemma {:induction false} CoresAre(n: nat)
    ensures |Cores(n)| == 2 * n
    ensures forall i: nat | i < n :: Cores(n)[2 * i] == CorePair(i, 0) && Cores(n)[2 * i + 1] == CorePair(i, 1)
  {
    if n > 0 {
      CoresAre(n - 1);
    }
  }

  lemma {:induction false} UnitsAre(n: nat)
    ensures |Units(n)| == n && forall i: nat | i < n :: Units(n)[i] == Coalescer(i)
  {
    if n > 0 {
      UnitsAre(n - 1);
    }
  }

  lemma {:induction false} CachesAre(n: nat)
    ensures |Caches(n)| == n && forall i: nat | i < n :: Caches(n)[i] == InstCache(i)
  {
    if n > 0 {
      CachesAre(n - 1);
    }
  }

  lemma {:induction false} ProcessorsAre(n: nat)
    ensures |Processors(n)| == 2 * n
    ensures forall i: nat | i < n ::
              Processors(n)[2 * i] == ProcessorData(i) && Processors(n)[2 * i + 1] == ProcessorInst(i)
  {
    if n > 0 {
      ProcessorsAre(n - 1);
    }
  }

  lemma PartAt(before: seq<Sequencer>, part: seq<Sequencer>, after: seq<Sequencer>, k: nat)
    requires k < |part|
    ensures (before + part + after)[|before| + k] == part[k]
  {
  }

  function All(c: Counts): seq<Sequencer>
    requires c.cusPerSqc > 0
  {
    Cores(Pairs(c)) + Units(c.cus) + Caches(Sqcs(c)) + Processors(c.cps)
  }

  lemma PartLengths(c: Counts)
    requires c.cusPerSqc > 0
    ensures |Cores(Pairs(c))| == 2 * Pairs(c) && |Units(c.cus)| == c.cus
    ensures |Caches(Sqcs(c))| == Sqcs(c) && |Processors(c.cps)| == 2 * c.cps
  {
    hide Pairs, Sqcs;
    CoresAre(Pairs(c));
    UnitsAre(c.cus);
    CachesAre(Sqcs(c));
    ProcessorsAre(c.cps);
  }

  lemma CoreListed(c: Counts, i: nat)
    requires c.cusPerSqc > 0 && i < Pairs(c)
    ensures CoreAt(All(c), i)
  {
    hide Pairs, Sqcs, Cores;
    CoresAre(Pairs(c));
  }

  lemma UnitListed(c: Counts, i: nat)
    requires c.cusPerSqc > 0 && i < c.cus
    ensures UnitAt(All(c), c, i)
  {
    hide Pairs, Sqcs, Cores, Units, Caches, Processors;
    UnitsAre(c.cus);
    PartLengths(c);
    PartAt(Cores(Pairs(c)), Units(c.cus), Caches(Sqcs(c)) + Processors(c.cps), i);
    assert All(c) == Cores(Pairs(c)) + Units(c.cus) + (Caches(Sqcs(c)) + Processors(c.cps));
  }

  lemma CacheListed(c: Counts, i: nat)
    requires c.cusPerSqc > 0 && i < Sqcs(c)
    ensures CacheAt(All(c), c, i)
  {
    hide Pairs, Sqcs, Cores, Units, Caches, Processors;
    CachesAre(Sqcs(c));
    PartLengths(c);
    PartAt(Cores(Pairs(c)) + Units(c.cus), Caches(Sqcs(c)), Processors(c.cps), i);
  }

  lemma ProcessorListed(c: Counts, i: nat)
    requires c.cusPerSqc > 0 && i < c.cps
    ensures ProcessorAt(All(c), c, i)
  {
    hide Pairs, Sqcs, Cores, Units, Caches, Processors;
    ProcessorsAre(c.cps);
    PartLengths(c);
    var before := Cores(Pairs(c)) + Units(c.cus) + Caches(Sqcs(c));
    PartAt(before, Processors(c.cps), [], 2 * i);
    PartAt(before, Processors(c.cps), [], 2 * i + 1);
    assert All(c) == before + Processors(c.cps) + [];
  }

  lemma AllListed(c: Counts)
    requires c.cusPerSqc > 0
    ensures Listed(All(c), c)
  {
    PartLengths(c);
    assert |All(c)| == 2 * Pairs(c) + c.cus + Sqcs(c) + 2 * c.cps;
    hide All, Pairs, Sqcs, CoreAt, UnitAt, CacheAt, ProcessorAt;
    forall i: nat | i < Pairs(c) {
      CoreListed(c, i);
    }
    forall i: nat | i < c.cus {
      UnitListed(c, i);
    }
    forall i: nat | i < Sqcs(c) {
      CacheListed(c, i);
    }
    forall i: nat | i < c.cps {
      ProcessorListed(c, i);
    }
  }

  /** The loops that extend the list. */
  method CreateSystem(c: Counts) returns (s: seq<Sequencer>)
    requires c.cusPerSqc > 0
    ensures Listed(s, c)
    ensures exists sqcs: nat ::
              Rounded(sqcs, c.cus, c.cusPerSqc) && |s| == (c.cpus + 1) / 2 * 2 + c.cus + sqcs + c.cps * 2
  {
    SqcsRound(c);
    assert Pairs(c) == (c.cpus + 1) / 2;
    hide Listed, Pairs, Sqcs, Rounded;
    s := [];
    for i := 0 to Pairs(c)
      invariant s == Cores(i)
    {
      s := s + [CorePair(i, 0), CorePair(i, 1)];
    }
    ghost var before := s;
    for i := 0 to c.cus
      invariant s == before + Units(i)
    {
      s := s + [Coalescer(i)];
    }
    before := s;
    for i := 0 to Sqcs(c)
      invariant s == before + Caches(i)
    {
      s := s + [InstCache(i)];
    }
    before := s;
    for i := 0 to c.cps
      invariant s == before + Processors(i)
    {
      s := s + [ProcessorData(i), ProcessorInst(i)];
    }
    AllListed(c);
    ListedLength(s, c);
  }

  lemma ListedLength(s: seq<Sequencer>, c: Counts)
    requires c.cusPerSqc > 0 && Listed(s, c)
    ensures |s| == 2 * Pairs(c) + c.cus + Sqcs(c) + 2 * c.cps
  {
  }

  // ----- Walking the list.

  /** The instruction cache of a compute unit. */
  function Group(i: nat, perGroup: nat): nat
    requires perGroup > 0
  {
    i / perGroup
  }

  lemma FirstGroup(d: nat)
    requires d > 0
    ensures Group(0, d) == 0
  {
  }

  /** Moving to the next unit moves to the next instruction cache at multiples of the group size. */
  lemma NextGroup(i: nat, d: nat)
    requires d > 0
    ensures Group(i + 1, d) == Group(i, d) + if (i + 1) % d == 0 then 1 else 0
  {
    var q, r := i / d, i % d;
    if r + 1 == d {
      assert i + 1 == (q + 1) * d + 0;
      DivIs(i + 1, d, q + 1, 0);
    } else {
      DivIs(i + 1, d, q, r + 1);
    }
  }

  /** The last unit is in the last of the groups. */
  lemma LastGroup(c: Counts)
    requires c.cusPerSqc > 0
    ensures Sqcs(c) == if c.cus == 0 then 0 else Group(c.cus - 1, c.cusPerSqc) + 1
  {
    var n, d := c.cus, c.cusPerSqc;
    if n == 0 {
      DivIs(d - 1, d, 0, d - 1);
    } else {
      var q, r := (n - 1) / d, (n - 1) % d;
      assert n + d - 1 == (q + 1) * d + r;
      DivIs(n + d - 1, d, q + 1, r);
    }
  }

  lemma GroupsRise(i: nat, j: nat, d: nat)
    requires d > 0 && i <= j
    ensures Group(i, d) <= Group(j, d)
  {
    DivMonotone(i, j, d);
  }

  /** What each processor's ports are connected to. */
  datatype Wiring = Wiring(core: seq<Sequencer>, memory: seq<Sequencer>, inst: seq<Sequencer>,
                           cpData: seq<Sequencer>, cpInst: seq<Sequencer>)

  /** Every port goes to the sequencer made for it. */
  ghost predicate Matches(w: Wiring, c: Counts)
    requires c.cusPerSqc > 0
  {
    && |w.core| == c.cpus && |w.memory| == |w.inst| == c.cus && |w.cpData| == |w.cpInst| == c.cps
    && (forall i: nat | i < c.cpus :: w.core[i] == CorePair(i / 2, i % 2))
    && (forall i: nat | i < c.cus :: w.memory[i] == Coalescer(i) && w.inst[i] == InstCache(Group(i, c.cusPerSqc)))
    && (forall i: nat | i < c.cps :: w.cpData[i] == ProcessorData(i) && w.cpInst[i] == ProcessorInst(i))
  }

  method AttachCores(s: seq<Sequencer>, c: Counts) returns (core: seq<Sequencer>)
    requires c.cusPerSqc > 0 && Listed(s, c)
    ensures |core| == c.cpus && forall i: nat | i < c.cpus :: core[i] == CorePair(i / 2, i % 2)
  {
    core := [];
    for i := 0 to c.cpus
      invariant |core| == i && forall k: nat | k < i :: core[k] == CorePair(k / 2, k % 2)
    {
      var p: nat := i / 2;
      assert p < Pairs(c) && (i == 2 * p || i == 2 * p + 1) && CoreAt(s, p);
      core := core + [s[i]];
    }
  }

  method AttachInst(s: seq<Sequencer>, c: Counts, start: nat) returns (inst: seq<Sequencer>, idx: nat)
    requires c.cusPerSqc > 0 && Listed(s, c) && start == 2 * Pairs(c) + c.cus
    ensures |inst| == c.cus && forall i: nat | i < c.cus :: inst[i] == InstCache(Group(i, c.cusPerSqc))
    ensures c.cus > 0 ==> idx + 1 == start + Sqcs(c)
  {
    LastGroup(c);
    FirstGroup(c.cusPerSqc);
    hide Group, Sqcs;
    inst, idx := [], start;
    for i := 0 to c.cus
      invariant |inst| == i && idx == start + if i == 0 then 0 else Group(i - 1, c.cusPerSqc)
      invariant forall k: nat | k < i :: inst[k] == InstCache(Group(k, c.cusPerSqc))
    {
      if i > 0 {
        NextGroup(i - 1, c.cusPerSqc);
      }
      if i > 0 && i % c.cusPerSqc == 0 {
        idx := idx + 1;
      }
      GroupsRise(i, c.cus - 1, c.cusPerSqc);
      assert CacheAt(s, c, Group(i, c.cusPerSqc));
      inst := inst + [s[idx]];
    }
  }

  method AttachMemory(s: seq<Sequencer>, c: Counts, start: nat) returns (memory: seq<Sequencer>, idx: nat)
    requires c.cusPerSqc > 0 && Listed(s, c) && start == 2 * Pairs(c)
    ensures |memory| == c.cus && idx == start + c.cus && forall i: nat | i < c.cus :: memory[i] == Coalescer(i)
  {
    hide Sqcs, Pairs;
    memory, idx := [], start;
    for i := 0 to c.cus
      invariant idx == start + i && |memory| == i
      invariant forall k: nat | k < i :: memory[k] == Coalescer(k)
    {
      assert UnitAt(s, c, i);
      memory := memory + [s[idx]];
      idx := idx + 1;
    }
  }

  /** Where the sequencers of the command processors begin. */
  function FirstProcessor(c: Counts): nat
    requires c.cusPerSqc > 0
  {
    2 * Pairs(c) + c.cus + Sqcs(c)
  }

  lemma ProcessorIs(s: seq<Sequencer>, c: Counts, i: nat, at: nat)
    requires c.cusPerSqc > 0 && Listed(s, c) && i < c.cps && at == FirstProcessor(c) + i * 2
    ensures at + 1 < |s| && s[at] == ProcessorData(i) && s[at + 1] == ProcessorInst(i)
  {
    hide Sqcs, Pairs;
    assert ProcessorAt(s, c, i);
  }

  method AttachProcessors(s: seq<Sequencer>, c: Counts, start: nat) returns (data: seq<Sequencer>, inst: seq<Sequencer>)
    requires c.cusPerSqc > 0 && Listed(s, c) && start == FirstProcessor(c)
    ensures |data| == |inst| == c.cps
    ensures forall i: nat | i < c.cps :: data[i] == ProcessorData(i) && inst[i] == ProcessorInst(i)
  {
    hide FirstProcessor, Listed;
    data, inst := [], [];
    for i := 0 to c.cps
      invariant |data| == |inst| == i
      invariant forall k: nat | k < i :: data[k] == ProcessorData(k)
      invariant forall k: nat | k < i :: inst[k] == ProcessorInst(k)
    {
      var at := start + i * 2;
      ProcessorIs(s, c, i, at);
      data, inst := data + [s[at]], inst + [s[at + 1]];
    }
  }

  /** The walk of apu_se.py; no index is out of range. */
  method Attach(s: seq<Sequencer>, c: Counts) returns (w: Wiring)
    requires c.cus > 0 && c.cusPerSqc > 0 && Listed(s, c)
    ensures Matches(w, c)
  {
    hide Group, Sqcs, Pairs;
    var core := AttachCores(s, c);
    var idx := |s| - c.cus - Sqcs(c) - c.cps * 2;
    var memory, inst, cpData, cpInst;
    memory, idx := AttachMemory(s, c, idx);
    inst, idx := AttachInst(s, c, idx);
    cpData, cpInst := AttachProcessors(s, c, idx + 1);
    w := Wiring(core, memory, inst, cpData, cpInst);
  }

  datatype Failure = NoComputeUnits | DivisionByZero

  /** The two scripts together, from the assertion about compute units on. */
  method Connect(c: Counts) returns (r: Result<Wiring, Failure>)
    ensures r.Ok? <==> c.cus > 0 && c.cusPerSqc > 0
    ensures r.Ok? ==> Matches(r.value, c)
    ensures r.Err? ==> r.error == if c.cus == 0 then NoComputeUnits else DivisionByZero
  {
    if c.cus < 1 {
      return Err(NoComputeUnits);
    }
    if c.cusPerSqc == 0 {
      return Err(DivisionByZero);
    }
    var s := CreateSystem(c);
    var w := Attach(s, c);
    r := Ok(w);
  }
}
