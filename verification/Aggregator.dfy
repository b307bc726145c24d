/**
 * Merging several checkpoints into one, as util/checkpoint_aggregator.py does: memory images are
 * concatenated page by page, physical addresses are moved along, and sections that belong to
 * processors are renamed.
 */
module Aggregator {
  import opened Wrappers
  import opened Text

  type Byte = b: int | 0 <= b < 256

  const PAGE: nat := 4096

  datatype Section = Section(name: string, items: map<string, string>)

  datatype Checkpoint = Checkpoint(pages: nat, memory: seq<Byte>, sections: seq<Section>, curTick: Option<int>)

  // ----- Memory.

  /** The image is as long as its page count says. */
  predicate Full(c: Checkpoint) {
    |c.memory| >= c.pages * PAGE
  }

  /** page_ptr before checkpoint n is read. */
  function PagePtr(cpts: seq<Checkpoint>, n: nat): nat
    requires n <= |cpts|
  {
    if n == 0 then 0 else PagePtr(cpts, n - 1) + cpts[n - 1].pages
  }

  /** Where the memory of checkpoint n goes: the offset added to its addresses. */
  function Base(cpts: seq<Checkpoint>, n: nat): nat
    requires n <= |cpts|
  {
    PagePtr(cpts, n) * PAGE
  }

  function Least(a: nat, b: nat): nat {
    if a <= b then a else b
  }

  /** What is read of one image: its pages, or less if the image is short. */
  function ImageOf(c: Checkpoint): seq<Byte> {
    c.memory[..Least(c.pages * PAGE, |c.memory|)]
  }

  function Images(cpts: seq<Checkpoint>): seq<Byte> {
    if cpts == [] then [] else Images(cpts[..|cpts| - 1]) + ImageOf(cpts[|cpts| - 1])
  }

  /** Reading an image page by page; reads past its end give nothing. */
  method CopyPages(c: Checkpoint, out: seq<Byte>) returns (more: seq<Byte>)
    ensures more == out + ImageOf(c)
  {
    more := out;
    var at := 0;
    for x := 0 to c.pages
      invariant at == Least(x * PAGE, |c.memory|)
      invariant more == out + c.memory[..at]
    {
      var stop := Least(at + PAGE, |c.memory|);
      assert c.memory[..at] + c.memory[at..stop] == c.memory[..stop];
      more := more + c.memory[at..stop];
      at := stop;
    }
  }

  lemma {:induction false} PagePtrPrefix(cpts: seq<Checkpoint>, k: nat, n: nat)
    requires n <= k <= |cpts|
    ensures PagePtr(cpts[..k], n) == PagePtr(cpts, n)
  {
    if n > 0 {
      PagePtrPrefix(cpts, k, n - 1);
    }
  }

  lemma {:induction false} ImagesLength(cpts: seq<Checkpoint>)
    ensures |Images(cpts)| <= Base(cpts, |cpts|)
    ensures |Images(cpts)| == Base(cpts, |cpts|) <==> forall i | 0 <= i < |cpts| :: Full(cpts[i])
  {
    if cpts != [] {
      var n := |cpts| - 1;
      ImagesLength(cpts[..n]);
      PagePtrPrefix(cpts, n, n);
      assert cpts == cpts[..n] + [cpts[n]];
    }
  }

  /** The images of the first checkpoints are the start of what is written. */
  lemma {:induction false} ImagesPrefix(cpts: seq<Checkpoint>, n: nat)
    requires n <= |cpts|
    ensures Images(cpts[..n]) <= Images(cpts)
    decreases |cpts|
  {
    if n == |cpts| {
      assert cpts[..n] == cpts;
    } else {
      ImagesPrefix(cpts[..|cpts| - 1], n);
      assert cpts[..|cpts| - 1][..n] == cpts[..n];
    }
  }

  /** Where the image of checkpoint i begins in what is written. */
  function Start(cpts: seq<Checkpoint>, i: nat): nat
    requires i <= |cpts|
  {
    |Images(cpts[..i])|
  }

  /** An image begins at its base exactly when every image before it is full, and too early otherwise. */
  lemma StartIsBase(cpts: seq<Checkpoint>, i: nat)
    requires i <= |cpts|
    ensures Start(cpts, i) <= Base(cpts, i)
    ensures Start(cpts, i) == Base(cpts, i) <==> forall j | 0 <= j < i :: Full(cpts[j])
  {
    var before := cpts[..i];
    assert forall j | 0 <= j < i :: before[j] == cpts[j];
    ImagesLength(before);
    PagePtrPrefix(cpts, i, i);
  }

  lemma ImagesStep(cpts: seq<Checkpoint>, n: nat)
    requires n < |cpts|
    ensures Images(cpts[..n + 1]) == Images(cpts[..n]) + ImageOf(cpts[n])
  {
    assert cpts[..n + 1][..n] == cpts[..n];
  }

  lemma PrefixAt(x: seq<Byte>, y: seq<Byte>, whole: seq<Byte>, a: nat)
    requires x + y <= whole && a < |y|
    ensures |x| + a < |whole| && whole[|x| + a] == y[a]
  {
  }

  /** Every byte read of a checkpoint is written, counted from where its image begins. */
  lemma ImagePlaced(cpts: seq<Checkpoint>, i: nat, a: nat)
    requires i < |cpts| && a < |cpts[i].memory| && a < 4096 * cpts[i].pages
    ensures Start(cpts, i) + a < |Images(cpts)| && Images(cpts)[Start(cpts, i) + a] == cpts[i].memory[a]
  {
    hide Images;
    ImagesPrefix(cpts, i + 1);
    ImagesStep(cpts, i);
    PrefixAt(Images(cpts[..i]), ImageOf(cpts[i]), Images(cpts), a);
  }

  /** Images follow each other without gaps, each as long as its pages or as itself if that is less. */
  lemma StartNext(cpts: seq<Checkpoint>, i: nat)
    requires i < |cpts|
    ensures Start(cpts, 0) == 0 && Start(cpts, |cpts|) == |Images(cpts)|
    ensures var size := 4096 * cpts[i].pages;
            Start(cpts, i + 1) == Start(cpts, i) + if size <= |cpts[i].memory| then size else |cpts[i].memory|
  {
    ImagesStep(cpts, i);
    assert cpts[..|cpts|] == cpts && cpts[..0] == [];
  }

  /**
   * A checkpoint of one page whose image is empty: the image of the next one begins a page
   * before its base, and the byte at its address 0 is past the end of what is written.
   */
  lemma ShortImageShifts(c: Checkpoint, d: Checkpoint)
    requires c.pages == 1 && c.memory == [] && d.pages == 1 && |d.memory| == PAGE
    ensures Start([c, d], 1) == 0 && Base([c, d], 1) == PAGE == |Images([c, d])|
  {
    var cpts := [c, d];
    assert cpts[..0] == [] && cpts[..1] == [c] && [c][..0] == [];
    ImagesStep(cpts, 0);
    ImagesStep(cpts, 1);
    assert cpts[..2] == cpts;
    assert PagePtr(cpts, 0) == 0 && PagePtr(cpts, 1) == 1;
  }

  lemma {:induction false} BasesRise(cpts: seq<Checkpoint>, i: nat, j: nat)
    requires i <= j <= |cpts|
    ensures Base(cpts, i) <= Base(cpts, j)
  {
    if i < j {
      BasesRise(cpts, i, j - 1);
    }
  }

  /** The regions of the checkpoints do not overlap and leave no hole. */
  lemma RegionsTile(cpts: seq<Checkpoint>, address: nat)
    requires address < Base(cpts, |cpts|)
    ensures exists i: nat :: InRegion(cpts, i, address)
    ensures forall i: nat, j: nat | InRegion(cpts, i, address) && InRegion(cpts, j, address) :: i == j
  {
    FindRegion(cpts, |cpts|, address);
    forall i: nat, j: nat | InRegion(cpts, i, address) && InRegion(cpts, j, address) ensures i == j {
      if i < j {
        BasesRise(cpts, i + 1, j);
      } else if j < i {
        BasesRise(cpts, j + 1, i);
      }
    }
  }

  ghost predicate InRegion(cpts: seq<Checkpoint>, i: nat, address: nat) {
    i < |cpts| && Base(cpts, i) <= address < Base(cpts, i + 1)
  }

  lemma {:induction false} FindRegion(cpts: seq<Checkpoint>, n: nat, address: nat)
    requires n <= |cpts| && address < Base(cpts, n)
    ensures exists i: nat :: InRegion(cpts, i, address)
  {
    if address < Base(cpts, n - 1) {
      FindRegion(cpts, n - 1, address);
    } else {
      assert InRegion(cpts, n - 1, address);
    }
  }

  // ----- Padding.

  /** "".zfill(4096): the character 0, not the byte 0. */
  function Zeros(n: nat): (s: seq<Byte>)
    ensures |s| == n && forall i | 0 <= i < n :: s[i] == 48
  {
    if n == 0 then [] else Zeros(n - 1) + [48]
  }

  method Pad(memory: seq<Byte>, pagePtr: nat, memorySize: int) returns (padded: seq<Byte>, pages: nat)
    ensures memory <= padded && (forall i | |memory| <= i < |padded| :: padded[i] == 48)
    ensures pages >= pagePtr && |padded| - |memory| == (pages - pagePtr) * PAGE
    ensures pages * PAGE >= memorySize
    ensures pages > pagePtr ==> pages * PAGE < memorySize + PAGE
  {
    padded, pages := memory, pagePtr;
    var fileSize := pagePtr * PAGE;
    while fileSize < memorySize
      invariant fileSize == pages * PAGE && pages >= pagePtr
      invariant memory <= padded && (forall i | |memory| <= i < |padded| :: padded[i] == 48)
      invariant |padded| - |memory| == (pages - pagePtr) * PAGE
      invariant pages > pagePtr ==> fileSize < memorySize + PAGE
    {
      padded := padded + Zeros(PAGE);
      fileSize, pages := fileSize + PAGE, pages + 1;
    }
  }

  // ----- Renaming the sections of processors.

  predicate StartsCpu(s: string) {
    |s| >= 3 && s[0] == 'c' && s[1] == 'p' && s[2] == 'u'
  }

  /** re.search for "cpu". */
  predicate HasCpu(s: string) {
    StartsCpu(s) || (s != [] && HasCpu(s[1..]))
  }

  /** re.sub of "cpu" by "cpu" and a tag. */
  function Sub(s: string, tag: string): string {
    if StartsCpu(s) then "cpu" + tag + Sub(s[3..], tag)
    else if s == [] then []
    else [s[0]] + Sub(s[1..], tag)
  }

  /** str.zfill of a number. */
  function Tag(i: nat, width: nat): string {
    Padding(width - |Dec(i)|) + Dec(i)
  }

  function Padding(n: int): (s: string)
    ensures AllDigits(s) && |s| == if n <= 0 then 0 else n
  {
    if n <= 0 then [] else ['0'] + Padding(n - 1)
  }

  lemma {:induction false} PaddedValue(n: int, s: string)
    requires AllDigits(s)
    ensures Value(Padding(n) + s) == Value(s)
  {
    if s != [] {
      var all := Padding(n) + s;
      PaddedValue(n, s[..|s| - 1]);
      assert all[..|all| - 1] == Padding(n) + s[..|s| - 1];
    } else {
      assert Padding(n) + s == Padding(n);
      ZeroValue(n);
    }
  }

  lemma {:induction false} ZeroValue(n: int)
    ensures Value(Padding(n)) == 0
    decreases n
  {
    if n > 0 {
      PaddingBack(n);
      var s := Padding(n);
      assert s[..|s| - 1] == Padding(n - 1);
      ZeroValue(n - 1);
    }
  }

  lemma {:induction false} PaddingBack(n: int)
    requires n > 0
    ensures Padding(n) == Padding(n - 1) + ['0']
  {
    if n > 1 {
      PaddingBack(n - 1);
    }
  }

  /** The number of the checkpoint in decimal, with zeros in front of it up to the width. */
  lemma TagIs(i: nat, width: nat)
    ensures AllDigits(Tag(i, width)) && Value(Tag(i, width)) == i
    ensures |Tag(i, width)| == if |Dec(i)| > width then |Dec(i)| else width
  {
    PaddedValue(width - |Dec(i)|, Dec(i));
    ValueOfDec(i);
  }

  lemma TagsDiffer(i: nat, j: nat, width: nat)
    requires Tag(i, width) == Tag(j, width)
    ensures i == j
  {
    TagIs(i, width);
    TagIs(j, width);
  }

  ghost predicate CpuAfter(s: string, before: string, after: string) {
    s == before + "cpu" + after
  }

  lemma CpuNotFirst(s: string, before: string, after: string)
    requires CpuAfter(s, before, after)
    ensures before == [] ==> StartsCpu(s)
  {
    assert s[|before|] == 'c' && s[|before| + 1] == 'p' && s[|before| + 2] == 'u';
  }

  /** re.search finds cpu anywhere. */
  lemma {:induction false} HasCpuMeans(s: string)
    ensures HasCpu(s) <==> exists before, after :: CpuAfter(s, before, after)
  {
    if StartsCpu(s) {
      assert s == "" + "cpu" + s[3..];
      assert CpuAfter(s, "", s[3..]);
    } else if s != [] {
      HasCpuMeans(s[1..]);
      if HasCpu(s[1..]) {
        var before, after :| CpuAfter(s[1..], before, after);
        assert s == [s[0]] + before + "cpu" + after;
        assert CpuAfter(s, [s[0]] + before, after);
      }
      if before, after :| CpuAfter(s, before, after) {
        CpuNotFirst(s, before, after);
        assert s[1..] == before[1..] + "cpu" + after;
        assert CpuAfter(s[1..], before[1..], after);
      }
    }
  }

  /** The pieces with a text between any two of them. */
  function Between(pieces: seq<string>, sep: string): string {
    if pieces == [] then ""
    else if |pieces| == 1 then pieces[0]
    else pieces[0] + sep + Between(pieces[1..], sep)
  }

  /** The tag is put after every cpu in a name, and nothing else changes. */
  ghost predicate Renamed(name: string, renamed: string, tag: string) {
    exists pieces: seq<string> :: pieces != [] && (forall p | p in pieces :: !HasCpu(p))
      && name == Between(pieces, "cpu") && renamed == Between(pieces, "cpu" + tag)
  }

  lemma CpuStep(s: string)
    requires s != []
    ensures HasCpu(s) <==> StartsCpu(s) || HasCpu(s[1..])
  {
  }

  lemma {:induction false} SubPlain(p: string, rest: string, tag: string)
    requires !HasCpu(p) && (rest == [] || StartsCpu(rest))
    ensures Sub(p + rest, tag) == p + Sub(rest, tag)
  {
    hide Sub, HasCpu, StartsCpu;
    if p == [] {
      assert p + rest == rest;
    } else {
      CpuStep(p);
      NoCpuAcross(p, rest);
      SubParts(p + rest, tag);
      assert (p + rest)[1..] == p[1..] + rest && (p + rest)[0] == p[0];
      SubPlain(p[1..], rest, tag);
      assert p == [p[0]] + p[1..];
    }
  }

  lemma NoCpuAcross(p: string, rest: string)
    requires p != [] && !HasCpu(p) && (rest == [] || StartsCpu(rest))
    ensures !StartsCpu(p + rest)
  {
    var s := p + rest;
    assert |p| >= 3 ==> s[..3] == p[..3];
    if |p| < 3 && rest != [] {
      assert s[|p|] == 'c';
    }
  }

  lemma {:induction false} SubBetween(pieces: seq<string>, tag: string)
    requires pieces != [] && forall p | p in pieces :: !HasCpu(p)
    ensures Sub(Between(pieces, "cpu"), tag) == Between(pieces, "cpu" + tag)
  {
    if |pieces| == 1 {
      SubPlain(pieces[0], "", tag);
      assert pieces[0] + "" == pieces[0];
    } else {
      var rest := "cpu" + Between(pieces[1..], "cpu");
      assert Between(pieces, "cpu") == pieces[0] + rest;
      SubPlain(pieces[0], rest, tag);
      assert rest[3..] == Between(pieces[1..], "cpu");
      SubBetween(pieces[1..], tag);
    }
  }

  /** Every name is cut at its occurrences of cpu. */
  lemma {:induction false} Cut(s: string) returns (pieces: seq<string>)
    ensures pieces != [] && (forall p | p in pieces :: !HasCpu(p)) && s == Between(pieces, "cpu")
  {
    if s == [] {
      pieces := [""];
    } else if StartsCpu(s) {
      pieces := Cut(s[3..]);
      pieces := [""] + pieces;
      assert pieces[1..] == pieces[1..];
      assert s == "cpu" + s[3..];
    } else {
      var more := Cut(s[1..]);
      HeadPiece(s, more);
      pieces := [[s[0]] + more[0]] + more[1..];
    }
  }

  lemma HeadPiece(s: string, more: seq<string>)
    requires s != [] && !StartsCpu(s) && more != [] && (forall p | p in more :: !HasCpu(p))
    requires s[1..] == Between(more, "cpu")
    ensures var pieces := [[s[0]] + more[0]] + more[1..];
            (forall p | p in pieces :: !HasCpu(p)) && s == Between(pieces, "cpu")
  {
    hide HasCpu, StartsCpu, Between;
    var head := [s[0]] + more[0];
    var pieces := [head] + more[1..];
    BetweenHead(more, s[0]);
    assert s == [s[0]] + s[1..];
    BetweenBegins(pieces);
    if StartsCpu(head) {
      StartsLonger(head, s);
    }
    CpuStep(head);
    assert head[1..] == more[0] && more[0] in more;
    forall p | p in pieces ensures !HasCpu(p) {
      assert p == head || p in more[1..];
    }
  }

  lemma BetweenHead(more: seq<string>, c: char)
    requires more != []
    ensures Between([[c] + more[0]] + more[1..], "cpu") == [c] + Between(more, "cpu")
  {
    BetweenStep(more);
    BetweenStep([[c] + more[0]] + more[1..]);
    hide Between;
    assert ([[c] + more[0]] + more[1..])[1..] == more[1..];
    var rest := "cpu" + Between(more[1..], "cpu");
    assert [c] + more[0] + rest == [c] + (more[0] + rest);
  }

  lemma BetweenStep(pieces: seq<string>)
    requires pieces != []
    ensures Between(pieces, "cpu") ==
            if |pieces| == 1 then pieces[0] else pieces[0] + ("cpu" + Between(pieces[1..], "cpu"))
  {
  }

  lemma BetweenBegins(pieces: seq<string>)
    requires pieces != []
    ensures pieces[0] <= Between(pieces, "cpu")
  {
  }

  lemma StartsLonger(p: string, s: string)
    requires p <= s && StartsCpu(p)
    ensures StartsCpu(s)
  {
  }

  lemma SubMeans(s: string, t: string, tag: string)
    ensures Sub(s, tag) == t <==> Renamed(s, t, tag)
  {
    hide Sub, HasCpu, Between;
    if Sub(s, tag) == t {
      var pieces := Cut(s);
      SubBetween(pieces, tag);
    }
    if Renamed(s, t, tag) {
      var pieces: seq<string> :| pieces != [] && (forall p | p in pieces :: !HasCpu(p))
        && s == Between(pieces, "cpu") && t == Between(pieces, "cpu" + tag);
      SubBetween(pieces, tag);
    }
  }

  lemma SubHead(s: string, tag: string)
    ensures s == [] <==> Sub(s, tag) == []
    ensures s != [] ==> Sub(s, tag)[0] == s[0]
  {
  }

  /** Renaming does not make a name start like a processor's. */
  lemma SubStarts(s: string, tag: string)
    ensures StartsCpu(Sub(s, tag)) <==> StartsCpu(s)
  {
    SubHead(s, tag);
    if !StartsCpu(s) && s != [] {
      var t := s[1..];
      SubHead(t, tag);
      if t != [] && t[0] == 'p' {
        SubHead(t[1..], tag);
      }
    }
  }

  lemma SubParts(s: string, tag: string)
    ensures StartsCpu(s) ==> Sub(s, tag)[3..] == tag + Sub(s[3..], tag)
    ensures !StartsCpu(s) && s != [] ==>
              Sub(s, tag) == [s[0]] + Sub(s[1..], tag) && Sub(s, tag)[1..] == Sub(s[1..], tag)
  {
    if StartsCpu(s) {
      assert "cpu" + tag + Sub(s[3..], tag) == "cpu" + (tag + Sub(s[3..], tag));
    }
  }

  /** A renamed section tells both its old name and its tag. */
  lemma {:induction false} SubApart(s: string, a: string, t: string, b: string)
    requires |a| == |b| && Sub(s, a) == Sub(t, b)
    ensures s == t && (HasCpu(s) ==> a == b)
    decreases |s|
  {
    SubStarts(s, a);
    SubStarts(t, b);
    SubParts(s, a);
    SubParts(t, b);
    if StartsCpu(s) {
      var u, v := a + Sub(s[3..], a), b + Sub(t[3..], b);
      assert u == v && u[..|a|] == a && v[..|b|] == b && u[|a|..] == Sub(s[3..], a) && v[|b|..] == Sub(t[3..], b);
      SubApart(s[3..], a, t[3..], b);
      assert s == "cpu" + s[3..] && t == "cpu" + t[3..];
    } else if s != [] && t != [] {
      SubApart(s[1..], a, t[1..], b);
      assert s == [s[0]] + s[1..] && t == [t[0]] + t[1..];
    }
  }

  lemma {:induction false} SubKeepsCpu(s: string, tag: string)
    ensures HasCpu(s) ==> HasCpu(Sub(s, tag))
    ensures !HasCpu(s) ==> Sub(s, tag) == s
  {
    SubStarts(s, tag);
    SubParts(s, tag);
    if !StartsCpu(s) && s != [] {
      SubKeepsCpu(s[1..], tag);
      assert [s[0]] + s[1..] == s;
    }
  }

  // ----- Merging the sections.

  datatype MergeError = NoCheckpoints | BadAddress | NoStore

  /** A section named ...workload.FdMap256, whatever stands for the dot. */
  predicate IsFdMap(name: string) {
    var n := |name|;
    n >= 17 && name[n - 8..] == "FdMap256" && name[n - 17..n - 9] == "workload"
  }

  lemma FdMapMeans(name: string)
    ensures IsFdMap(name) <==> exists before: string, c: char :: name == before + "workload" + [c] + "FdMap256"
  {
    var n := |name|;
    if IsFdMap(name) {
      assert name == name[..n - 17] + name[n - 17..n - 9] + [name[n - 9]] + name[n - 8..];
    }
    if before: string, c: char :| name == before + "workload" + [c] + "FdMap256" {
      assert name[n - 8..] == "FdMap256" && name[n - 17..n - 9] == "workload";
    }
  }

  /** The address moves by the base; everything else stays. */
  function Moved(items: map<string, string>, base: nat): Result<map<string, string>, MergeError> {
    if "paddr" !in items then Ok(items)
    else
      var v := ParseInt(items["paddr"]);
      if v == None then Err(BadAddress) else Ok(items["paddr" := DecInt(v.value + base)])
  }

  function CpuSection(s: Section, i: nat, tag: string, base: nat): Result<Section, MergeError> {
    var items :- Moved(s.items, base);
    Ok(Section(Sub(s.name, tag), if IsFdMap(s.name) then items["M5_pid" := Dec(i)] else items))
  }

  /** What checkpoint i contributes; only the last one gives sections that are not a processor's. */
  function MergeSections(secs: seq<Section>, i: nat, tag: string, base: nat, last: bool)
    : Result<seq<Section>, MergeError>
  {
    if secs == [] then Ok([])
    else
      var before :- MergeSections(secs[..|secs| - 1], i, tag, base, last);
      var s := secs[|secs| - 1];
      if HasCpu(s.name) then
        var c :- CpuSection(s, i, tag, base);
        Ok(before + [c])
      else if s.name == "system" || s.name == "Globals" || !last then Ok(before)
      else Ok(before + [s])
  }

  function Width(cpts: seq<Checkpoint>): nat
    requires cpts != []
  {
    |Dec(|cpts| - 1)|
  }

  function OneMerged(cpts: seq<Checkpoint>, i: nat): Result<seq<Section>, MergeError>
    requires i < |cpts|
  {
    MergeSections(cpts[i].sections, i, Tag(i, Width(cpts)), Base(cpts, i), i == |cpts| - 1)
  }

  function AllSections(cpts: seq<Checkpoint>, n: nat): Result<seq<Section>, MergeError>
    requires n <= |cpts|
  {
    if n == 0 then Ok([])
    else
      var before :- AllSections(cpts, n - 1);
      var here :- OneMerged(cpts, n - 1);
      Ok(before + here)
  }

  // ----- Which sections the merged file holds.

  predicate GoodAddress(s: Section) {
    "paddr" in s.items ==> ParseInt(s.items["paddr"]).Some?
  }

  /** A processor's section as checkpoint i contributes it: renamed, its address moved, the rest kept. */
  ghost predicate Carried(s: Section, c: Section, i: nat, tag: string, base: nat) {
    && Renamed(s.name, c.name, tag) && GoodAddress(s)
    && (forall k :: k in c.items <==> k in s.items || Numbered(s, k))
    && (forall k | Numbered(s, k) :: c.items[k] == Dec(i))
    && ("paddr" in s.items ==> c.items["paddr"] == DecInt(ParseInt(s.items["paddr"]).value + base))
    && (forall k | k in s.items && k != "paddr" && !Numbered(s, k) :: c.items[k] == s.items[k])
  }

  /** The item that gets the number of the checkpoint. */
  predicate Numbered(s: Section, key: string) {
    IsFdMap(s.name) && key == "M5_pid"
  }

  lemma KeysDiffer()
    ensures "M5_pid" != "paddr"
  {
    assert "M5_pid"[0] == 'M' && "paddr"[0] == 'p';
  }

  lemma CarriedIs(s: Section, c: Section, i: nat, tag: string, base: nat)
    ensures CpuSection(s, i, tag, base) == Ok(c) <==> Carried(s, c, i, tag, base)
  {
    hide IsFdMap, Sub, ParseInt, DecInt, Dec, Renamed;
    KeysDiffer();
    SubMeans(s.name, c.name, tag);
    var r := CpuSection(s, i, tag, base);
    if r.Ok? && Carried(s, c, i, tag, base) {
      assert c.items == r.value.items;
    }
  }

  /** Section s of checkpoint i puts section c into the merged file. */
  ghost predicate Gives(s: Section, c: Section, i: nat, tag: string, base: nat, last: bool) {
    if HasCpu(s.name) then Carried(s, c, i, tag, base)
    else last && s.name != "system" && s.name != "Globals" && c == s
  }

  ghost predicate GivenBy(secs: seq<Section>, c: Section, i: nat, tag: string, base: nat, last: bool) {
    exists s | s in secs :: Gives(s, c, i, tag, base, last)
  }

  ghost predicate AddressesGood(secs: seq<Section>) {
    forall s | s in secs && HasCpu(s.name) :: GoodAddress(s)
  }

  lemma GivenByMore(init: seq<Section>, s: Section, c: Section, i: nat, tag: string, base: nat, last: bool)
    ensures GivenBy(init + [s], c, i, tag, base, last) <==>
            GivenBy(init, c, i, tag, base, last) || Gives(s, c, i, tag, base, last)
  {
    hide Gives;
    assert s in init + [s] && forall x :: x in init + [s] <==> x in init || x == s;
  }

  /** A merge fails only on an address that is no number, and otherwise holds exactly what is given. */
  lemma {:induction false} MergedAre(secs: seq<Section>, i: nat, tag: string, base: nat, last: bool)
    ensures var r := MergeSections(secs, i, tag, base, last);
            && (r.Ok? <==> AddressesGood(secs)) && (r.Err? ==> r.error == BadAddress)
            && (r.Ok? ==> forall c :: c in r.value <==> GivenBy(secs, c, i, tag, base, last))
  {
    if secs != [] {
      var init, s := secs[..|secs| - 1], secs[|secs| - 1];
      assert secs == init + [s];
      MergedAre(init, i, tag, base, last);
      GoodMore(init, s);
      CpuFails(s, i, tag, base);
      forall c
        ensures GivenBy(secs, c, i, tag, base, last) <==>
                GivenBy(init, c, i, tag, base, last) || Gives(s, c, i, tag, base, last)
        ensures CpuSection(s, i, tag, base) == Ok(c) <==> Carried(s, c, i, tag, base)
      {
        GivenByMore(init, s, c, i, tag, base, last);
        CarriedIs(s, c, i, tag, base);
      }
      hide HasCpu, CpuSection, Carried, GivenBy, AddressesGood, GoodAddress;
    }
  }

  lemma GoodMore(init: seq<Section>, s: Section)
    ensures AddressesGood(init + [s]) <==> AddressesGood(init) && (HasCpu(s.name) ==> GoodAddress(s))
  {
    hide HasCpu, GoodAddress;
    assert s in init + [s] && forall x :: x in init + [s] <==> x in init || x == s;
  }

  lemma CpuFails(s: Section, i: nat, tag: string, base: nat)
    ensures var c := CpuSection(s, i, tag, base);
            (c.Ok? <==> GoodAddress(s)) && (c.Err? ==> c.error == BadAddress)
  {
    hide ParseInt, DecInt;
  }

  /** The number of checkpoint i, written with as many digits as that of the last one. */
  ghost predicate IsTag(tag: string, i: nat, cpts: seq<Checkpoint>)
    requires cpts != []
  {
    AllDigits(tag) && Value(tag) == i && |tag| == |Dec(|cpts| - 1)|
  }

  lemma TagOnly(cpts: seq<Checkpoint>, i: nat, tag: string)
    requires i < |cpts|
    ensures IsTag(tag, i, cpts) <==> tag == Tag(i, Width(cpts))
  {
    TagIs(i, Width(cpts));
    TagWidth(cpts, i);
    hide Tag, Value;
    if IsTag(tag, i, cpts) {
      SameDigits(tag, Tag(i, Width(cpts)));
    }
  }

  /** Checkpoint i puts section c into the merged file. */
  ghost predicate GivenAt(cpts: seq<Checkpoint>, i: nat, c: Section)
    requires i < |cpts|
  {
    exists tag | IsTag(tag, i, cpts) ::
      GivenBy(cpts[i].sections, c, i, tag, Base(cpts, i), i == |cpts| - 1)
  }

  lemma GivenWithTag(cpts: seq<Checkpoint>, i: nat, c: Section)
    requires i < |cpts|
    ensures GivenAt(cpts, i, c) <==>
            GivenBy(cpts[i].sections, c, i, Tag(i, Width(cpts)), Base(cpts, i), i == |cpts| - 1)
  {
    hide IsTag, GivenBy, Tag, Width, Base;
    TagOnly(cpts, i, Tag(i, Width(cpts)));
    forall tag | IsTag(tag, i, cpts) ensures tag == Tag(i, Width(cpts)) {
      TagOnly(cpts, i, tag);
    }
  }

  ghost predicate Contributed(cpts: seq<Checkpoint>, n: nat, c: Section)
    requires n <= |cpts|
  {
    exists i: nat | i < n :: GivenAt(cpts, i, c)
  }

  ghost predicate AllGood(cpts: seq<Checkpoint>, n: nat)
    requires n <= |cpts|
  {
    forall i: nat | i < n :: AddressesGood(cpts[i].sections)
  }

  lemma ContributedMore(cpts: seq<Checkpoint>, n: nat, c: Section)
    requires n < |cpts|
    ensures Contributed(cpts, n + 1, c) <==> Contributed(cpts, n, c) || GivenAt(cpts, n, c)
  {
    hide GivenAt;
    if Contributed(cpts, n + 1, c) {
      var i: nat :| i < n + 1 && GivenAt(cpts, i, c);
    }
  }

  /** The merge of all the checkpoints holds exactly what each of them gives. */
  lemma {:induction false} SectionsAre(cpts: seq<Checkpoint>, n: nat)
    requires n <= |cpts|
    ensures var r := AllSections(cpts, n);
            && (r.Ok? <==> AllGood(cpts, n)) && (r.Err? ==> r.error == BadAddress)
            && (r.Ok? ==> forall c :: c in r.value <==> Contributed(cpts, n, c))
  {
    if n > 0 {
      var i := n - 1;
      SectionsAre(cpts, i);
      MergedAre(cpts[i].sections, i, Tag(i, Width(cpts)), Base(cpts, i), i == |cpts| - 1);
      forall c ensures Contributed(cpts, n, c) <==> Contributed(cpts, i, c) || GivenAt(cpts, i, c) {
        ContributedMore(cpts, i, c);
      }
      forall c
        ensures GivenAt(cpts, i, c) <==>
                GivenBy(cpts[i].sections, c, i, Tag(i, Width(cpts)), Base(cpts, i), i == |cpts| - 1)
      {
        GivenWithTag(cpts, i, c);
      }
      hide MergeSections, GivenBy, GivenAt, Contributed, AddressesGood, Tag, Base, Width;
    }
  }

  // ----- Section names stay apart.

  ghost predicate Apart(secs: seq<Section>) {
    forall j, k | 0 <= j < k < |secs| :: secs[j].name != secs[k].name
  }

  ghost predicate NamedAfter(name: string, secs: seq<Section>, tag: string, last: bool) {
    exists j :: 0 <= j < |secs| && name == Sub(secs[j].name, tag) && (HasCpu(secs[j].name) || last)
  }

  lemma {:induction false} MergedNames(secs: seq<Section>, i: nat, tag: string, base: nat, last: bool)
    requires Apart(secs) && MergeSections(secs, i, tag, base, last).Ok?
    ensures var out := MergeSections(secs, i, tag, base, last).value;
            Apart(out) && forall k | 0 <= k < |out| :: NamedAfter(out[k].name, secs, tag, last)
  {
    if secs != [] {
      var n := |secs| - 1;
      var init, s := secs[..n], secs[n];
      MergedNames(init, i, tag, base, last);
      var before := MergeSections(init, i, tag, base, last).value;
      forall k | 0 <= k < |before|
        ensures NamedAfter(before[k].name, secs, tag, last) && before[k].name != Sub(s.name, tag)
      {
        var j :| 0 <= j < n && before[k].name == Sub(init[j].name, tag) && (HasCpu(init[j].name) || last);
        assert secs[j] == init[j];
        if Sub(secs[j].name, tag) == Sub(s.name, tag) {
          SubApart(secs[j].name, tag, s.name, tag);
        }
      }
      SubKeepsCpu(s.name, tag);
      assert (HasCpu(s.name) || last) ==> NamedAfter(Sub(s.name, tag), secs, tag, last);
    }
  }

  lemma TagWidth(cpts: seq<Checkpoint>, i: nat)
    requires i < |cpts|
    ensures |Tag(i, Width(cpts))| == Width(cpts)
  {
    var k := Width(cpts);
    DecLength(|cpts| - 1, k);
    DecLength(i, k);
  }

  ghost predicate NamedByOne(name: string, cpts: seq<Checkpoint>, n: nat)
    requires n <= |cpts|
  {
    exists i :: 0 <= i < n && NamedAfter(name, cpts[i].sections, Tag(i, Width(cpts)), i == |cpts| - 1)
  }

  lemma NamesDiffer(cpts: seq<Checkpoint>, i: nat, j: nat, a: string, b: string)
    requires i < j < |cpts|
    requires NamedAfter(a, cpts[i].sections, Tag(i, Width(cpts)), false)
    requires NamedAfter(b, cpts[j].sections, Tag(j, Width(cpts)), j == |cpts| - 1)
    ensures a != b
  {
    var w := Width(cpts);
    TagWidth(cpts, i);
    TagWidth(cpts, j);
    var x :| 0 <= x < |cpts[i].sections| && a == Sub(cpts[i].sections[x].name, Tag(i, w))
             && HasCpu(cpts[i].sections[x].name);
    var y :| 0 <= y < |cpts[j].sections| && b == Sub(cpts[j].sections[y].name, Tag(j, w));
    if a == b {
      SubApart(cpts[i].sections[x].name, Tag(i, w), cpts[j].sections[y].name, Tag(j, w));
      TagsDiffer(i, j, w);
    }
  }

  lemma {:induction false} NamesApart(cpts: seq<Checkpoint>, n: nat)
    requires n <= |cpts| && AllSections(cpts, n).Ok? && forall i | 0 <= i < |cpts| :: Apart(cpts[i].sections)
    ensures var out := AllSections(cpts, n).value;
            Apart(out) && forall k | 0 <= k < |out| :: NamedByOne(out[k].name, cpts, n)
  {
    if n > 0 {
      NamesApart(cpts, n - 1);
      var before, here := AllSections(cpts, n - 1).value, OneMerged(cpts, n - 1).value;
      MergedNames(cpts[n - 1].sections, n - 1, Tag(n - 1, Width(cpts)), Base(cpts, n - 1), n - 1 == |cpts| - 1);
      hide MergeSections, OneMerged, AllSections, NamedAfter, Tag, Base;
      forall k, l | 0 <= k < |before| && 0 <= l < |here| ensures before[k].name != here[l].name {
        var i :| 0 <= i < n - 1 && NamedAfter(before[k].name, cpts[i].sections, Tag(i, Width(cpts)), i == |cpts| - 1);
        NamesDiffer(cpts, i, n - 1, before[k].name, here[l].name);
      }
      forall k | 0 <= k < |before| ensures NamedByOne(before[k].name, cpts, n) {
        var i :| 0 <= i < n - 1 && NamedAfter(before[k].name, cpts[i].sections, Tag(i, Width(cpts)), i == |cpts| - 1);
      }
      forall l | 0 <= l < |here| ensures NamedByOne(here[l].name, cpts, n) {
      }
    }
  }

  lemma {:induction false} CpuHasC(s: string)
    ensures HasCpu(s) ==> 'c' in s
  {
    if StartsCpu(s) {
      assert s[0] == 'c';
    } else if s != [] {
      CpuHasC(s[1..]);
    }
  }

  lemma {:induction false} NotCpu()
    ensures !HasCpu("system") && !HasCpu("Globals") && !HasCpu(STORE)
  {
    CpuHasC("system");
    CpuHasC("Globals");
    CpuHasC(STORE);
    hide HasCpu;
  }

  /** The names of the two sections the script writes itself. */
  predicate Reserved(name: string) {
    name == "system" || name == "Globals"
  }

  /** A processor's section keeps a name with cpu; another one is as it was. */
  lemma GivenName(s: Section, c: Section, i: nat, tag: string, base: nat, last: bool)
    requires Gives(s, c, i, tag, base, last)
    ensures HasCpu(c.name) <==> HasCpu(s.name)
    ensures !HasCpu(s.name) ==> c == s && !Reserved(s.name)
  {
    hide HasCpu, Sub, Renamed, GoodAddress, Numbered, ParseInt, DecInt, Dec;
    SubMeans(s.name, c.name, tag);
    SubKeepsCpu(s.name, tag);
  }

  lemma NameFree(cpts: seq<Checkpoint>, i: nat, c: Section)
    requires i < |cpts| && GivenAt(cpts, i, c)
    ensures !Reserved(c.name)
  {
    hide HasCpu, Tag, Base, Width, Gives, GivenAt;
    GivenWithTag(cpts, i, c);
    var s :| s in cpts[i].sections && Gives(s, c, i, Tag(i, Width(cpts)), Base(cpts, i), i == |cpts| - 1);
    GivenName(s, c, i, Tag(i, Width(cpts)), Base(cpts, i), i == |cpts| - 1);
    NotCpu();
  }

  /**
   * No two sections of the merged file have the same name, and none has the name of a section that
   * the script adds at the end.
   */
  lemma SectionsApart(cpts: seq<Checkpoint>)
    requires AllSections(cpts, |cpts|).Ok? && forall i | 0 <= i < |cpts| :: Apart(cpts[i].sections)
    ensures var out := AllSections(cpts, |cpts|).value;
            Apart(out) && forall c | c in out :: !Reserved(c.name)
  {
    NamesApart(cpts, |cpts|);
    SectionsAre(cpts, |cpts|);
    hide AllSections, NamedByOne, GivenAt, Reserved, AllGood, Apart;
    forall c | Contributed(cpts, |cpts|, c) ensures !Reserved(c.name) {
      var i: nat :| i < |cpts| && GivenAt(cpts, i, c);
      NameFree(cpts, i, c);
    }
  }

  // ----- Addresses still name the same bytes.

  /** The address of a section, if it has one. */
  function Address(s: Section): Option<int> {
    if "paddr" in s.items then ParseInt(s.items["paddr"]) else None
  }

  /** Section s of checkpoint i is a processor's, with the address a of a byte that its image has. */
  ghost predicate Addresses(cpts: seq<Checkpoint>, i: nat, s: Section, a: nat) {
    && i < |cpts| && s in cpts[i].sections && HasCpu(s.name) && Address(s) == Some(a)
    && a < |cpts[i].memory| && a < 4096 * cpts[i].pages && forall j | 0 <= j < i :: Full(cpts[j])
  }

  /** Section s is there under its new name with its new address. */
  ghost predicate Moves(cpts: seq<Checkpoint>, i: nat, s: Section, a: nat, sections: seq<Section>)
    requires i < |cpts|
  {
    exists tag, c | IsTag(tag, i, cpts) && c in sections ::
      Renamed(s.name, c.name, tag) && Address(c) == Some(a + 4096 * PagePtr(cpts, i))
  }

  ghost predicate SameByte(cpts: seq<Checkpoint>, i: nat, a: nat, memory: seq<Byte>)
    requires i < |cpts| && a < |cpts[i].memory|
  {
    var moved := a + 4096 * PagePtr(cpts, i);
    moved < |memory| && memory[moved] == cpts[i].memory[a]
  }

  lemma CarriedAddress(s: Section, i: nat, tag: string, base: nat, a: nat)
    requires Address(s) == Some(a)
    ensures exists c :: Carried(s, c, i, tag, base) && c.name == Sub(s.name, tag) && Address(c) == Some(a + base)
  {
    KeysDiffer();
    IntOfDec(a + base);
    hide ParseInt, DecInt, IsFdMap, Sub, Dec;
    var c := CpuSection(s, i, tag, base).value;
    CarriedIs(s, c, i, tag, base);
  }

  lemma {:induction false} Put(cpts: seq<Checkpoint>, i: nat, s: Section, c: Section)
    requires i < |cpts| && s in cpts[i].sections && HasCpu(s.name)
    requires Carried(s, c, i, Tag(i, Width(cpts)), Base(cpts, i))
    ensures Contributed(cpts, |cpts|, c)
  {
    hide Carried, HasCpu, Tag, Base, Width;
    assert Gives(s, c, i, Tag(i, Width(cpts)), Base(cpts, i), i == |cpts| - 1);
    GivenWithTag(cpts, i, c);
    assert GivenAt(cpts, i, c);
  }

  lemma SectionMoves(cpts: seq<Checkpoint>, i: nat, s: Section, a: nat, sections: seq<Section>)
    requires Addresses(cpts, i, s, a) && AllSections(cpts, |cpts|) == Ok(sections)
    ensures Moves(cpts, i, s, a, sections)
  {
    hide ImageOf, Full, Carried, HasCpu, Sub, Address, Tag, Base, Width, AllSections, Contributed, AllGood, Renamed,
         IsTag;
    CarriedAddress(s, i, Tag(i, Width(cpts)), Base(cpts, i), a);
    var c :| Carried(s, c, i, Tag(i, Width(cpts)), Base(cpts, i)) && c.name == Sub(s.name, Tag(i, Width(cpts)))
             && Address(c) == Some(a + Base(cpts, i));
    Put(cpts, i, s, c);
    SectionsAre(cpts, |cpts|);
    assert c in sections;
    TagOnly(cpts, i, Tag(i, Width(cpts)));
    SubMeans(s.name, c.name, Tag(i, Width(cpts)));
    BaseIs(cpts, i);
  }

  lemma BaseIs(cpts: seq<Checkpoint>, i: nat)
    requires i <= |cpts|
    ensures Base(cpts, i) == 4096 * PagePtr(cpts, i)
  {
  }

  /**
   * A processor's address is moved by the base of its checkpoint, and the byte it names in the
   * merged memory is the byte it named before.
   */
  lemma AddressKeepsByte(cpts: seq<Checkpoint>, i: nat, s: Section, a: nat, sections: seq<Section>, memory: seq<Byte>)
    requires Addresses(cpts, i, s, a) && AllSections(cpts, |cpts|) == Ok(sections) && Images(cpts) <= memory
    ensures Moves(cpts, i, s, a, sections) && SameByte(cpts, i, a, memory)
  {
    hide Images, ImageOf, Start, Moves, HasCpu, Address, AllSections, Base;
    SectionMoves(cpts, i, s, a, sections);
    BaseIs(cpts, i);
    StartIsBase(cpts, i);
    ImagePlaced(cpts, i, a);
  }

  // ----- The script.

  datatype Merged = Merged(memory: seq<Byte>, sections: seq<Section>,
    pagePtr: nat, nextPid: nat, rangeSize: nat, curTick: int)

  lemma {:induction false} MergeErr(secs: seq<Section>, n: nat, i: nat, tag: string, base: nat, last: bool)
    requires n <= |secs| && MergeSections(secs[..n], i, tag, base, last).Err?
    ensures MergeSections(secs, i, tag, base, last) == MergeSections(secs[..n], i, tag, base, last)
    decreases |secs| - n
  {
    if n < |secs| {
      assert secs[..n + 1][..n] == secs[..n];
      MergeErr(secs, n + 1, i, tag, base, last);
    } else {
      assert secs[..n] == secs;
    }
  }

  method MergeOne(secs: seq<Section>, i: nat, tag: string, base: nat, last: bool)
    returns (r: Result<seq<Section>, MergeError>)
    ensures r == MergeSections(secs, i, tag, base, last)
    ensures if AddressesGood(secs) then r.Ok? && forall c :: c in r.value <==> GivenBy(secs, c, i, tag, base, last)
            else r == Err(BadAddress)
  {
    MergedAre(secs, i, tag, base, last);
    hide HasCpu, CpuSection, AddressesGood, GivenBy;
    var out: seq<Section> := [];
    for n := 0 to |secs|
      invariant MergeSections(secs[..n], i, tag, base, last) == Ok(out)
    {
      assert secs[..n + 1][..n] == secs[..n];
      if HasCpu(secs[n].name) {
        var c := CpuSection(secs[n], i, tag, base);
        if c.Err? {
          MergeErr(secs, n + 1, i, tag, base, last);
          return Err(c.error);
        }
        out := out + [c.value];
      } else if secs[n].name == "system" || secs[n].name == "Globals" {
      } else if last {
        out := out + [secs[n]];
      }
    }
    assert secs[..|secs|] == secs;
    r := Ok(out);
  }

  /** The largest tick of all the checkpoints, at least 0. */
  ghost predicate IsLatest(tick: int, cpts: seq<Checkpoint>, n: nat)
    requires n <= |cpts|
  {
    && tick >= 0 && (forall i | 0 <= i < n && cpts[i].curTick.Some? :: cpts[i].curTick.value <= tick)
    && (tick == 0 || exists i :: 0 <= i < n && cpts[i].curTick == Some(tick))
  }

  function Later(tick: int, other: Option<int>): int {
    if other.Some? && other.value > tick then other.value else tick
  }

  lemma LatestStep(tick: int, cpts: seq<Checkpoint>, n: nat)
    requires n < |cpts| && IsLatest(tick, cpts, n)
    ensures IsLatest(Later(tick, cpts[n].curTick), cpts, n + 1)
  {
  }

  lemma {:induction false} SectionsErr(cpts: seq<Checkpoint>, n: nat)
    requires n <= |cpts| && AllSections(cpts, n).Err?
    ensures AllSections(cpts, |cpts|) == AllSections(cpts, n)
    decreases |cpts| - n
  {
    if n < |cpts| {
      SectionsErr(cpts, n + 1);
    }
  }

  const STORE := "system.physmem.store0"

  ghost predicate HasStore(secs: seq<Section>) {
    exists s :: s in secs && s.name == STORE
  }

  /** What has been gathered from the first n checkpoints. */
  ghost predicate Gathered(cpts: seq<Checkpoint>, n: nat, memory: seq<Byte>, pagePtr: nat, curTick: int)
    requires n <= |cpts|
  {
    memory == Images(cpts[..n]) && pagePtr == PagePtr(cpts, n) && IsLatest(curTick, cpts, n)
  }

  lemma GatherStep(cpts: seq<Checkpoint>, n: nat, memory: seq<Byte>, pagePtr: nat, curTick: int)
    requires n < |cpts| && Gathered(cpts, n, memory, pagePtr, curTick)
    ensures Gathered(cpts, n + 1, memory + ImageOf(cpts[n]), pagePtr + cpts[n].pages, Later(curTick, cpts[n].curTick))
  {
    LatestStep(curTick, cpts, n);
    ImagesStep(cpts, n);
  }

  /** The loop over the checkpoints. */
  method Gather(cpts: seq<Checkpoint>)
    returns (r: Result<seq<Section>, MergeError>, here: seq<Section>, memory: seq<Byte>, pagePtr: nat, curTick: int)
    requires cpts != []
    ensures r == AllSections(cpts, |cpts|)
    ensures r.Ok? ==> OneMerged(cpts, |cpts| - 1) == Ok(here) && Gathered(cpts, |cpts|, memory, pagePtr, curTick)
  {
    memory, pagePtr, curTick, here := [], 0, 0, [];
    var sections: seq<Section> := [];
    assert Gathered(cpts, 0, memory, pagePtr, curTick);
    hide Gathered, OneMerged, ImageOf;
    for i := 0 to |cpts|
      invariant Gathered(cpts, i, memory, pagePtr, curTick)
      invariant AllSections(cpts, i) == Ok(sections) && (i > 0 ==> OneMerged(cpts, i - 1) == Ok(here))
    {
      assert pagePtr == PagePtr(cpts, i) by { GatheredPages(cpts, i, memory, pagePtr, curTick); }
      var merged := MergeCheckpoint(cpts, i, pagePtr);
      if merged.Err? {
        SectionsErr(cpts, i + 1);
        r := Err(merged.error);
        return;
      }
      here := merged.value;
      sections := sections + here;
      GatherStep(cpts, i, memory, pagePtr, curTick);
      if cpts[i].curTick.Some? && cpts[i].curTick.value > curTick {
        curTick := cpts[i].curTick.value;
      }
      pagePtr := pagePtr + cpts[i].pages;
      memory := CopyPages(cpts[i], memory);
    }
    r := Ok(sections);
  }

  lemma GatheredPages(cpts: seq<Checkpoint>, n: nat, memory: seq<Byte>, pagePtr: nat, curTick: int)
    requires n <= |cpts| && Gathered(cpts, n, memory, pagePtr, curTick)
    ensures pagePtr == PagePtr(cpts, n)
  {
  }

  /** The recorded size is the number of bytes written exactly when every image is full. */
  ghost predicate Sized(m: Merged, cpts: seq<Checkpoint>, memorySize: int) {
    && m.rangeSize >= memorySize && m.rangeSize >= m.pagePtr * 4096 && m.rangeSize % 4096 == 0
    && (m.rangeSize > m.pagePtr * 4096 ==> m.rangeSize < memorySize + 4096)
    && (m.rangeSize == |m.memory| <==> forall i | 0 <= i < |cpts| :: Full(cpts[i]))
  }

  /** The last checkpoint has the section whose range the script records. */
  ghost predicate LastHasStore(cpts: seq<Checkpoint>) {
    cpts != [] && HasStore(cpts[|cpts| - 1].sections)
  }

  lemma StoreKept(cpts: seq<Checkpoint>)
    requires cpts != [] && OneMerged(cpts, |cpts| - 1).Ok?
    ensures HasStore(OneMerged(cpts, |cpts| - 1).value) <==> LastHasStore(cpts)
  {
    var i := |cpts| - 1;
    var secs, tag, base := cpts[i].sections, Tag(i, Width(cpts)), Base(cpts, i);
    var out := OneMerged(cpts, i).value;
    MergedAre(secs, i, tag, base, true);
    hide HasCpu, Tag, Base, Width, MergeSections, AddressesGood, Gives;
    if HasStore(out) {
      var c :| c in out && c.name == STORE;
      var s :| s in secs && Gives(s, c, i, tag, base, true);
      StoreGiven(s, c, i, tag, base);
    }
    if HasStore(secs) {
      var s :| s in secs && s.name == STORE;
      StoreGiven(s, s, i, tag, base);
      assert s in out;
    }
  }

  lemma StoreGiven(s: Section, c: Section, i: nat, tag: string, base: nat)
    ensures Gives(s, c, i, tag, base, true) && c.name == STORE ==> s.name == STORE
    ensures s.name == STORE ==> Gives(s, s, i, tag, base, true)
  {
    hide HasCpu, Carried;
    NotCpu();
    if Gives(s, c, i, tag, base, true) {
      GivenName(s, c, i, tag, base, true);
    }
    assert |STORE| == 21 && |"system"| == 6 && |"Globals"| == 7;
  }

  /** The merged file has the sections that the checkpoints give, and no other. */
  ghost predicate HoldsGiven(cpts: seq<Checkpoint>, sections: seq<Section>) {
    forall c :: c in sections <==> Contributed(cpts, |cpts|, c)
  }

  ghost predicate AddressesFollow(cpts: seq<Checkpoint>, sections: seq<Section>, memory: seq<Byte>) {
    forall i: nat, s, a: nat | Addresses(cpts, i, s, a) ::
      Moves(cpts, i, s, a, sections) && SameByte(cpts, i, a, memory)
  }

  ghost predicate NamesKept(cpts: seq<Checkpoint>, sections: seq<Section>) {
    (forall i | 0 <= i < |cpts| :: Apart(cpts[i].sections)) ==>
      Apart(sections) && forall c | c in sections :: !Reserved(c.name)
  }

  lemma AllFollow(cpts: seq<Checkpoint>, sections: seq<Section>, memory: seq<Byte>)
    requires AllSections(cpts, |cpts|) == Ok(sections) && Images(cpts) <= memory
    ensures AddressesFollow(cpts, sections, memory)
  {
    hide AllSections, Images, Moves, SameByte;
    forall i: nat, s, a: nat | Addresses(cpts, i, s, a)
      ensures Moves(cpts, i, s, a, sections) && SameByte(cpts, i, a, memory)
    {
      AddressKeepsByte(cpts, i, s, a, sections, memory);
    }
  }

  lemma MergedFaithful(cpts: seq<Checkpoint>, sections: seq<Section>, memory: seq<Byte>)
    requires AllSections(cpts, |cpts|) == Ok(sections) && Images(cpts) <= memory
    ensures HoldsGiven(cpts, sections) && AddressesFollow(cpts, sections, memory) && NamesKept(cpts, sections)
  {
    SectionsAre(cpts, |cpts|);
    AllFollow(cpts, sections, memory);
    if forall i | 0 <= i < |cpts| :: Apart(cpts[i].sections) {
      SectionsApart(cpts);
    }
    hide AllSections, Images, Contributed, Apart, Reserved, AddressesFollow, AllGood;
  }

  method Aggregate(cpts: seq<Checkpoint>, memorySize: int) returns (r: Result<Merged, MergeError>)
    ensures r == Err(NoCheckpoints) <==> cpts == []
    ensures r == Err(BadAddress) <==> cpts != [] && !AllGood(cpts, |cpts|)
    ensures r == Err(NoStore) <==> cpts != [] && AllGood(cpts, |cpts|) && !LastHasStore(cpts)
    ensures r.Ok? ==>
              var m := r.value;
              && Ok(m.sections) == AllSections(cpts, |cpts|) && HoldsGiven(cpts, m.sections)
              && NamesKept(cpts, m.sections) && AddressesFollow(cpts, m.sections, m.memory)
              && m.nextPid == |cpts| && IsLatest(m.curTick, cpts, |cpts|)
              && m.pagePtr == PagePtr(cpts, |cpts|) && Images(cpts) <= m.memory && Sized(m, cpts, memorySize)
              && (forall i | |Images(cpts)| <= i < |m.memory| :: m.memory[i] == 48)
  {
    if cpts == [] {
      return Err(NoCheckpoints);
    }
    SectionsAre(cpts, |cpts|);
    hide AllSections, OneMerged, HasStore, IsLatest, Images, PagePtr, AllGood, Contributed, LastHasStore;
    var sections, last, memory, pagePtr, curTick := Gather(cpts);
    if sections.Err? {
      return Err(sections.error);
    }
    assert cpts[..|cpts|] == cpts;
    var padded, pages := Pad(memory, pagePtr, memorySize);
    var found := HasSection(last);
    StoreKept(cpts);
    if !found {
      return Err(NoStore);
    }
    var m := Merged(padded, sections.value, pagePtr, |cpts|, pages * PAGE, curTick);
    PaddedSize(m, cpts, pages, memorySize);
    MergedFaithful(cpts, m.sections, m.memory);
    hide Sized, HoldsGiven, AddressesFollow, NamesKept;
    r := Ok(m);
  }

  lemma PaddedSize(m: Merged, cpts: seq<Checkpoint>, pages: nat, memorySize: int)
    requires m.pagePtr == PagePtr(cpts, |cpts|) && m.rangeSize == pages * PAGE
    requires pages >= m.pagePtr && |m.memory| - |Images(cpts)| == (pages - m.pagePtr) * PAGE
    requires pages * PAGE >= memorySize
    requires pages > m.pagePtr ==> pages * PAGE < memorySize + PAGE
    ensures Sized(m, cpts, memorySize)
  {
    hide Images, PagePtr, Full;
    ImagesLength(cpts);
    assert pages * PAGE % PAGE == 0;
  }

  method MergeCheckpoint(cpts: seq<Checkpoint>, i: nat, pagePtr: nat) returns (r: Result<seq<Section>, MergeError>)
    requires i < |cpts| && pagePtr == PagePtr(cpts, i)
    ensures r == OneMerged(cpts, i)
  {
    r := MergeOne(cpts[i].sections, i, Tag(i, |Dec(|cpts| - 1)|), pagePtr * PAGE, i == |cpts| - 1);
  }

  method HasSection(secs: seq<Section>) returns (found: bool)
    ensures found == HasStore(secs)
  {
    found := false;
    for k := 0 to |secs|
      invariant found == HasStore(secs[..k])
    {
      assert secs[..k + 1] == secs[..k] + [secs[k]];
      if secs[k].name == STORE {
        assert secs[..k + 1][k] == secs[k];
        found := true;
      }
    }
    assert secs[..|secs|] == secs;
  }
}
