/**
 * The checkpoint upgrader of util/cpt_upgrader.py: dependencies between version tags are
 * resolved when the upgraders are loaded, and a worklist then applies every missing upgrade and
 * every pending downgrade in rounds.
 */
module CptUpgrader {
  import opened Wrappers
  import opened Sorting

  datatype Tag = Tag(name: string)

  /** One upgrader file: its dependencies, the tags it makes depend on itself, and its kind. */
  datatype Upgrader = Upgrader(depends: seq<Tag>, fwdDepends: seq<Tag>, isDowngrade: bool)

  type Registry = map<Tag, Upgrader>

  function Ups(reg: Registry): set<Tag> {
    set t | t in reg && !reg[t].isDowngrade
  }

  function Downs(reg: Registry): set<Tag> {
    set t | t in reg && reg[t].isDowngrade
  }

  // ----- Loading: forward dependencies are turned around, all dependencies must exist.

  ghost predicate Audited(reg: Registry) {
    forall t | t in reg :: forall d | d in reg[t].depends :: d in reg
  }

  ghost predicate Complete(reg: Registry) {
    Audited(reg) && forall t | t in reg :: forall f | f in reg[t].fwdDepends :: f in reg
  }

  /** The forward dependencies of the given tags have been added to the tags they name. */
  ghost predicate Forwarded(reg: Registry, cur: Registry, tags: seq<Tag>) {
    && cur.Keys == reg.Keys
    && (forall t | t in reg :: cur[t].fwdDepends == reg[t].fwdDepends && cur[t].isDowngrade == reg[t].isDowngrade)
    && (forall t, d | t in reg :: ForwardedTo(reg, cur, tags, t, d))
  }

  ghost predicate ForwardedTo(reg: Registry, cur: Registry, tags: seq<Tag>, t: Tag, d: Tag)
    requires t in reg && t in cur
  {
    d in cur[t].depends <==> d in reg[t].depends || (d in reg && d in tags && t in reg[d].fwdDepends)
  }

  /** tag has been appended to the dependencies of the listed targets. */
  ghost predicate Added(before: Registry, cur: Registry, tag: Tag, targets: seq<Tag>) {
    && cur.Keys == before.Keys
    && (forall t | t in before ::
          cur[t].fwdDepends == before[t].fwdDepends && cur[t].isDowngrade == before[t].isDowngrade)
    && (forall t, d | t in before :: d in cur[t].depends <==> d in before[t].depends || (d == tag && t in targets))
  }

  method AddForward(before: Registry, tag: Tag, targets: seq<Tag>) returns (r: Option<Registry>)
    ensures r.Some? <==> forall f | f in targets :: f in before
    ensures r.Some? ==> Added(before, r.value, tag, targets)
  {
    var cur := before;
    for k := 0 to |targets|
      invariant forall f | f in targets[..k] :: f in before
      invariant Added(before, cur, tag, targets[..k])
    {
      var f := targets[k];
      if f !in cur {
        assert f in targets;
        return None;
      }
      AddedOne(before, cur, tag, targets[..k], f);
      assert targets[..k + 1] == targets[..k] + [f];
      cur := cur[f := cur[f].(depends := cur[f].depends + [tag])];
    }
    assert targets[..|targets|] == targets;
    r := Some(cur);
  }

  lemma AddedOne(before: Registry, cur: Registry, tag: Tag, targets: seq<Tag>, f: Tag)
    requires f in cur && Added(before, cur, tag, targets)
    ensures Added(before, cur[f := cur[f].(depends := cur[f].depends + [tag])], tag, targets + [f])
  {
  }

  method Audit(reg: Registry, depends: seq<Tag>) returns (ok: bool)
    ensures ok <==> forall d | d in depends :: d in reg
  {
    for k := 0 to |depends|
      invariant forall d | d in depends[..k] :: d in reg
    {
      if depends[k] !in reg {
        return false;
      }
      assert depends[..k + 1] == depends[..k] + [depends[k]];
    }
    assert depends[..|depends|] == depends;
    return true;
  }

  /** Everything the given tags name exists. */
  ghost predicate Checked(reg: Registry, tags: seq<Tag>) {
    forall t | t in tags ::
      t in reg && (forall f | f in reg[t].fwdDepends :: f in reg) && (forall d | d in reg[t].depends :: d in reg)
  }

  /** load_all, for any iteration order over the loaded upgraders. */
  method ResolveDependencies(reg: Registry, order: seq<Tag>) returns (r: Option<Registry>)
    requires forall t :: t in order <==> t in reg
    ensures r.Some? <==> Complete(reg)
    ensures r.Some? ==> Forwarded(reg, r.value, order) && Audited(r.value)
  {
    var cur := reg;
    assert Forwarded(reg, cur, order[..0]);
    hide Forwarded, Checked, Added;
    for i := 0 to |order|
      invariant Forwarded(reg, cur, order[..i]) && Checked(reg, order[..i])
    {
      var tag := order[i];
      assert tag in order;
      assert order[..i + 1] == order[..i] + [tag];
      ForwardedKeys(reg, cur, order[..i], tag);
      var added := AddForward(cur, tag, cur[tag].fwdDepends);
      if added == None {
        return None;
      }
      ForwardedOne(reg, cur, added.value, order[..i], tag);
      cur := added.value;
      ForwardedKeys(reg, cur, order[..i + 1], tag);
      var ok := Audit(cur, cur[tag].depends);
      if !ok {
        BadDependency(reg, cur, order[..i + 1], tag);
        return None;
      }
      CheckedOne(reg, cur, order[..i], tag);
    }
    assert order[..|order|] == order;
    AllChecked(reg, order);
    ForwardedAudited(reg, cur, order);
    r := Some(cur);
  }

  lemma ForwardedKeys(reg: Registry, cur: Registry, tags: seq<Tag>, tag: Tag)
    requires tag in reg && Forwarded(reg, cur, tags)
    ensures cur.Keys == reg.Keys && cur[tag].fwdDepends == reg[tag].fwdDepends
  {
  }

  lemma CheckedOne(reg: Registry, cur: Registry, tags: seq<Tag>, tag: Tag)
    requires tag in reg && Checked(reg, tags) && Forwarded(reg, cur, tags + [tag])
    requires (forall f | f in reg[tag].fwdDepends :: f in reg) && (forall d | d in cur[tag].depends :: d in cur)
    ensures Checked(reg, tags + [tag])
  {
    assert tag in tags + [tag];
    forall d | d in reg[tag].depends ensures d in reg {
      assert ForwardedTo(reg, cur, tags + [tag], tag, d);
    }
  }

  lemma AllChecked(reg: Registry, order: seq<Tag>)
    requires Checked(reg, order) && forall t :: t in order <==> t in reg
    ensures Complete(reg)
  {
  }

  lemma ForwardedOne(reg: Registry, before: Registry, cur: Registry, tags: seq<Tag>, tag: Tag)
    requires tag in reg && Forwarded(reg, before, tags) && Added(before, cur, tag, reg[tag].fwdDepends)
    ensures Forwarded(reg, cur, tags + [tag])
  {
    forall t, d | t in reg ensures ForwardedTo(reg, cur, tags + [tag], t, d) {
      assert ForwardedTo(reg, before, tags, t, d);
    }
  }

  lemma BadDependency(reg: Registry, cur: Registry, tags: seq<Tag>, tag: Tag)
    requires tag in reg && Forwarded(reg, cur, tags) && exists d | d in cur[tag].depends :: d !in cur
    ensures !Complete(reg)
  {
    var d :| d in cur[tag].depends && d !in cur;
    assert ForwardedTo(reg, cur, tags, tag, d);
  }

  lemma ForwardedAudited(reg: Registry, cur: Registry, tags: seq<Tag>)
    requires Forwarded(reg, cur, tags) && Complete(reg)
    ensures Audited(cur)
  {
    forall t, d | t in cur && d in cur[t].depends ensures d in cur {
      assert ForwardedTo(reg, cur, tags, t, d);
    }
  }

  // ----- One pass of the worklist.

  predicate Ready(reg: Registry, tags: set<Tag>, t: Tag)
    requires t in reg
  {
    forall d | d in reg[t].depends :: d in tags
  }

  function ReadySet(reg: Registry, tags: set<Tag>, toApply: set<Tag>): set<Tag>
    requires toApply <= reg.Keys
  {
    set t | t in toApply && Ready(reg, tags, t)
  }

  function ToApply(reg: Registry, tags: set<Tag>): set<Tag> {
    (Ups(reg) - tags) + (Downs(reg) * tags)
  }

  /** The tags after the given upgraders and downgraders have run, in whatever order. */
  function Updated(reg: Registry, tags: set<Tag>, done: set<Tag>): set<Tag> {
    tags + done * Ups(reg) - done * Downs(reg)
  }

  datatype Outcome = Finished(tags: set<Tag>) | Stuck(left: set<Tag>, tags: set<Tag>)

  /** The rounds of process_file. */
  function Rounds(reg: Registry, tags: set<Tag>, toApply: set<Tag>): Outcome
    requires toApply <= reg.Keys
    decreases |toApply|
  {
    if toApply == {} then Finished(tags)
    else
      var ready := ReadySet(reg, tags, toApply);
      if ready == {} then Stuck(toApply, tags)
      else
        Shrinks(toApply, ready);
        Rounds(reg, Updated(reg, tags, ready), toApply - ready)
  }

  lemma Shrinks(a: set<Tag>, b: set<Tag>)
    requires b <= a && b != {}
    ensures |a - b| < |a|
  {
  }

  lemma ToApplyKnown(reg: Registry, tags: set<Tag>)
    ensures ToApply(reg, tags) <= reg.Keys
  {
  }

  /** What a run does to a checkpoint with these tags. */
  function Upgrade(reg: Registry, tags: set<Tag>): Outcome {
    ToApplyKnown(reg, tags);
    Rounds(reg, tags, ToApply(reg, tags))
  }

  /** A round leaves exactly the rest to apply and does not change what the run aims at. */
  lemma RoundSets(up: set<Tag>, down: set<Tag>, tags: set<Tag>, done: set<Tag>)
    requires up !! down && done <= (up - tags) + down * tags
    ensures var next := tags + done * up - done * down;
            && (up - tags) + down * tags - done == (up - next) + down * next
            && next + up - down == tags + up - down
  {
  }

  /** With nothing left to apply, the tags are what the run aims at. */
  lemma NothingLeft(up: set<Tag>, down: set<Tag>, tags: set<Tag>)
    requires (up - tags) + down * tags == {}
    ensures tags + up - down == tags
  {
    forall t ensures !(t in up && t !in tags) && !(t in down && t in tags) {
      assert t !in (up - tags) + down * tags;
    }
  }

  /** Every successful run ends with all upgrade tags and no downgrade tag. */
  lemma {:induction false} RoundsResult(reg: Registry, tags: set<Tag>)
    ensures Upgrade(reg, tags).Finished? ==> Upgrade(reg, tags).tags == tags + Ups(reg) - Downs(reg)
    decreases |ToApply(reg, tags)|
  {
    var toApply := ToApply(reg, tags);
    ToApplyKnown(reg, tags);
    var ready := ReadySet(reg, tags, toApply);
    assert ready <= toApply && Ups(reg) !! Downs(reg);
    hide Ups, Downs, ReadySet;
    RoundsStep(reg, tags, toApply);
    if toApply == {} {
      NothingLeft(Ups(reg), Downs(reg), tags);
    } else if ready != {} {
      RoundSets(Ups(reg), Downs(reg), tags, ready);
      Shrinks(toApply, ready);
      RoundsResult(reg, Updated(reg, tags, ready));
    }
  }

  /** Every upgrader's tag is there, no downgrader's is, and no other tag has changed. */
  ghost predicate Upgraded(reg: Registry, before: set<Tag>, after: set<Tag>) {
    forall t :: t in after <==> if t in reg then !reg[t].isDowngrade else t in before
  }

  /** A tag is applied if its upgrader is missing or its downgrader finds it there. */
  ghost predicate Applies(reg: Registry, before: set<Tag>, t: Tag) {
    t in reg && if reg[t].isDowngrade then t in before else t !in before
  }

  lemma UpgradeResult(reg: Registry, tags: set<Tag>)
    requires Upgrade(reg, tags).Finished?
    ensures Upgrade(reg, tags).tags == tags + Ups(reg) - Downs(reg)
    ensures Upgraded(reg, tags, Upgrade(reg, tags).tags)
    ensures Upgrade(reg, Upgrade(reg, tags).tags) == Finished(Upgrade(reg, tags).tags)
  {
    RoundsResult(reg, tags);
    var after := tags + Ups(reg) - Downs(reg);
    assert ToApply(reg, after) == {};
  }

  // ----- When the worklist gives up.

  /** t waits for a tag that is absent and can only come from the blocked tags, if at all. */
  ghost predicate Waits(reg: Registry, tags: set<Tag>, toApply: set<Tag>, blocked: set<Tag>, t: Tag)
    requires t in reg
  {
    exists d | d in reg[t].depends :: d !in tags && (d in blocked || d !in toApply)
  }

  ghost predicate Blocked(reg: Registry, tags: set<Tag>, toApply: set<Tag>, blocked: set<Tag>)
    requires toApply <= reg.Keys
  {
    blocked != {} && blocked <= toApply && forall t | t in blocked :: Waits(reg, tags, toApply, blocked, t)
  }

  /** Tags that only wait for each other are never applied. */
  lemma {:induction false} BlockedStuck(reg: Registry, tags: set<Tag>, toApply: set<Tag>, blocked: set<Tag>)
    requires toApply <= reg.Keys && Blocked(reg, tags, toApply, blocked)
    ensures Rounds(reg, tags, toApply).Stuck?
    decreases |toApply|
  {
    var ready := ReadySet(reg, tags, toApply);
    if ready != {} {
      var next, rest := Updated(reg, tags, ready), toApply - ready;
      hide Ups, Downs;
      forall t | t in blocked ensures t !in ready && Waits(reg, next, rest, blocked, t) {
        StillWaits(reg, tags, toApply, blocked, t);
      }
      Shrinks(toApply, ready);
      BlockedStuck(reg, next, rest, blocked);
    }
  }

  lemma StillWaits(reg: Registry, tags: set<Tag>, toApply: set<Tag>, blocked: set<Tag>, t: Tag)
    requires toApply <= reg.Keys && Blocked(reg, tags, toApply, blocked) && t in blocked
    ensures var ready := ReadySet(reg, tags, toApply);
            t !in ready && Waits(reg, Updated(reg, tags, ready), toApply - ready, blocked, t)
  {
  }

  ghost predicate NeedsOne(reg: Registry, left: set<Tag>, t: Tag)
    requires t in reg
  {
    exists d | d in reg[t].depends :: d in left
  }

  ghost predicate DependsWithin(reg: Registry, left: set<Tag>) {
    left <= reg.Keys && forall t | t in left :: NeedsOne(reg, left, t)
  }

  /** Nothing that is to be applied depends on a tag that is to be removed. */
  ghost predicate NoneOnRemoved(reg: Registry, tags: set<Tag>) {
    forall t | t in ToApply(reg, tags) :: forall d | d in reg[t].depends :: d !in Downs(reg)
  }

  lemma RoundsStep(reg: Registry, tags: set<Tag>, toApply: set<Tag>)
    requires toApply <= reg.Keys
    ensures var ready := ReadySet(reg, tags, toApply);
            Rounds(reg, tags, toApply) ==
            if toApply == {} then Finished(tags)
            else if ready == {} then Stuck(toApply, tags)
            else Rounds(reg, Updated(reg, tags, ready), toApply - ready)
  {
  }

  /** What an upgrade that is left over waits for is another upgrade that is left over. */
  lemma NothingReady(reg: Registry, tags: set<Tag>, t: Tag)
    requires Audited(reg) && NoneOnRemoved(reg, tags) && t in ToApply(reg, tags)
    requires ReadySet(reg, tags, ToApply(reg, tags)) == {}
    ensures t in reg && NeedsOne(reg, Ups(reg) - tags, t)
  {
    assert t !in ReadySet(reg, tags, ToApply(reg, tags));
    var d :| d in reg[t].depends && d !in tags;
    assert d in reg && d !in Downs(reg);
  }

  lemma NothingReadyAll(reg: Registry, tags: set<Tag>)
    requires Audited(reg) && NoneOnRemoved(reg, tags) && ToApply(reg, tags) != {}
    requires ReadySet(reg, tags, ToApply(reg, tags)) == {}
    ensures Ups(reg) - tags != {} && DependsWithin(reg, Ups(reg) - tags)
  {
    var t :| t in ToApply(reg, tags);
    NothingReady(reg, tags, t);
    var d := NeededOne(reg, Ups(reg) - tags, t);
    forall u | u in Ups(reg) - tags ensures NeedsOne(reg, Ups(reg) - tags, u) {
      NothingReady(reg, tags, u);
    }
  }

  lemma NoneOnRemovedNext(reg: Registry, tags: set<Tag>, next: set<Tag>)
    requires NoneOnRemoved(reg, tags) && ToApply(reg, next) <= ToApply(reg, tags)
    ensures NoneOnRemoved(reg, next)
  {
    hide Ups, Downs, ToApply;
    assert forall t | t in ToApply(reg, next) :: t in ToApply(reg, tags);
  }

  /** One round that applies something. */
  lemma RoundMoves(reg: Registry, tags: set<Tag>)
    ensures ToApply(reg, tags) <= reg.Keys
    ensures var ready := ReadySet(reg, tags, ToApply(reg, tags));
            var next := Updated(reg, tags, ready);
            && ToApply(reg, next) == ToApply(reg, tags) - ready
            && Ups(reg) - next <= Ups(reg) - tags
            && (ready != {} ==> |ToApply(reg, next)| < |ToApply(reg, tags)| && Upgrade(reg, tags) == Upgrade(reg, next))
  {
    var toApply := ToApply(reg, tags);
    var ready := ReadySet(reg, tags, toApply);
    assert Ups(reg) !! Downs(reg);
    assert ready <= toApply;
    hide Ups, Downs, ReadySet;
    RoundSets(Ups(reg), Downs(reg), tags, ready);
    RoundsStep(reg, tags, toApply);
    if ready != {} {
      Shrinks(toApply, ready);
    }
  }

  /** If nothing depends on removed tags, a run that gives up leaves upgrades that wait for each other. */
  lemma {:induction false} LeftWaits(reg: Registry, tags: set<Tag>) returns (left: set<Tag>)
    requires Audited(reg) && NoneOnRemoved(reg, tags) && Upgrade(reg, tags).Stuck?
    ensures left != {} && left <= Ups(reg) - tags && DependsWithin(reg, left)
    decreases |ToApply(reg, tags)|
  {
    var ready := ReadySet(reg, tags, ToApply(reg, tags));
    RoundMoves(reg, tags);
    RoundsStep(reg, tags, ToApply(reg, tags));
    hide Ups, Downs, ToApply, Rounds, ReadySet, DependsWithin, Audited, NoneOnRemoved, Updated;
    if ready == {} {
      NothingReadyAll(reg, tags);
      left := Ups(reg) - tags;
    } else {
      var next := Updated(reg, tags, ready);
      NoneOnRemovedNext(reg, tags, next);
      left := LeftWaits(reg, next);
    }
  }

  /** A chain of tags each depending on the next one. */
  ghost predicate Chain(reg: Registry, c: seq<Tag>, within: set<Tag>) {
    && (forall i | 0 <= i < |c| :: c[i] in within && c[i] in reg)
    && (forall i | 0 <= i < |c| - 1 :: c[i + 1] in reg[c[i]].depends)
  }

  /** A chain whose last tag depends on its first. */
  ghost predicate Cycle(reg: Registry, c: seq<Tag>, within: set<Tag>) {
    c != [] && Chain(reg, c, within) && c[0] in reg[c[|c| - 1]].depends
  }

  ghost function Seen(c: seq<Tag>): set<Tag> {
    set t | t in c
  }

  lemma ChainCloses(reg: Registry, left: set<Tag>, c: seq<Tag>, i: nat)
    requires Chain(reg, c, left) && i < |c| && c[i] in reg[c[|c| - 1]].depends
    ensures Cycle(reg, c[i..], left)
  {
  }

  lemma ChainGrows(reg: Registry, left: set<Tag>, c: seq<Tag>, d: Tag)
    requires c != [] && Chain(reg, c, left) && d in left && d in reg && d in reg[c[|c| - 1]].depends
    ensures Chain(reg, c + [d], left)
  {
  }

  lemma SeenGrows(left: set<Tag>, c: seq<Tag>, d: Tag)
    requires d in left && d !in c
    ensures |left - Seen(c + [d])| < |left - Seen(c)|
  {
    assert Seen(c + [d]) == Seen(c) + {d};
    assert left - Seen(c + [d]) == (left - Seen(c)) - {d};
    Shrinks(left - Seen(c), {d});
  }

  /** Following dependencies inside a finite set must come back to a tag already seen. */
  lemma {:induction false} ExtendChain(reg: Registry, left: set<Tag>, c: seq<Tag>) returns (cycle: seq<Tag>)
    requires DependsWithin(reg, left) && c != [] && Chain(reg, c, left)
    ensures Cycle(reg, cycle, left)
    decreases |left - Seen(c)|
  {
    hide Chain, Cycle, Seen, DependsWithin;
    var d := NextInChain(reg, left, c);
    if i :| 0 <= i < |c| && c[i] == d {
      ChainCloses(reg, left, c, i);
      cycle := c[i..];
    } else {
      ChainGrows(reg, left, c, d);
      SeenGrows(left, c, d);
      cycle := ExtendChain(reg, left, c + [d]);
    }
  }

  lemma NextInChain(reg: Registry, left: set<Tag>, c: seq<Tag>) returns (d: Tag)
    requires DependsWithin(reg, left) && c != [] && Chain(reg, c, left)
    ensures c[|c| - 1] in reg && d in reg[c[|c| - 1]].depends && d in left && d in reg
  {
    hide NeedsOne;
    d := NeededOne(reg, left, c[|c| - 1]);
  }

  lemma NeededOne(reg: Registry, left: set<Tag>, t: Tag) returns (d: Tag)
    requires t in reg && NeedsOne(reg, left, t)
    ensures d in reg[t].depends && d in left
  {
    d :| d in reg[t].depends && d in left;
  }

  lemma CycleBlocks(reg: Registry, tags: set<Tag>, c: seq<Tag>)
    requires Cycle(reg, c, Ups(reg) - tags)
    ensures Upgrade(reg, tags).Stuck?
  {
    var toApply, blocked := ToApply(reg, tags), set t | t in c;
    ToApplyKnown(reg, tags);
    forall t | t in blocked ensures t in toApply && Waits(reg, tags, toApply, blocked, t) {
      var i :| 0 <= i < |c| && c[i] == t;
      var d := if i + 1 < |c| then c[i + 1] else c[0];
      assert d in reg[t].depends && d !in tags && d in blocked;
    }
    assert c[0] in blocked;
    BlockedStuck(reg, tags, toApply, blocked);
  }

  /**
   * A run aborts if and only if the missing upgrades contain a dependency cycle, provided that
   * nothing depends on a removed tag; so in particular with upgraders only.
   */
  lemma AbortsIffCycle(reg: Registry, tags: set<Tag>)
    requires Audited(reg) && NoneOnRemoved(reg, tags)
    ensures Upgrade(reg, tags).Stuck? <==> HasCycle(reg, Ups(reg) - tags)
  {
    hide Upgrade, Ups, Downs, Audited, NoneOnRemoved;
    if Upgrade(reg, tags).Stuck? {
      var left := LeftWaits(reg, tags);
      var t :| t in left;
      var c := ExtendChain(reg, left, [t]);
      assert Cycle(reg, c, Ups(reg) - tags);
    }
    if c :| Cycle(reg, c, Ups(reg) - tags) {
      CycleBlocks(reg, tags, c);
    }
  }

  ghost predicate HasCycle(reg: Registry, within: set<Tag>) {
    exists c :: Cycle(reg, c, within)
  }

  // ----- Exactly when a run ends, dependencies on removed tags included.

  type Depths = map<Tag, nat>

  /** t comes after the missing upgrade d, or not after the removal of the tag d that is there. */
  ghost predicate InTime(reg: Registry, tags: set<Tag>, depth: Depths, t: Tag, d: Tag)
    requires depth.Keys == ToApply(reg, tags) && t in depth
  {
    if d in tags then d in Downs(reg) ==> depth[t] <= depth[d] else d in Ups(reg) && depth[d] < depth[t]
  }

  /** Nothing puts t at a greater depth than the missing upgrades it depends on. */
  ghost predicate Tight(reg: Registry, tags: set<Tag>, depth: Depths, t: Tag)
    requires depth.Keys == ToApply(reg, tags) && t in depth && t in reg
  {
    depth[t] == 0 || exists d | d in reg[t].depends :: d in Ups(reg) - tags && depth[d] + 1 == depth[t]
  }

  /**
   * The depth of what is to be applied is the length of the longest chain of missing upgrades
   * below it. Every dependency is there or will be, and no tag goes at a smaller depth than
   * that of something which depends on it.
   */
  ghost predicate Scheduled(reg: Registry, tags: set<Tag>, depth: Depths) {
    && depth.Keys == ToApply(reg, tags) && ToApply(reg, tags) <= reg.Keys
    && forall t | t in depth ::
         Tight(reg, tags, depth, t) && forall d | d in reg[t].depends :: InTime(reg, tags, depth, t, d)
  }

  lemma {:induction false} DepthBelow(reg: Registry, tags: set<Tag>, a: Depths, b: Depths, t: Tag)
    requires Scheduled(reg, tags, a) && Scheduled(reg, tags, b) && t in a
    ensures a[t] <= b[t]
    decreases a[t]
  {
    assert Tight(reg, tags, a, t);
    if a[t] > 0 {
      var d :| d in reg[t].depends && d in Ups(reg) - tags && a[d] + 1 == a[t];
      DepthBelow(reg, tags, a, b, d);
      assert InTime(reg, tags, b, t, d);
    }
  }

  /** There is only one candidate for the depths. */
  lemma DepthUnique(reg: Registry, tags: set<Tag>, a: Depths, b: Depths)
    requires Scheduled(reg, tags, a) && Scheduled(reg, tags, b)
    ensures a == b
  {
    forall t | t in a ensures a[t] == b[t] {
      DepthBelow(reg, tags, a, b, t);
      DepthBelow(reg, tags, b, a, t);
    }
  }

  lemma {:induction false} SomeZero(reg: Registry, tags: set<Tag>, depth: Depths, t: Tag) returns (z: Tag)
    requires Scheduled(reg, tags, depth) && t in depth
    ensures z in depth && depth[z] == 0
    decreases depth[t]
  {
    z := t;
    assert Tight(reg, tags, depth, t);
    if depth[t] > 0 {
      var d :| d in reg[t].depends && d in Ups(reg) - tags && depth[d] + 1 == depth[t];
      z := SomeZero(reg, tags, depth, d);
    }
  }

  /** The first round applies what has depth 0. */
  lemma ReadyIsZero(reg: Registry, tags: set<Tag>, depth: Depths, t: Tag)
    requires Scheduled(reg, tags, depth) && t in depth
    ensures Ready(reg, tags, t) <==> depth[t] == 0
  {
    hide Ups, Downs;
    assert Tight(reg, tags, depth, t);
    assert forall d | d in reg[t].depends :: InTime(reg, tags, depth, t, d);
  }

  /** What a round does to one tag. */
  lemma NextHas(reg: Registry, tags: set<Tag>, done: set<Tag>, d: Tag)
    requires done <= ToApply(reg, tags)
    ensures var next := Updated(reg, tags, done);
            && (d in Ups(reg) ==> (d in next <==> d in tags || d in done))
            && (d in Downs(reg) ==> (d in next <==> d in tags && d !in done))
            && (d !in Ups(reg) && d !in Downs(reg) ==> (d in next <==> d in tags))
  {
  }

  ghost function Sooner(reg: Registry, next: set<Tag>, depth: Depths): Depths
    requires forall t | t in ToApply(reg, next) :: t in depth && depth[t] > 0
  {
    map t | t in ToApply(reg, next) :: depth[t] - 1
  }

  ghost function Deeper(reg: Registry, tags: set<Tag>, ready: set<Tag>, depth: Depths): Depths
    requires forall t | t in ToApply(reg, tags) && t !in ready :: t in depth
  {
    map t | t in ToApply(reg, tags) :: if t in ready then 0 else depth[t] + 1
  }

  /** One round further, all depths are one less. */
  lemma SoonerInTime(reg: Registry, tags: set<Tag>, ready: set<Tag>, depth: Depths, t: Tag, d: Tag)
    requires Scheduled(reg, tags, depth) && ready <= ToApply(reg, tags)
    requires ToApply(reg, Updated(reg, tags, ready)) == ToApply(reg, tags) - ready
    requires forall u | u in depth :: u in ready <==> depth[u] == 0
    requires t in ToApply(reg, tags) - ready && d in reg[t].depends
    ensures InTime(reg, Updated(reg, tags, ready), Sooner(reg, Updated(reg, tags, ready), depth), t, d)
  {
    assert InTime(reg, tags, depth, t, d);
    NextHas(reg, tags, ready, d);
    hide Updated, Ups, Downs;
  }

  lemma SoonerTight(reg: Registry, tags: set<Tag>, ready: set<Tag>, depth: Depths, t: Tag)
    requires Scheduled(reg, tags, depth) && ready <= ToApply(reg, tags)
    requires ToApply(reg, Updated(reg, tags, ready)) == ToApply(reg, tags) - ready
    requires forall u | u in depth :: u in ready <==> depth[u] == 0
    requires t in ToApply(reg, tags) - ready
    ensures Tight(reg, Updated(reg, tags, ready), Sooner(reg, Updated(reg, tags, ready), depth), t)
  {
    assert Tight(reg, tags, depth, t);
    var d :| d in reg[t].depends && d in Ups(reg) - tags && depth[d] + 1 == depth[t];
    NextHas(reg, tags, ready, d);
    hide Updated, Ups, Downs;
  }

  /** The first round applies exactly what has depth 0, and that is something. */
  lemma ZeroFirst(reg: Registry, tags: set<Tag>, depth: Depths)
    requires Scheduled(reg, tags, depth)
    ensures forall t | t in depth :: t in ReadySet(reg, tags, ToApply(reg, tags)) <==> depth[t] == 0
    ensures ToApply(reg, tags) != {} ==> ReadySet(reg, tags, ToApply(reg, tags)) != {}
  {
    var ready := ReadySet(reg, tags, ToApply(reg, tags));
    forall t | t in depth ensures t in ready <==> depth[t] == 0 {
      ReadyIsZero(reg, tags, depth, t);
    }
    if t :| t in ToApply(reg, tags) {
      var z := SomeZero(reg, tags, depth, t);
      assert z in ready;
    }
  }

  lemma SoonerScheduled(reg: Registry, tags: set<Tag>, ready: set<Tag>, depth: Depths)
    requires Scheduled(reg, tags, depth) && ready <= ToApply(reg, tags)
    requires ToApply(reg, Updated(reg, tags, ready)) == ToApply(reg, tags) - ready
    requires forall u | u in depth :: u in ready <==> depth[u] == 0
    ensures Scheduled(reg, Updated(reg, tags, ready), Sooner(reg, Updated(reg, tags, ready), depth))
  {
    hide ToApply, Updated, Tight, InTime;
    var next := Updated(reg, tags, ready);
    var sooner := Sooner(reg, next, depth);
    forall t | t in sooner ensures Tight(reg, next, sooner, t) {
      SoonerTight(reg, tags, ready, depth, t);
    }
    forall t, d | t in sooner && d in reg[t].depends ensures InTime(reg, next, sooner, t, d) {
      SoonerInTime(reg, tags, ready, depth, t, d);
    }
  }

  lemma ReadyWithin(reg: Registry, tags: set<Tag>)
    ensures ToApply(reg, tags) <= reg.Keys && ReadySet(reg, tags, ToApply(reg, tags)) <= ToApply(reg, tags)
  {
  }

  lemma {:induction false} ScheduledEnds(reg: Registry, tags: set<Tag>, depth: Depths)
    requires Scheduled(reg, tags, depth)
    ensures Upgrade(reg, tags).Finished?
    decreases |ToApply(reg, tags)|
  {
    RoundsStep(reg, tags, ToApply(reg, tags));
    hide ToApply, Updated, Scheduled, Rounds, ReadySet;
    RoundMoves(reg, tags);
    ReadyWithin(reg, tags);
    if ToApply(reg, tags) != {} {
      var ready := ReadySet(reg, tags, ToApply(reg, tags));
      var next := Updated(reg, tags, ready);
      ZeroFirst(reg, tags, depth);
      ScheduleCovers(reg, tags, depth);
      SoonerScheduled(reg, tags, ready, depth);
      ScheduledEnds(reg, next, Sooner(reg, next, depth));
    }
  }

  lemma ScheduleCovers(reg: Registry, tags: set<Tag>, depth: Depths)
    requires Scheduled(reg, tags, depth)
    ensures forall t :: t in depth <==> t in ToApply(reg, tags)
  {
  }

  lemma DeeperInTime(reg: Registry, tags: set<Tag>, ready: set<Tag>, depth: Depths, t: Tag, d: Tag)
    requires ready <= ToApply(reg, tags) && Scheduled(reg, Updated(reg, tags, ready), depth)
    requires ToApply(reg, Updated(reg, tags, ready)) == ToApply(reg, tags) - ready
    requires t in ToApply(reg, tags) && t in reg && d in reg[t].depends && (t in ready ==> Ready(reg, tags, t))
    ensures InTime(reg, tags, Deeper(reg, tags, ready, depth), t, d)
  {
    NextHas(reg, tags, ready, d);
    if t !in ready {
      assert InTime(reg, Updated(reg, tags, ready), depth, t, d);
    }
    hide Updated, Ups, Downs;
  }

  lemma DeeperTight(reg: Registry, tags: set<Tag>, ready: set<Tag>, depth: Depths, t: Tag)
    requires ready <= ToApply(reg, tags) && Scheduled(reg, Updated(reg, tags, ready), depth)
    requires ToApply(reg, Updated(reg, tags, ready)) == ToApply(reg, tags) - ready
    requires t in ToApply(reg, tags) && t in reg && (t in ready <==> Ready(reg, tags, t))
    ensures Tight(reg, tags, Deeper(reg, tags, ready, depth), t)
  {
    if t !in ready {
      var next := Updated(reg, tags, ready);
      assert Tight(reg, next, depth, t);
      if depth[t] > 0 {
        var d :| d in reg[t].depends && d in Ups(reg) - next && depth[d] + 1 == depth[t];
        NextHas(reg, tags, ready, d);
      } else {
        var d :| d in reg[t].depends && d !in tags;
        assert InTime(reg, next, depth, t, d);
        NextHas(reg, tags, ready, d);
      }
    }
  }

  lemma DeeperScheduled(reg: Registry, tags: set<Tag>, depth: Depths)
    requires var ready := ReadySet(reg, tags, ToApply(reg, tags));
             Scheduled(reg, Updated(reg, tags, ready), depth)
    ensures Scheduled(reg, tags, Deeper(reg, tags, ReadySet(reg, tags, ToApply(reg, tags)), depth))
  {
    RoundMoves(reg, tags);
    ReadyWithin(reg, tags);
    var ready := ReadySet(reg, tags, ToApply(reg, tags));
    assert forall t | t in ToApply(reg, tags) :: t in ready <==> Ready(reg, tags, t);
    hide ToApply, Updated, Tight, InTime, ReadySet, Ready, Upgrade;
    var deeper := Deeper(reg, tags, ready, depth);
    forall t | t in deeper ensures Tight(reg, tags, deeper, t) {
      DeeperTight(reg, tags, ready, depth, t);
    }
    forall t, d | t in deeper && d in reg[t].depends ensures InTime(reg, tags, deeper, t, d) {
      DeeperInTime(reg, tags, ready, depth, t, d);
    }
  }

  lemma {:induction false} EndsScheduled(reg: Registry, tags: set<Tag>) returns (depth: Depths)
    requires Upgrade(reg, tags).Finished?
    ensures Scheduled(reg, tags, depth)
    decreases |ToApply(reg, tags)|
  {
    depth := map[];
    RoundsStep(reg, tags, ToApply(reg, tags));
    hide ToApply, Updated, Rounds, ReadySet;
    RoundMoves(reg, tags);
    ReadyWithin(reg, tags);
    if ToApply(reg, tags) != {} {
      hide Scheduled;
      var later := EndsScheduled(reg, Updated(reg, tags, ReadySet(reg, tags, ToApply(reg, tags))));
      DeeperScheduled(reg, tags, later);
      depth := Deeper(reg, tags, ReadySet(reg, tags, ToApply(reg, tags)), later);
    }
  }

  /** A run ends if and only if everything to be applied can be given a depth. */
  lemma EndsIffScheduled(reg: Registry, tags: set<Tag>)
    ensures Upgrade(reg, tags).Finished? <==> exists depth :: Scheduled(reg, tags, depth)
  {
    hide Upgrade, Scheduled;
    if Upgrade(reg, tags).Finished? {
      var depth := EndsScheduled(reg, tags);
    }
    if depth :| Scheduled(reg, tags, depth) {
      ScheduledEnds(reg, tags, depth);
    }
  }

  // ----- Runs in every iteration order, and the documented rule for removed tags.

  /** The tags of a set, one after the other. */
  ghost predicate Arranges(s: seq<Tag>, all: set<Tag>) {
    Distinct(s) && |s| == |all| && forall t :: t in s <==> t in all
  }

  /** An order in which a run may apply the tags: round by round, each round in any order. */
  ghost predicate IsRun(reg: Registry, tags: set<Tag>, toApply: set<Tag>, applied: seq<Tag>)
    requires toApply <= reg.Keys
    decreases |toApply|
  {
    var ready := ReadySet(reg, tags, toApply);
    if ready == {} then applied == []
    else
      Shrinks(toApply, ready);
      && |ready| <= |applied| && Arranges(applied[..|ready|], ready)
      && IsRun(reg, Updated(reg, tags, ready), toApply - ready, applied[|ready|..])
  }

  lemma RunStep(reg: Registry, tags: set<Tag>, toApply: set<Tag>, more: seq<Tag>, rest: seq<Tag>)
    requires toApply <= reg.Keys && ReadySet(reg, tags, toApply) != {}
    requires Arranges(more, ReadySet(reg, tags, toApply))
    requires IsRun(reg, Updated(reg, tags, ReadySet(reg, tags, toApply)), toApply - ReadySet(reg, tags, toApply), rest)
    ensures IsRun(reg, tags, toApply, more + rest)
  {
    hide ReadySet, Updated;
    assert (more + rest)[..|more|] == more && (more + rest)[|more|..] == rest;
  }

  lemma {:induction false} Arrange(all: set<Tag>) returns (s: seq<Tag>)
    ensures Arranges(s, all)
    decreases |all|
  {
    if all == {} {
      s := [];
    } else {
      var t :| t in all;
      s := ArrangeFrom(all, t);
    }
  }

  /** Any tag of a set can come first. */
  lemma {:induction false} ArrangeFrom(all: set<Tag>, t: Tag) returns (s: seq<Tag>)
    requires t in all
    ensures Arranges(s, all) && s[0] == t
    decreases |all|, 0
  {
    Shrinks(all, {t});
    var rest := Arrange(all - {t});
    s := [t] + rest;
  }

  lemma {:induction false} SomeRun(reg: Registry, tags: set<Tag>, toApply: set<Tag>) returns (applied: seq<Tag>)
    requires toApply <= reg.Keys
    ensures IsRun(reg, tags, toApply, applied)
    decreases |toApply|
  {
    var ready := ReadySet(reg, tags, toApply);
    if ready == {} {
      applied := [];
    } else {
      assert ready <= toApply;
      hide ReadySet, Updated, Arranges;
      Shrinks(toApply, ready);
      var first := Arrange(ready);
      var rest := SomeRun(reg, Updated(reg, tags, ready), toApply - ready);
      RunStep(reg, tags, toApply, first, rest);
      applied := first + rest;
    }
  }

  lemma InEither(first: seq<Tag>, rest: seq<Tag>, all: set<Tag>)
    requires (forall t | t in first :: t in all) && (forall t | t in rest :: t in all)
    ensures forall t | t in first + rest :: t in all
  {
  }

  /** A run takes up the ready tags first and goes on with the rest. */
  lemma RunParts(reg: Registry, tags: set<Tag>, toApply: set<Tag>, applied: seq<Tag>)
    requires toApply <= reg.Keys && IsRun(reg, tags, toApply, applied)
    ensures var ready := ReadySet(reg, tags, toApply);
            && ready <= toApply && (ready == {} ==> applied == [])
            && (ready != {} ==>
                  && |toApply - ready| < |toApply| && |ready| <= |applied|
                  && (forall t | t in applied[..|ready|] :: t in toApply)
                  && IsRun(reg, Updated(reg, tags, ready), toApply - ready, applied[|ready|..]))
  {
    var ready := ReadySet(reg, tags, toApply);
    assert ready <= toApply;
    if ready != {} {
      Shrinks(toApply, ready);
    }
    hide Updated, ReadySet;
  }

  lemma {:induction false} RunApplies(reg: Registry, tags: set<Tag>, toApply: set<Tag>, applied: seq<Tag>)
    requires toApply <= reg.Keys && IsRun(reg, tags, toApply, applied)
    ensures forall t | t in applied :: t in toApply
    decreases |toApply|
  {
    hide IsRun, Updated, ReadySet;
    var ready := ReadySet(reg, tags, toApply);
    RunParts(reg, tags, toApply, applied);
    if ready != {} {
      var first, rest := applied[..|ready|], applied[|ready|..];
      RunApplies(reg, Updated(reg, tags, ready), toApply - ready, rest);
      assert applied == first + rest;
      InEither(first, rest, toApply);
    }
  }

  /**
   * What the documentation asks for: whatever runs and depends on a tag with a downgrader runs
   * after that tag has been removed, in this run or before it.
   */
  ghost predicate RemovedFirst(reg: Registry, start: set<Tag>, applied: seq<Tag>) {
    forall k | 0 <= k < |applied| :: applied[k] in reg && RemovedBefore(reg, start, applied[..k], applied[k])
  }

  ghost predicate RemovedBefore(reg: Registry, start: set<Tag>, earlier: seq<Tag>, t: Tag)
    requires t in reg
  {
    forall d | d in reg[t].depends && d in Downs(reg) :: d !in start || d in earlier
  }

  /** A tag that depends on a removed tag which is already gone can never run. */
  lemma RemovedDependencyBlocks(reg: Registry, tags: set<Tag>, toApply: set<Tag>, t: Tag, d: Tag)
    requires toApply <= reg.Keys && t in toApply && d in reg[t].depends && d !in tags && d !in toApply
    ensures Rounds(reg, tags, toApply).Stuck?
  {
    assert Waits(reg, tags, toApply, {t}, t);
    BlockedStuck(reg, tags, toApply, {t});
  }

  /** A removed tag leaves the tags with the round that applies it, and not before. */
  lemma RemovalRound(reg: Registry, tags: set<Tag>, toApply: set<Tag>, d: Tag)
    requires toApply <= reg.Keys && d in Downs(reg) && d in tags && d in toApply
    ensures var ready := ReadySet(reg, tags, toApply);
            ready <= toApply && (d in Updated(reg, tags, ready) <==> d in toApply - ready)
  {
  }

  /** If it is still there and the run ends, some order runs the tag before the removal. */
  lemma {:induction false} PresentRunsFirst(reg: Registry, tags: set<Tag>, toApply: set<Tag>, t: Tag, d: Tag)
    returns (applied: seq<Tag>, k: nat)
    requires toApply <= reg.Keys && t in toApply && d in reg[t].depends && d in Downs(reg) && d in tags && d in toApply
    requires Rounds(reg, tags, toApply).Finished?
    ensures IsRun(reg, tags, toApply, applied)
    ensures k < |applied| && applied[k] == t && d !in applied[..k]
    decreases |toApply|
  {
    var ready := ReadySet(reg, tags, toApply);
    var next, left := Updated(reg, tags, ready), toApply - ready;
    RoundsStep(reg, tags, toApply);
    RemovalRound(reg, tags, toApply, d);
    hide ReadySet, Updated, Rounds, Downs, Ups, IsRun;
    Shrinks(toApply, ready);
    if t in ready {
      var first := ArrangeFrom(ready, t);
      hide Arranges;
      var rest := SomeRun(reg, next, left);
      RunStep(reg, tags, toApply, first, rest);
      applied, k := first + rest, 0;
    } else {
      StillPresent(reg, next, left, t, d);
      var rest, j := PresentRunsFirst(reg, next, left, t, d);
      var first := Arrange(ready);
      assert d !in first;
      hide Arranges;
      RunStep(reg, tags, toApply, first, rest);
      Later(first, rest, j, d);
      applied, k := first + rest, |first| + j;
    }
  }

  lemma Later(first: seq<Tag>, rest: seq<Tag>, j: nat, d: Tag)
    requires j < |rest| && d !in first && d !in rest[..j]
    ensures (first + rest)[|first| + j] == rest[j] && d !in (first + rest)[..|first| + j]
  {
    assert (first + rest)[..|first| + j] == first + rest[..j];
  }

  lemma StillPresent(reg: Registry, tags: set<Tag>, toApply: set<Tag>, t: Tag, d: Tag)
    requires toApply <= reg.Keys && t in toApply && d in reg[t].depends && (d in tags <==> d in toApply)
    requires Rounds(reg, tags, toApply).Finished?
    ensures d in tags
  {
    hide Rounds;
    if d !in tags {
      RemovedDependencyBlocks(reg, tags, toApply, t, d);
    }
  }

  /** Every order in which a run may apply the tags follows the documented rule. */
  ghost predicate AlwaysRemovedFirst(reg: Registry, start: set<Tag>)
    requires ToApply(reg, start) <= reg.Keys
  {
    forall applied | IsRun(reg, start, ToApply(reg, start), applied) :: RemovedFirst(reg, start, applied)
  }

  lemma BreaksRule(reg: Registry, start: set<Tag>, t: Tag, d: Tag)
    requires ToApply(reg, start) <= reg.Keys && t in ToApply(reg, start) && d in reg[t].depends && d in Downs(reg)
    ensures !(Upgrade(reg, start).Finished? && AlwaysRemovedFirst(reg, start))
  {
    var all := ToApply(reg, start);
    assert d in start <==> d in all;
    if Upgrade(reg, start).Finished? {
      hide Rounds, IsRun;
      StillPresent(reg, start, all, t, d);
      var applied, k := PresentRunsFirst(reg, start, all, t, d);
      assert !RemovedBefore(reg, start, applied[..k], applied[k]);
    }
  }

  /** A downgraded tag d and an upgrade t that depends on it. */
  function Pair(d: Tag, t: Tag): Registry {
    map[d := Upgrader([], [], true), t := Upgrader([d], [], false)]
  }

  lemma PairSets(d: Tag, t: Tag)
    requires d != t
    ensures Ups(Pair(d, t)) == {t} && Downs(Pair(d, t)) == {d} && {d, t} <= Pair(d, t).Keys
    ensures ReadySet(Pair(d, t), {d}, {d, t}) == {d, t} && ReadySet(Pair(d, t), {t}, {}) == {}
  {
  }

  lemma PairArranged(d: Tag, t: Tag)
    requires d != t
    ensures Arranges([d, t], {d, t}) && Arranges([t, d], {d, t})
  {
    assert |{d, t}| == 2;
  }

  /** With d present both are ready in the first round, and the order of the set decides about the rule. */
  lemma SameRound(d: Tag, t: Tag)
    requires d != t
    ensures ToApply(Pair(d, t), {d}) == {d, t} <= Pair(d, t).Keys && Upgrade(Pair(d, t), {d}) == Finished({t})
    ensures IsRun(Pair(d, t), {d}, {d, t}, [d, t]) && RemovedFirst(Pair(d, t), {d}, [d, t])
    ensures IsRun(Pair(d, t), {d}, {d, t}, [t, d]) && !RemovedFirst(Pair(d, t), {d}, [t, d])
  {
    var reg := Pair(d, t);
    PairSets(d, t);
    PairArranged(d, t);
    PairRule(d, t);
    hide Ups, Downs, ReadySet, Arranges, IsRun, RemovedFirst, Rounds, Pair;
    assert ToApply(reg, {d}) == {d, t} && Updated(reg, {d}, {d, t}) == {t} && {d, t} - {d, t} == {};
    RoundsStep(reg, {d}, {d, t});
    RoundsStep(reg, {t}, {});
    PairRuns(reg, {d}, {d, t}, [d, t]);
    PairRuns(reg, {d}, {d, t}, [t, d]);
  }

  lemma PairRule(d: Tag, t: Tag)
    requires d != t
    ensures RemovedFirst(Pair(d, t), {d}, [d, t]) && !RemovedFirst(Pair(d, t), {d}, [t, d])
  {
    var reg := Pair(d, t);
    assert !RemovedBefore(reg, {d}, [t, d][..0], [t, d][0]) by { assert d in reg[t].depends; }
    assert RemovedBefore(reg, {d}, [d, t][..0], [d, t][0]);
    assert RemovedBefore(reg, {d}, [d, t][..1], [d, t][1]) by { assert [d, t][..1] == [d]; }
  }

  lemma PairRuns(reg: Registry, tags: set<Tag>, all: set<Tag>, s: seq<Tag>)
    requires all <= reg.Keys && all != {} && ReadySet(reg, tags, all) == all && Arranges(s, all)
    requires ReadySet(reg, Updated(reg, tags, all), {}) == {}
    ensures IsRun(reg, tags, all, s)
  {
    hide ReadySet, Updated, Arranges;
    assert all - all == {};
    assert IsRun(reg, Updated(reg, tags, all), {}, []);
    RunStep(reg, tags, all, s, []);
    assert s + [] == s;
  }

  /**
   * A run ends and follows the documented rule in every order, if and only if nothing to be
   * applied depends on a removed tag and the missing upgrades have no dependency cycle.
   */
  lemma RemovedFirstIff(reg: Registry, start: set<Tag>)
    requires Audited(reg)
    ensures ToApply(reg, start) <= reg.Keys
    ensures Upgrade(reg, start).Finished? && AlwaysRemovedFirst(reg, start) <==>
            NoneOnRemoved(reg, start) && !HasCycle(reg, Ups(reg) - start)
  {
    ToApplyKnown(reg, start);
    hide HasCycle, IsRun, Rounds;
    if NoneOnRemoved(reg, start) {
      hide Audited;
      AbortsIffCycle(reg, start);
      forall applied | IsRun(reg, start, ToApply(reg, start), applied) ensures RemovedFirst(reg, start, applied) {
        RunApplies(reg, start, ToApply(reg, start), applied);
      }
    } else {
      var t :| t in ToApply(reg, start) && !forall d | d in reg[t].depends :: d !in Downs(reg);
      var d :| d in reg[t].depends && d in Downs(reg);
      BreaksRule(reg, start, t, d);
    }
  }

  // ----- The method.

  /** Every dependency was present at the start or was applied earlier. */
  ghost predicate DepsFirst(reg: Registry, start: set<Tag>, applied: seq<Tag>) {
    forall k | 0 <= k < |applied| ::
      applied[k] in reg && forall d | d in reg[applied[k]].depends :: d in start || d in applied[..k]
  }

  lemma DepsFirstAppend(reg: Registry, start: set<Tag>, applied: seq<Tag>, t: Tag)
    requires DepsFirst(reg, start, applied) && t in reg
    requires forall d | d in reg[t].depends :: d in start || d in applied
    ensures DepsFirst(reg, start, applied + [t])
  {
    var more := applied + [t];
    forall k | 0 <= k < |more|
      ensures more[k] in reg && forall d | d in reg[more[k]].depends :: d in start || d in more[..k]
    {
      assert more[..k] == applied[..k] && applied[..|applied|] == applied;
    }
  }

  lemma UpdatedOne(reg: Registry, tags: set<Tag>, done: set<Tag>, t: Tag)
    requires t in reg && t !in done
    ensures Updated(reg, tags, done + {t}) ==
            if reg[t].isDowngrade then Updated(reg, tags, done) - {t} else Updated(reg, tags, done) + {t}
  {
  }

  lemma MoveOne(all: set<Tag>, todo: set<Tag>, done: set<Tag>, t: Tag)
    requires done + todo == all && done !! todo && t in todo
    ensures (done + {t}) + (todo - {t}) == all && (done + {t}) !! (todo - {t})
  {
  }

  lemma ArrangeMore(s: seq<Tag>, all: set<Tag>, t: Tag)
    requires Arranges(s, all) && t !in all
    ensures Arranges(s + [t], all + {t})
  {
  }

  /** Run the upgraders and downgraders that are ready, in any order. */
  method ApplyReady(reg: Registry, before: set<Tag>, ready: set<Tag>) returns (tags: set<Tag>, applied: seq<Tag>)
    requires ready <= reg.Keys
    ensures tags == Updated(reg, before, ready) && Arranges(applied, ready)
  {
    tags, applied := before, [];
    var todo := ready;
    ghost var done: set<Tag> := {};
    assert tags == Updated(reg, before, done);
    assert Arranges(applied, done);
    hide Updated, Arranges;
    while todo != {}
      invariant done + todo == ready && done !! todo
      invariant tags == Updated(reg, before, done)
      invariant Arranges(applied, done)
      decreases |todo|
    {
      var t :| t in todo;
      UpdatedOne(reg, before, done, t);
      if reg[t].isDowngrade {
        tags := tags - {t};
      } else {
        tags := tags + {t};
      }
      ArrangeMore(applied, done, t);
      applied := applied + [t];
      Shrinks(todo, {t});
      MoveOne(ready, todo, done, t);
      todo, done := todo - {t}, done + {t};
    }
    assert done == ready;
  }

  lemma {:induction false} DepsFirstRound(reg: Registry, start: set<Tag>, applied: seq<Tag>,
                                          tags: set<Tag>, more: seq<Tag>)
    requires DepsFirst(reg, start, applied) && tags <= start + Seen(applied)
    requires forall t | t in more :: t in reg && Ready(reg, tags, t)
    ensures DepsFirst(reg, start, applied + more)
  {
    if more == [] {
      assert applied + more == applied;
    } else {
      var rest, t := more[..|more| - 1], more[|more| - 1];
      DepsFirstRound(reg, start, applied, tags, rest);
      assert t in more;
      DepsFirstAppend(reg, start, applied + rest, t);
      assert applied + more == applied + rest + [t];
    }
  }

  lemma AppendDistinct(a: seq<Tag>, b: seq<Tag>)
    requires Distinct(a) && Distinct(b) && forall t | t in b :: t !in a
    ensures Distinct(a + b)
  {
    forall i, j | 0 <= i < j < |a + b| ensures (a + b)[i] != (a + b)[j] {
      if i < |a| <= j {
        assert (a + b)[i] in a && (a + b)[j] in b;
      }
    }
  }

  /** What has been applied can be continued to a run from the start by any run from here. */
  ghost predicate Continues(reg: Registry, start: set<Tag>, all: set<Tag>, applied: seq<Tag>,
                            tags: set<Tag>, toApply: set<Tag>)
    requires all <= reg.Keys && toApply <= reg.Keys
  {
    forall rest | IsRun(reg, tags, toApply, rest) :: IsRun(reg, start, all, applied + rest)
  }

  lemma ContinuesAll(reg: Registry, start: set<Tag>, all: set<Tag>)
    requires all <= reg.Keys
    ensures Continues(reg, start, all, [], start, all)
  {
    hide IsRun;
    assert forall rest: seq<Tag> :: [] + rest == rest;
  }

  lemma ContinuesRound(reg: Registry, start: set<Tag>, all: set<Tag>, applied: seq<Tag>,
                       tags: set<Tag>, toApply: set<Tag>, more: seq<Tag>)
    requires all <= reg.Keys && toApply <= reg.Keys && Continues(reg, start, all, applied, tags, toApply)
    requires ReadySet(reg, tags, toApply) != {} && Arranges(more, ReadySet(reg, tags, toApply))
    ensures var ready := ReadySet(reg, tags, toApply);
            Continues(reg, start, all, applied + more, Updated(reg, tags, ready), toApply - ready)
  {
    var ready := ReadySet(reg, tags, toApply);
    hide IsRun, ReadySet, Updated, Arranges;
    forall rest | IsRun(reg, Updated(reg, tags, ready), toApply - ready, rest)
      ensures IsRun(reg, start, all, applied + more + rest)
    {
      RunStep(reg, tags, toApply, more, rest);
      assert applied + more + rest == applied + (more + rest);
    }
  }

  lemma ContinuesDone(reg: Registry, start: set<Tag>, all: set<Tag>, applied: seq<Tag>,
                      tags: set<Tag>, toApply: set<Tag>)
    requires all <= reg.Keys && toApply <= reg.Keys && Continues(reg, start, all, applied, tags, toApply)
    requires ReadySet(reg, tags, toApply) == {}
    ensures IsRun(reg, start, all, applied)
  {
    assert IsRun(reg, tags, toApply, []);
    assert applied + [] == applied;
  }

  /** What holds between the rounds. */
  ghost predicate Progress(reg: Registry, start: set<Tag>, all: set<Tag>, applied: seq<Tag>,
                           tags: set<Tag>, toApply: set<Tag>)
    requires all <= reg.Keys && toApply <= reg.Keys
  {
    && Distinct(applied) && Seen(applied) == all - toApply
    && tags <= start + Seen(applied) && DepsFirst(reg, start, applied)
    && Continues(reg, start, all, applied, tags, toApply)
  }

  lemma ProgressRound(reg: Registry, start: set<Tag>, all: set<Tag>, applied: seq<Tag>,
                      tags: set<Tag>, toApply: set<Tag>, more: seq<Tag>)
    requires toApply <= all <= reg.Keys && Progress(reg, start, all, applied, tags, toApply)
    requires ReadySet(reg, tags, toApply) != {} && Arranges(more, ReadySet(reg, tags, toApply))
    ensures var ready := ReadySet(reg, tags, toApply);
            Progress(reg, start, all, applied + more, Updated(reg, tags, ready), toApply - ready)
  {
    var ready := ReadySet(reg, tags, toApply);
    assert ready <= toApply && forall t | t in more :: t in ready && t in reg && Ready(reg, tags, t);
    OnlyUpdates(reg, tags, ready);
    ContinuesRound(reg, start, all, applied, tags, toApply, more);
    SeenConcat(applied, more, ready);
    NewTags(applied, more, toApply);
    hide Continues, Updated, IsRun, ReadySet, Ready, Arranges, Seen, DepsFirst;
    DepsFirstRound(reg, start, applied, tags, more);
    AppendDistinct(applied, more);
    RoundDone(all, toApply, ready, Seen(applied), start, tags, Updated(reg, tags, ready));
  }

  lemma NewTags(applied: seq<Tag>, more: seq<Tag>, toApply: set<Tag>)
    requires Seen(applied) !! toApply && forall t | t in more :: t in toApply
    ensures forall t | t in more :: t !in applied
  {
    forall t | t in more ensures t !in applied {
      assert t in toApply && t !in Seen(applied);
    }
  }

  lemma RoundDone(all: set<Tag>, toApply: set<Tag>, ready: set<Tag>, seen: set<Tag>,
                  start: set<Tag>, tags: set<Tag>, next: set<Tag>)
    requires ready <= toApply <= all && seen == all - toApply && tags <= start + seen && next <= tags + ready
    ensures seen + ready == all - (toApply - ready) && next <= start + (seen + ready)
  {
  }

  /** The worklist: each tag is applied at most once, after its dependencies, each round in any order. */
  lemma FinishedApplied(reg: Registry, start: set<Tag>, applied: seq<Tag>)
    requires Upgrade(reg, start).Finished? && Seen(applied) == ToApply(reg, start)
    ensures Upgraded(reg, start, Upgrade(reg, start).tags) && forall t :: t in applied <==> Applies(reg, start, t)
  {
    UpgradeResult(reg, start);
    hide Upgrade, Upgraded;
    forall t ensures t in applied <==> Applies(reg, start, t) {
      assert t in Seen(applied) <==> t in ToApply(reg, start);
    }
  }

  method ProcessTags(reg: Registry, start: set<Tag>) returns (r: Outcome, applied: seq<Tag>)
    ensures r == Upgrade(reg, start)
    ensures Distinct(applied)
    ensures Seen(applied) == ToApply(reg, start) - if r.Stuck? then r.left else {}
    ensures r.Finished? ==> Upgraded(reg, start, r.tags) && forall t :: t in applied <==> Applies(reg, start, t)
    ensures DepsFirst(reg, start, applied)
    ensures ToApply(reg, start) <= reg.Keys && IsRun(reg, start, ToApply(reg, start), applied)
  {
    var tags, toApply := start, ToApply(reg, start);
    ghost var all := toApply;
    ToApplyKnown(reg, start);
    ContinuesAll(reg, start, all);
    applied := [];
    assert Progress(reg, start, all, applied, tags, toApply);
    hide Ups, Downs, ToApply, Rounds, Updated, IsRun, Continues, Progress;
    while toApply != {}
      invariant toApply <= all <= reg.Keys && Rounds(reg, tags, toApply) == Upgrade(reg, start)
      invariant Progress(reg, start, all, applied, tags, toApply)
      decreases |toApply|
    {
      var ready := ReadySet(reg, tags, toApply);
      RoundsStep(reg, tags, toApply);
      if ready == {} {
        ProgressDone(reg, start, all, applied, tags, toApply);
        return Stuck(toApply, tags), applied;
      }
      var next, more := ApplyReady(reg, tags, ready);
      ProgressRound(reg, start, all, applied, tags, toApply, more);
      Shrinks(toApply, ready);
      tags, applied, toApply := next, applied + more, toApply - ready;
    }
    RoundsStep(reg, tags, toApply);
    ProgressDone(reg, start, all, applied, tags, toApply);
    r := Finished(tags);
    FinishedApplied(reg, start, applied);
  }

  lemma ProgressDone(reg: Registry, start: set<Tag>, all: set<Tag>, applied: seq<Tag>,
                     tags: set<Tag>, toApply: set<Tag>)
    requires all <= reg.Keys && toApply <= reg.Keys && Progress(reg, start, all, applied, tags, toApply)
    requires ReadySet(reg, tags, toApply) == {}
    ensures Distinct(applied) && Seen(applied) == all - toApply && DepsFirst(reg, start, applied)
    ensures IsRun(reg, start, all, applied)
  {
    hide IsRun, Continues;
    ContinuesDone(reg, start, all, applied, tags, toApply);
  }

  lemma OnlyUpdates(reg: Registry, tags: set<Tag>, done: set<Tag>)
    ensures Updated(reg, tags, done) <= tags + done
  {
  }

  lemma SeenConcat(a: seq<Tag>, b: seq<Tag>, s: set<Tag>)
    requires forall t :: t in b <==> t in s
    ensures Seen(a + b) == Seen(a) + s
  {
  }
}
