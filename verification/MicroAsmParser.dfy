/**
 * The shift/reduce driver of ext/ply running on the micro-assembler tables, proved to be a
 * correct, complete and terminating parser for the stored grammar that reports a syntax error
 * at the earliest possible token.
 */
module MicroAsmParser {
  import opened Wrappers
  import opened MicroAsmTables
  import opened MicroAsmAutomaton

  datatype RawToken = Token(kind: Symbol, text: string)

  /** What the lexer can deliver; "$end" is supplied by the driver when the lexer is exhausted. */
  type Token = t: RawToken | IsTerminal(t.kind) && t.kind != END witness Token(ID, "")

  datatype Tree = Leaf(tok: Token) | Node(rule: Rule, kids: seq<Tree>)

  function Root(t: Tree): Symbol {
    match t
    case Leaf(tok) => tok.kind
    case Node(p, _) => Lhs(p)
  }

  /** A derivation tree of the listed grammar. */
  predicate Derives(t: Tree) {
    match t
    case Leaf(_) => true
    case Node(p, kids) =>
      && p > 0
      && |kids| == Len(p)
      && forall i | 0 <= i < |kids| :: Root(kids[i]) == Sym(p, i) && Derives(kids[i])
  }

  function Yield(t: Tree): seq<Token>
    decreases t, 0
  {
    match t
    case Leaf(tok) => [tok]
    case Node(_, kids) => YieldAll(kids)
  }

  function YieldAll(ts: seq<Tree>): seq<Token>
    decreases ts, 1
  {
    if ts == [] then [] else Yield(ts[0]) + YieldAll(ts[1..])
  }

  lemma {:induction false} YieldAllConcat(a: seq<Tree>, b: seq<Tree>)
    ensures YieldAll(a + b) == YieldAll(a) + YieldAll(b)
  {
    if a == [] {
      assert a + b == b;
    } else {
      assert (a + b)[0] == a[0] && (a + b)[1..] == a[1..] + b;
      YieldAllConcat(a[1..], b);
      assert Yield(a[0]) + (YieldAll(a[1..]) + YieldAll(b)) == YieldAll(a) + YieldAll(b);
    }
  }

  ghost predicate FileTree(t: Tree, input: seq<Token>) {
    Derives(t) && Root(t) == FILE && Yield(t) == input
  }

  ghost predicate Sentence(input: seq<Token>) {
    exists t :: FileTree(t, input)
  }

  ghost predicate Extends(prefix: seq<Token>, more: seq<Token>) {
    Sentence(prefix + more)
  }

  /** The prefix begins some sentence. */
  ghost predicate Viable(prefix: seq<Token>) {
    exists more :: Extends(prefix, more)
  }

  /** The two stacks of the driver and the tokens not yet shifted; states holds one more entry. */
  datatype Config = Config(states: seq<nat>, trees: seq<Tree>, rest: seq<Token>)

  ghost predicate Inv(c: Config) {
    && |c.states| == |c.trees| + 1
    && c.states[0] == 0
    && forall i | 0 <= i < |c.trees| ::
         Derives(c.trees[i]) && Edge(c.states[i], Root(c.trees[i])) == Some(c.states[i + 1])
  }

  function Top(c: Config): nat
    requires c.states != []
  {
    c.states[|c.states| - 1]
  }

  function Ahead(rest: seq<Token>): Symbol {
    if rest == [] then END else rest[0].kind
  }

  function Push(c: Config, t: Tree, s: nat, rest: seq<Token>): Config {
    Config(c.states + [s], c.trees + [t], rest)
  }

  function Pop(c: Config, n: nat): Config
    requires n <= |c.trees| && |c.states| == |c.trees| + 1
  {
    Config(c.states[..|c.states| - n], c.trees[..|c.trees| - n], c.rest)
  }

  /** The stack below a state with the dot at d spells the first d symbols of the rule. */
  lemma {:induction false} StackSpells(c: Config, n: nat, p: Rule, d: nat)
    requires Inv(c) && n < |c.states| && At(p, d, c.states[n])
    ensures d <= n && At(p, 0, c.states[n - d])
    ensures forall i | 0 <= i < d :: Root(c.trees[n - d + i]) == Sym(p, i)
    decreases d
  {
    hide Len, Sym, Lhs, Edge, Spine, Opens;
    if d > 0 {
      Retreat(p, d, c.states[n], c.states[n - 1], Root(c.trees[n - 1]));
      StackSpells(c, n - 1, p, d - 1);
    }
  }

  lemma InvShape(c: Config)
    requires Inv(c)
    ensures |c.states| == |c.trees| + 1
    ensures c.trees != [] ==> Edge(c.states[|c.trees| - 1], Root(c.trees[|c.trees| - 1])) == Some(Top(c))
  {
  }

  lemma PopPushKeeps(c: Config, n: nat, t: Tree, s: nat)
    requires Inv(c) && n <= |c.trees| && Derives(t) && Edge(Top(Pop(c, n)), Root(t)) == Some(s)
    ensures Inv(Push(Pop(c, n), t, s, c.rest))
  {
    hide Derives, Edge, Root;
  }

  /** A reduction always finds its right-hand side on the stack and a goto entry below it. */
  lemma ReduceFits(c: Config, p: Rule)
    requires Inv(c) && p > 0 && At(p, Len(p), Top(c))
    ensures Len(p) <= |c.trees|
    ensures Derives(Node(p, c.trees[|c.trees| - Len(p)..]))
    ensures Edge(Top(Pop(c, Len(p))), Lhs(p)).Some?
  {
    hide Len, Sym, Lhs, Edge, Spine, Opens;
    StackSpells(c, |c.trees|, p, Len(p));
    OpensEdge(Lhs(p), c.states[|c.trees| - Len(p)]);
  }

  function Reduced(c: Config, p: Rule): Config
    requires |c.states| == |c.trees| + 1 && Len(p) <= |c.trees|
    requires Edge(Top(Pop(c, Len(p))), Lhs(p)).Some?
  {
    var below := Pop(c, Len(p));
    Push(below, Node(p, c.trees[|below.trees|..]), Edge(Top(below), Lhs(p)).value, c.rest)
  }

  function Shifted(c: Config, s: nat): Config
    requires c.rest != []
  {
    Push(c, Leaf(c.rest[0]), s, c.rest[1..])
  }

  /** The tokens under the stacked trees followed by the unread ones; no step changes them. */
  function Whole(c: Config): seq<Token> {
    YieldAll(c.trees) + c.rest
  }

  /** Stacked symbols weigh ten each, the top state its rank. */
  function Measure(c: Config): nat
    requires c.states != []
  {
    10 * |c.states| + Rank(Top(c))
  }

  lemma ShiftKeeps(c: Config)
    requires Inv(c) && Action(Top(c), Ahead(c.rest)).Shift?
    ensures c.rest != []
    ensures var d := Shifted(c, Action(Top(c), Ahead(c.rest)).state); Inv(d) && Whole(d) == Whole(c)
  {
    hide Len, Sym, Lhs, Spine, Opens;
    assert Edge(Top(c), END) == None;
    YieldAllConcat(c.trees, [Leaf(c.rest[0])]);
  }

  /** The reduce action of a configuration can be carried out. */
  lemma ReduceEnabled(c: Config)
    requires Inv(c) && Action(Top(c), Ahead(c.rest)).Reduce?
    ensures var p := Action(Top(c), Ahead(c.rest)).rule;
            && p > 0
            && At(p, Len(p), Top(c))
            && Len(p) <= |c.trees|
            && Edge(Top(Pop(c, Len(p))), Lhs(p)).Some?
            && Measure(Reduced(c, p)) < Measure(c)
  {
    hide Len, Sym, Lhs, Edge, Spine, Opens, Rank, Looks, Completed;
    var p := Action(Top(c), Ahead(c.rest)).rule;
    CompletedAt(p, Top(c));
    ReduceFits(c, p);
    RankDrops(Top(c), Top(Pop(c, Len(p))));
  }

  lemma ReduceKeeps(c: Config, p: Rule)
    requires Inv(c) && p > 0 && At(p, Len(p), Top(c))
    requires Len(p) <= |c.trees| && Edge(Top(Pop(c, Len(p))), Lhs(p)).Some?
    ensures Inv(Reduced(c, p))
    ensures Whole(Reduced(c, p)) == Whole(c)
  {
    hide Len, Sym, Lhs, Edge, Spine, Opens, At;
    ReduceFits(c, p);
    var below := Pop(c, Len(p));
    var node := Node(p, c.trees[|below.trees|..]);
    PopPushKeeps(c, Len(p), node, Edge(Top(below), Lhs(p)).value);
    assert below.trees + node.kids == c.trees;
    YieldAllConcat(below.trees, node.kids);
    YieldAllConcat(below.trees, [node]);
    assert YieldAll([node]) == Yield(node) + YieldAll([]);
  }

  datatype Outcome = Accepted(tree: Tree) | Rejected(rest: seq<Token>)

  /** What the driver does from a configuration; the measure shows that it always stops. */
  ghost function Run(c: Config): Outcome
    requires Inv(c)
    decreases |c.rest|, Measure(c)
  {
    hide *;
    match Action(Top(c), Ahead(c.rest))
    case Shift(s) => ShiftKeeps(c); Run(Shifted(c, s))
    case Reduce(p) => ReduceEnabled(c); ReduceKeeps(c, p); Run(Reduced(c, p))
    case Accept => AcceptShape(c); Accepted(c.trees[|c.trees| - 1])
    case Error => Rejected(c.rest)
  }

  lemma AcceptShape(c: Config)
    requires Inv(c) && Action(Top(c), Ahead(c.rest)) == Accept
    ensures |c.trees| == 1 && c.rest == [] && FileTree(c.trees[0], Whole(c))
  {
    hide Len, Sym, Lhs, Edge, Spine, Opens;
    AcceptOnly(Top(c), Ahead(c.rest));
    var n := |c.trees|;
    EdgeIn(c.states[n - 1], Root(c.trees[n - 1]), 4);
    if n > 1 {
      EdgeIn(c.states[n - 2], Root(c.trees[n - 2]), 0);
    }
    assert c.trees == [c.trees[0]];
    assert YieldAll(c.trees[1..]) == [];
  }

  // ----- Soundness: what is accepted is a derivation of the whole input.

  lemma {:induction false} RunSound(c: Config)
    requires Inv(c)
    ensures match Run(c)
            case Accepted(t) => FileTree(t, Whole(c))
            case Rejected(r) => |r| <= |c.rest| && r == c.rest[|c.rest| - |r|..]
    decreases |c.rest|, Measure(c)
  {
    hide Action, At, Edge, Len, Lhs, Sym, Rank, Whole, FileTree;
    match Action(Top(c), Ahead(c.rest))
    case Shift(s) => ShiftKeeps(c); RunSound(Shifted(c, s));
    case Reduce(p) => ReduceEnabled(c); ReduceKeeps(c, p); RunSound(Reduced(c, p));
    case Accept => AcceptShape(c);
    case Error =>
  }

  /** A rejection depends only on the tokens up to and including the offending one. */
  lemma {:induction false} RejectsAgain(c: Config, u: seq<Token>, a: Token, v: seq<Token>, w: seq<Token>)
    requires Inv(c) && c.rest == u + [a] + v && Run(c) == Rejected([a] + v)
    ensures Inv(c.(rest := u + [a] + w)) && Run(c.(rest := u + [a] + w)) == Rejected([a] + w)
    decreases |c.rest|, Measure(c)
  {
    hide Action, At, Edge, Len, Lhs, Sym, Rank, Whole, FileTree;
    var c' := c.(rest := u + [a] + w);
    assert Ahead(c.rest) == Ahead(c'.rest);
    match Action(Top(c), Ahead(c.rest))
    case Shift(s) =>
      ShiftKeeps(c);
      RunSound(Shifted(c, s));
      assert u != [];
      assert c.rest[1..] == u[1..] + [a] + v && c'.rest[1..] == u[1..] + [a] + w;
      ShiftKeeps(c');
      assert Shifted(c', s) == Shifted(c, s).(rest := u[1..] + [a] + w);
      RejectsAgain(Shifted(c, s), u[1..], a, v, w);
    case Reduce(p) =>
      ReduceEnabled(c);
      ReduceKeeps(c, p);
      ReduceEnabled(c');
      ReduceKeeps(c', p);
      assert Reduced(c', p) == Reduced(c, p).(rest := u + [a] + w);
      RejectsAgain(Reduced(c, p), u, a, v, w);
    case Accept => AcceptShape(c); assert false;
    case Error => assert u == [];
  }

  // ----- Completeness: the driver rebuilds every derivation tree from its yield.

  /** A tree is empty only at a nullable root, and otherwise starts with a token that may begin its root. */
  lemma {:induction false} TreeBegins(t: Tree)
    requires Derives(t)
    ensures if Yield(t) == [] then Nullable(Root(t)) else Begins(Root(t), Yield(t)[0].kind)
  {
    hide Len, Sym, Lhs, Begins, Nullable;
    match t
    case Leaf(tok) =>
      assert Begins(tok.kind, tok.kind) by { LeafBegins(tok); }
    case Node(p, kids) =>
      NullableRule(p);
      if kids != [] {
        TreeBegins(kids[0]);
        if Yield(kids[0]) != [] {
          BeginsRule(p, Yield(kids[0])[0].kind);
        } else if |kids| > 1 {
          TreeBegins(kids[1]);
          assert YieldAll(kids) == Yield(kids[0]) + (Yield(kids[1]) + YieldAll(kids[1..][1..]));
          BeginsRule(p, Yield(kids[1])[0].kind);
        }
      }
  }

  lemma LeafBegins(tok: Token)
    ensures Begins(tok.kind, tok.kind)
  {
  }

  /** Running from a state that expects t's root over t's yield has the effect of pushing t. */
  lemma {:induction false} DriveTree(t: Tree, c: Config, rest: seq<Token>)
    requires Derives(t) && Inv(c) && c.rest == Yield(t) + rest
    requires Edge(Top(c), Root(t)).Some?
    requires t.Node? ==> Looks(Root(t), Ahead(rest))
    ensures var d := Push(c, t, Edge(Top(c), Root(t)).value, rest); Inv(d) && Run(c) == Run(d)
    decreases t, 0, 0
  {
    hide At, Edge, Len, Lhs, Sym, Rank, Looks, Completed, Opens, Spine;
    var d := Push(c, t, Edge(Top(c), Root(t)).value, rest);
    match t
    case Leaf(tok) =>
      ShiftKeeps(c);
      assert Shifted(c, Edge(Top(c), Root(t)).value) == d;
    case Node(p, kids) =>
      OpensEdge(Lhs(p), Top(c));
      assert At(p, 0, Top(c)) by { AtZero(p, Top(c)); }
      var full := DriveKids(p, kids, 0, c, rest);
      CompletedAt(p, Top(full));
      assert full.trees[|full.trees| - Len(p)..] == kids;
      assert full.states[..|c.states|] == c.states;
      assert Pop(full, Len(p)).states == c.states && Pop(full, Len(p)).trees == c.trees;
      NoShiftHere(Top(full), Ahead(rest));
      ReduceEnabled(full);
      ReduceKeeps(full, p);
      assert Reduced(full, p) == d;
  }

  lemma {:induction false} DriveKids(p: Rule, kids: seq<Tree>, d: nat, c: Config, rest: seq<Token>)
    returns (full: Config)
    requires p > 0 && Derives(Node(p, kids)) && d <= Len(p) && Inv(c) && At(p, d, Top(c))
    requires c.rest == YieldAll(kids[d..]) + rest && Looks(Lhs(p), Ahead(rest))
    ensures Inv(full) && Run(full) == Run(c) && At(p, Len(p), Top(full))
    ensures c.states <= full.states && full.trees == c.trees + kids[d..] && full.rest == rest
    decreases kids, 1, Len(p) - d
  {
    hide At, Edge, Len, Lhs, Sym, Rank, Looks, Completed, Opens, Spine, Action, Run, YieldAll, Yield;
    if d == Len(p) {
      YieldNone(kids[d..], rest);
      full := c;
    } else {
      var after := YieldAll(kids[d + 1..]) + rest;
      YieldSplit(kids, d, rest);
      Advance(p, d, Top(c));
      KidLooks(p, kids, d, rest);
      DriveTree(kids[d], c, after);
      var next := Push(c, kids[d], Edge(Top(c), Root(kids[d])).value, after);
      full := DriveKids(p, kids, d + 1, next, rest);
      assert [kids[d]] + kids[d + 1..] == kids[d..];
    }
  }

  lemma YieldNone(ts: seq<Tree>, rest: seq<Token>)
    requires ts == []
    ensures YieldAll(ts) + rest == rest
  {
  }

  lemma YieldSplit(kids: seq<Tree>, d: nat, rest: seq<Token>)
    requires d < |kids|
    ensures YieldAll(kids[d..]) + rest == Yield(kids[d]) + (YieldAll(kids[d + 1..]) + rest)
  {
  }

  /** The token after a child is one on which that child's rule is reduced. */
  lemma KidLooks(p: Rule, kids: seq<Tree>, d: nat, rest: seq<Token>)
    requires p > 0 && Derives(Node(p, kids)) && d < Len(p) && Looks(Lhs(p), Ahead(rest))
    ensures kids[d].Node? ==> Looks(Root(kids[d]), Ahead(YieldAll(kids[d + 1..]) + rest))
  {
    hide Len, Lhs, Sym, Looks, Begins, Nullable;
    if kids[d].Node? {
      if d + 1 < Len(p) {
        TreeBegins(kids[d + 1]);
        NullableRule(p);
      }
      Follows(p, d, Ahead(YieldAll(kids[d + 1..]) + rest));
    }
  }

  lemma AtZero(p: Rule, s: nat)
    ensures Opens(Lhs(p), s) <==> At(p, 0, s)
  {
  }

  lemma NoShiftHere(s: nat, a: Symbol)
    requires Completed(s).Some? && Looks(Lhs(Completed(s).value), a)
    ensures Action(s, a) == Reduce(Completed(s).value)
  {
  }

  /** Printing any derivation tree and parsing it gives the tree back. */
  lemma RoundTrip(t: Tree)
    requires Derives(t) && Root(t) == FILE
    ensures Inv(Config([0], [], Yield(t))) && Run(Config([0], [], Yield(t))) == Accepted(t)
  {
    hide Derives, Len, Sym, Lhs, Yield, YieldAll, Action, Run, Rank;
    var c := Config([0], [], Yield(t));
    assert Yield(t) + [] == Yield(t);
    DriveTree(t, c, []);
    AcceptOnly(4, END);
    RunStep(Push(c, t, 4, []));
  }

  /** No token sequence has two derivation trees. */
  lemma Unambiguous(t: Tree, u: Tree)
    requires Derives(t) && Root(t) == FILE && Derives(u) && Root(u) == FILE && Yield(t) == Yield(u)
    ensures t == u
  {
    RoundTrip(t);
    RoundTrip(u);
  }

  // ----- Earliest detection: what has been shifted can always be completed to a sentence.

  function Sample(x: Symbol): (t: Tree)
    requires Simple(x)
    ensures Derives(t) && Root(t) == x
    decreases 30 - x
  {
    if x == BLOCK then Node(11, [Leaf(Token(LBRACE, "")), Sample(STATEMENTS), Leaf(Token(RBRACE, ""))])
    else if x == STATEMENTS then Node(12, [Sample(STATEMENT)])
    else if x == STATEMENT then Node(14, [Sample(CONTENT_OF_STATEMENT), Sample(END_OF_STATEMENT)])
    else if x == CONTENT_OF_STATEMENT then Node(17, [])
    else if x == END_OF_STATEMENT then Node(19, [Leaf(Token(SEMI, ""))])
    else Leaf(Token(x, ""))
  }

  /** Children for the part of a kernel rule that is still missing. */
  lemma {:induction false} Samples(s: nat, i: nat) returns (ts: seq<Tree>)
    requires 0 < s <= 45 && s != 4 && KernelDot(s) <= i <= Len(KernelRule(s))
    ensures |ts| == Len(KernelRule(s)) - i
    ensures forall j | 0 <= j < |ts| :: Derives(ts[j]) && Root(ts[j]) == Sym(KernelRule(s), i + j)
    decreases Len(KernelRule(s)) - i
  {
    hide KernelDot, KernelRule, Sym, Len, Simple, Derives, Sample;
    ts := [];
    if i < Len(KernelRule(s)) {
      KernelSimple(s, i);
      var more := Samples(s, i + 1);
      ts := [Sample(Sym(KernelRule(s), i))] + more;
    }
  }

  /** The rule begun at the top of the stack, completed with sample children. */
  lemma FinishNode(c: Config, p: Rule, d: nat) returns (more: seq<Tree>)
    requires Inv(c) && c.trees != [] && 0 < Top(c) <= 45 && Top(c) != 4
    requires p == KernelRule(Top(c)) && d == KernelDot(Top(c))
    ensures p > 0 && 0 < d <= |c.trees|
    ensures Derives(Node(p, c.trees[|c.trees| - d..] + more))
    ensures Edge(c.states[|c.trees| - d], Lhs(p)).Some?
  {
    hide Edge, Len, Lhs, Sym, KernelRule, KernelDot, At, Opens, Simple;
    KernelAt(Top(c));
    StackSpells(c, |c.trees|, p, d);
    AtZero(p, c.states[|c.trees| - d]);
    OpensEdge(Lhs(p), c.states[|c.trees| - d]);
    more := Samples(Top(c), d);
  }

  /** Completing the rule begun at the top of the stack keeps the invariant and brings FILE closer. */
  lemma Finish(c: Config) returns (next: Config)
    requires Inv(c) && c.trees != [] && Top(c) != 4
    ensures Inv(next) && YieldAll(c.trees) <= YieldAll(next.trees)
    ensures 10 * |next.trees| + FinishRank(Top(next)) < 10 * |c.trees| + FinishRank(Top(c))
  {
    hide Edge, Len, Lhs, Sym, KernelRule, KernelDot, FinishRank, Yield, YieldAll, Derives, Inv;
    InvShape(c);
    var n, s := |c.trees|, Top(c);
    EdgeRange(c.states[n - 1], Root(c.trees[n - 1]));
    var p, d := KernelRule(s), KernelDot(s);
    var more := FinishNode(c, p, d);
    KernelDrops(s, c.states[n - d]);
    var below, mid := Pop(c, d), c.trees[n - d..];
    next := Push(below, Node(p, mid + more), Edge(Top(below), Lhs(p)).value, c.rest);
    PopPushKeeps(c, d, Node(p, mid + more), Edge(Top(below), Lhs(p)).value);
    YieldGrows(below.trees, mid, more, p);
    assert c.trees == below.trees + mid;
  }

  /** Every reachable stack spells the beginning of some sentence. */
  lemma {:induction false} Completable(c: Config) returns (t: Tree)
    requires Inv(c)
    ensures Derives(t) && Root(t) == FILE && YieldAll(c.trees) <= Yield(t)
    decreases 10 * |c.trees| + FinishRank(Top(c))
  {
    hide Edge, Len, Lhs, Sym, FinishRank, Action;
    if c.trees == [] {
      t := EmptyFile();
    } else if Top(c) == 4 {
      AcceptOnly(4, END);
      AcceptShape(c.(rest := []));
      t := c.trees[0];
    } else {
      var next := Finish(c);
      t := Completable(next);
    }
  }

  lemma YieldGrows(below: seq<Tree>, mid: seq<Tree>, more: seq<Tree>, p: Rule)
    ensures YieldAll(below + mid) <= YieldAll(below + [Node(p, mid + more)])
  {
    YieldAllConcat(below, mid);
    YieldAllConcat(mid, more);
    YieldAllConcat(below, [Node(p, mid + more)]);
    assert YieldAll([Node(p, mid + more)]) == Yield(Node(p, mid + more)) + YieldAll([]);
  }

  lemma EmptyFile() returns (t: Tree)
    ensures Derives(t) && Root(t) == FILE && Yield(t) == []
  {
    t := Node(1, [Node(2, [])]);
    assert YieldAll(t.kids) == Yield(t.kids[0]) + YieldAll([]);
  }

  lemma StackViable(c: Config)
    requires Inv(c)
    ensures Viable(YieldAll(c.trees))
  {
    hide Derives, Inv;
    var t := Completable(c);
    var prefix := YieldAll(c.trees);
    assert Yield(t) == prefix + Yield(t)[|prefix|..];
    assert FileTree(t, prefix + Yield(t)[|prefix|..]);
    assert Extends(prefix, Yield(t)[|prefix|..]);
  }

  /** When the driver stops with an error, the tokens it has shifted begin some sentence. */
  lemma {:induction false} RejectedViable(c: Config)
    requires Inv(c) && Run(c).Rejected?
    ensures |Run(c).rest| <= |Whole(c)| && Viable(Whole(c)[..|Whole(c)| - |Run(c).rest|])
    decreases |c.rest|, Measure(c)
  {
    hide Action, At, Edge, Len, Lhs, Sym, Rank, Derives, Viable, Yield, YieldAll;
    match Action(Top(c), Ahead(c.rest))
    case Shift(s) => ShiftKeeps(c); RejectedViable(Shifted(c, s));
    case Reduce(p) => ReduceEnabled(c); ReduceKeeps(c, p); RejectedViable(Reduced(c, p));
    case Accept => AcceptShape(c);
    case Error =>
      StackViable(c);
      assert Whole(c)[..|Whole(c)| - |c.rest|] == YieldAll(c.trees);
  }

  /** The offending token cannot follow the shifted ones in any sentence. */
  lemma RejectedStuck(input: seq<Token>)
    requires Inv(Config([0], [], input)) && Run(Config([0], [], input)).Rejected?
    ensures var rest := Run(Config([0], [], input)).rest;
            if rest == [] then !Sentence(input)
            else |rest| <= |input| && !Viable(input[..|input| - |rest| + 1])
  {
    hide Action, At, Edge, Len, Lhs, Sym, Rank, Derives, Run;
    var c := Config([0], [], input);
    var rest := Run(c).rest;
    RunSound(c);
    if rest == [] {
      if t :| FileTree(t, input) {
        RoundTrip(t);
        assert false;
      }
    } else {
      var k := |input| - |rest|;
      var upTo := input[..k + 1];
      if more :| Extends(upTo, more) {
        var t :| FileTree(t, upTo + more);
        RoundTrip(t);
        assert input == input[..k] + [rest[0]] + rest[1..];
        assert rest == [rest[0]] + rest[1..];
        assert upTo + more == input[..k] + [rest[0]] + more;
        RejectsAgain(c, input[..k], rest[0], rest[1..], more);
        assert false;
      }
    }
  }

  lemma RunStep(c: Config)
    requires Inv(c)
    ensures var m := Action(Top(c), Ahead(c.rest));
            && (m.Shift? ==> c.rest != [] && Inv(Shifted(c, m.state)) && Run(c) == Run(Shifted(c, m.state)))
            && (m.Reduce? ==> Len(m.rule) <= |c.trees| && Edge(Top(Pop(c, Len(m.rule))), Lhs(m.rule)).Some?
                              && Inv(Reduced(c, m.rule)) && Run(c) == Run(Reduced(c, m.rule)))
            && (m.Accept? ==> c.trees != [] && Run(c) == Accepted(c.trees[|c.trees| - 1]))
            && (m.Error? ==> Run(c) == Rejected(c.rest))
  {
    hide Action, At, Edge, Len, Lhs, Sym, Rank, Derives;
    match Action(Top(c), Ahead(c.rest))
    case Shift(s) => ShiftKeeps(c);
    case Reduce(p) => ReduceEnabled(c); ReduceKeeps(c, p);
    case Accept => AcceptShape(c);
    case Error =>
  }

  lemma Verdict(input: seq<Token>)
    ensures Inv(Config([0], [], input))
    ensures match Run(Config([0], [], input))
            case Accepted(u) => forall t :: FileTree(t, input) <==> t == u
            case Rejected(rest) =>
              && !Sentence(input)
              && |rest| <= |input| && rest == input[|input| - |rest|..]
              && Viable(input[..|input| - |rest|])
              && (rest != [] ==> !Viable(input[..|input| - |rest| + 1]))
  {
    hide Action, At, Edge, Len, Lhs, Sym, Rank, Derives, Run;
    var c := Config([0], [], input);
    RunSound(c);
    assert Whole(c) == input;
    match Run(c)
    case Accepted(u) =>
      forall t | FileTree(t, input) ensures t == u { RoundTrip(t); }
    case Rejected(rest) =>
      RejectedViable(c);
      RejectedStuck(input);
      if t :| FileTree(t, input) {
        RoundTrip(t);
        assert false;
      }
  }
}
