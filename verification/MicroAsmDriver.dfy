/**
 * The driver loop of ext/ply on the two dictionaries that parsetab.py loads: entries are numbers,
 * positive to shift, negative to reduce, zero to accept, and absent for a syntax error.
 */
module MicroAsmDriver {
  import opened Wrappers
  import opened MicroAsmTables
  import opened MicroAsmAutomaton
  import opened MicroAsmParser
  import opened MicroAsmLoad

  /** The dictionaries hold the tables that the parser is proved correct for. */
  ghost predicate Loaded(action: Table, goto: Table) {
    && (forall s, x :: Lookup(action, s, x) == if IsTerminal(x) then Code(Action(s, x)) else None)
    && (forall s, x :: Lookup(goto, s, x) == if IsTerminal(x) then None else GotoCode(s, x))
  }

  /** What an entry of the action dictionary stands for. */
  lemma EntryMeans(action: Table, goto: Table, s: nat, x: Symbol)
    requires Loaded(action, goto) && IsTerminal(x)
    ensures var entry, m := Lookup(action, s, x), Action(s, x);
            && (entry == None <==> m.Error?) && (entry == Some(0) <==> m.Accept?)
            && (entry.Some? && entry.value > 0 ==> m == Shift(entry.value))
            && (entry.Some? && entry.value < 0 ==> m.Reduce? && m.rule == -entry.value)
  {
    if Action(s, x).Shift? {
      EdgeRange(s, x);
    }
    hide Edge, Looks, Completed, Lhs;
  }

  lemma GotoMeans(action: Table, goto: Table, s: nat, p: Rule)
    requires Loaded(action, goto) && p > 0 && Edge(s, Lhs(p)).Some?
    ensures Lookup(goto, s, Lhs(p)) == Some(Edge(s, Lhs(p)).value)
  {
    hide Edge;
  }

  /**
   * The outcome is right: exactly the sentences of the grammar are accepted, with the only
   * derivation tree there is; otherwise the shifted tokens begin some sentence, and no sentence
   * begins with them and the next token.
   */
  ghost predicate Decides(r: Outcome, input: seq<Token>) {
    && (r.Accepted? <==> Sentence(input))
    && (r.Accepted? ==> forall t :: FileTree(t, input) <==> t == r.tree)
    && (r.Rejected? ==>
          && |r.rest| <= |input| && r.rest == input[|input| - |r.rest|..]
          && Viable(input[..|input| - |r.rest|])
          && (r.rest != [] ==> !Viable(input[..|input| - |r.rest| + 1])))
  }

  /** The loop on the two stacks. */
  method Drive(action: Table, goto: Table, input: seq<Token>) returns (r: Outcome)
    requires Loaded(action, goto)
    ensures Decides(r, input)
  {
    hide Action, At, Edge, Len, Lhs, Sym, Rank, Derives, Run, Loaded;
    var states: seq<nat>, trees: seq<Tree>, rest := [0], [], input;
    ghost var start := Config([0], [], input);
    while true
      invariant Inv(Config(states, trees, rest))
      invariant Run(Config(states, trees, rest)) == Run(start)
      decreases |rest|, Measure(Config(states, trees, rest))
    {
      ghost var c := Config(states, trees, rest);
      RunStep(c);
      var state := states[|states| - 1];
      EntryMeans(action, goto, state, Ahead(rest));
      var entry := Lookup(action, state, Ahead(rest));
      if entry == None {
        r := Rejected(rest);
        break;
      }
      var t := entry.value;
      if t > 0 {
        ShiftKeeps(c);
        states, trees, rest := states + [t], trees + [Leaf(rest[0])], rest[1..];
      } else if t < 0 {
        var p: Rule := -t;
        ReduceEnabled(c);
        ReduceKeeps(c, p);
        var n := |trees| - Len(p);
        GotoMeans(action, goto, states[n], p);
        var node := Node(p, trees[n..]);
        states, trees := states[..n + 1], trees[..n] + [node];
        states := states + [Lookup(goto, states[n], Lhs(p)).value];
        assert Config(states, trees, rest) == Reduced(c, p);
      } else {
        r := Accepted(trees[|trees| - 1]);
        break;
      }
    }
    Verdict(input);
    assert r.Accepted? ==> FileTree(r.tree, input);
  }

  /** Loading the stored tables, iterated in any order, and running the driver on them. */
  method Parse(actionItems: seq<Column>, gotoItems: seq<Column>, input: seq<Token>) returns (r: Outcome)
    requires Reordered(actionItems, ACTION_ITEMS) && Reordered(gotoItems, GOTO_ITEMS)
    ensures Decides(r, input)
  {
    hide Code, GotoCode, Action, Reordered, ACTION_ITEMS, GOTO_ITEMS;
    var action, goto := LoadTables(actionItems, gotoItems);
    r := Drive(action, goto, input);
  }
}
