/**
 * What the parser proofs need to know about the 46-state automaton: which dotted rules each
 * state stands for, the lookaheads that trigger each reduction, and a rank that drops with
 * every reduction. Each fact is checked against every entry of the stored tables.
 */
module MicroAsmAutomaton {
  import opened Wrappers
  import opened MicroAsmTables

  /** The state passed after position d of a rule's right-hand side. */
  function Spine(p: Rule, d: nat): (s: nat)
    requires d < Len(p)
    ensures 0 < s
  {
    match p
    case 0 => 4
    case 1 => 5
    case 3 => 2
    case 4 => 7
    case 5 => (match d case 0 => 2 case _ => 8)
    case 6 => 3
    case 7 => 1
    case 8 => (match d case 0 => 6 case 1 => 9 case 2 => 12 case _ => 24)
    case 9 => (match d case 0 => 6 case 1 => 10 case 2 => 13 case 3 => 26 case 4 => 40 case 5 => 44 case _ => 45)
    case 10 => (match d case 0 => 6 case 1 => 10 case 2 => 13 case 3 => 25 case _ => 39)
    case 11 => (match d case 0 => 11 case 1 => 14 case _ => 27)
    case 12 => 19
    case 13 => (match d case 0 => 14 case _ => 28)
    case 14 => (match d case 0 => 21 case _ => 35)
    case 15 => 18
    case 16 => 15
    case 18 => 33
    case 19 => 34
    case 20 => (match d case 0 => 16 case _ => 31)
    case 21 => 22
    case 22 => (match d case 0 => 16 case 1 => 31 case _ => 41)
    case 23 => (match d case 0 => 22 case _ => 37)
    case 24 => 17
    case 25 => (match d case 0 => 16 case _ => 30)
    case 26 => (match d case 0 => 16 case _ => 29)
    case 27 => (match d case 0 => 22 case _ => 36)
    case 28 => (match d case 0 => 20 case 1 => 32 case _ => 42)
    case 29 => (match d case 0 => 23 case _ => 38)
    case 30 => (match d case 0 => 23 case 1 => 38 case _ => 43)
    case _ => 46
  }

  /** The states in which a rule for nonterminal x may begin. */
  predicate Opens(x: Symbol, s: nat) {
    match x
    case START | FILE | OPT_ROM_OR_MACROS | ROM_OR_MACROS => s == 0
    case ROM_OR_MACRO | ROM_BLOCK | MACROOP_DEF => s == 0 || s == 2
    case BLOCK => s == 9 || s == 13
    case STATEMENTS => s == 11
    case STATEMENT | CONTENT_OF_STATEMENT | MICROOP | LABELS | DIRECTIVE => s == 11 || s == 14
    case END_OF_STATEMENT => s == 21
    case LABEL => s == 11 || s == 14 || s == 16
    case _ => false
  }

  /** State s contains rule p with the dot before position d. An ID after labels may start a label. */
  predicate At(p: Rule, d: nat, s: nat) {
    if d > Len(p) then false
    else if d == 0 then Opens(Lhs(p), s)
    else s == Spine(p, d - 1) || (p == 27 && d == 1 && s == 31)
  }

  /** The one symbol that every edge into state s carries. */
  function Into(s: nat): Symbol {
    match s
    case 1 => MACROOP_DEF
    case 2 => ROM_OR_MACROS
    case 3 => ROM_BLOCK
    case 4 => FILE
    case 5 => OPT_ROM_OR_MACROS
    case 6 => DEF
    case 7 | 8 => ROM_OR_MACRO
    case 9 => ROM
    case 10 => MACROOP
    case 11 => LBRACE
    case 12 | 25 => BLOCK
    case 13 | 22 | 31 | 32 | 38 | 40 => ID
    case 14 => STATEMENTS
    case 15 => DIRECTIVE
    case 16 => LABELS
    case 17 | 30 => LABEL
    case 18 => MICROOP
    case 19 | 28 => STATEMENT
    case 20 => EXTERN
    case 21 => CONTENT_OF_STATEMENT
    case 23 => DOT
    case 24 | 34 | 39 | 45 => SEMI
    case 26 => LPAREN
    case 27 => RBRACE
    case 29 | 33 => NEWLINE
    case 35 => END_OF_STATEMENT
    case 36 | 42 => COLON
    case 37 | 41 | 43 => PARAMS
    case 44 => RPAREN
    case _ => START
  }

  /** The states with an edge into state s. */
  predicate Before(from: nat, s: nat) {
    match s
    case 1 | 3 | 6 => from == 0 || from == 2
    case 2 | 4 | 5 | 7 => from == 0
    case 8 => from == 2
    case 9 | 10 => from == 6
    case 11 => from == 9 || from == 13
    case 12 => from == 9
    case 13 => from == 10
    case 14 | 19 => from == 11
    case 15 | 16 | 17 | 18 | 21 | 22 | 23 => from == 11 || from == 14
    case 20 => from == 11 || from == 14 || from == 16
    case 24 => from == 12
    case 25 | 26 => from == 13
    case 27 | 28 => from == 14
    case 29 | 30 | 31 => from == 16
    case 32 => from == 20
    case 33 | 34 | 35 => from == 21
    case 36 => from == 22 || from == 31
    case 37 => from == 22
    case 38 => from == 23
    case 39 => from == 25
    case 40 => from == 26
    case 41 => from == 31
    case 42 => from == 32
    case 43 => from == 38
    case 44 => from == 40
    case 45 => from == 44
    case _ => false
  }

  lemma EdgeIn(from: nat, x: Symbol, s: nat)
    ensures Edge(from, x) == Some(s) <==> x == Into(s) && Before(from, s)
  {
  }

  lemma OpensEdge(x: Symbol, s: nat)
    requires !IsTerminal(x) && x != START
    ensures Opens(x, s) <==> Edge(s, x).Some?
  {
  }

  lemma Enter(p: Rule, s: nat)
    requires Len(p) > 0 && At(p, 0, s)
    ensures Edge(s, Sym(p, 0)).Some? && At(p, 1, Edge(s, Sym(p, 0)).value)
  {
  }

  lemma AlongSymbols(p: Rule, d: nat)
    ensures 0 < d < Len(p) ==> Into(Spine(p, d)) == Sym(p, d)
  {
  }

  lemma AlongStates(p: Rule, d: nat, from: nat)
    ensures 0 < d < Len(p) ==> (Before(from, Spine(p, d)) <==> At(p, d, from))
  {
  }

  lemma Leave(p: Rule, s: nat, from: nat)
    ensures At(p, 1, s) && Before(from, s) ==> Into(s) == Sym(p, 0) && At(p, 0, from)
  {
  }

  /** From a state holding a dotted rule the next symbol leads to the state with the dot moved on. */
  lemma Advance(p: Rule, d: nat, s: nat)
    requires d < Len(p) && At(p, d, s)
    ensures Edge(s, Sym(p, d)).Some? && At(p, d + 1, Edge(s, Sym(p, d)).value)
  {
    hide Sym, Len, Edge, Spine, Opens, Into, Before;
    if d == 0 {
      Enter(p, s);
    } else {
      AlongSymbols(p, d);
      AlongStates(p, d, s);
      EdgeIn(s, Sym(p, d), Spine(p, d));
    }
  }

  /** The only way into a state with the dot past a symbol is over that symbol. */
  lemma Retreat(p: Rule, d: nat, s: nat, from: nat, x: Symbol)
    requires 0 < d <= Len(p) && At(p, d, s) && Edge(from, x) == Some(s)
    ensures x == Sym(p, d - 1) && At(p, d - 1, from)
  {
    hide Sym, Len, Edge, Spine, Opens, Into, Before;
    EdgeIn(from, x, s);
    if d == 1 {
      Leave(p, s, from);
    } else {
      AlongSymbols(p, d - 1);
      AlongStates(p, d - 1, from);
    }
  }

  lemma CompletedAt(p: Rule, s: nat)
    requires p > 0
    ensures Completed(s) == Some(p) <==> At(p, Len(p), s)
  {
  }

  /** Symbols that derive the empty string. */
  predicate Nullable(x: Symbol) {
    x == START || x == FILE || x == OPT_ROM_OR_MACROS || x == CONTENT_OF_STATEMENT
  }

  /** Terminals that can begin a phrase of x. */
  predicate Begins(x: Symbol, a: Symbol) {
    match x
    case START | FILE | OPT_ROM_OR_MACROS | ROM_OR_MACROS | ROM_OR_MACRO | ROM_BLOCK | MACROOP_DEF => a == DEF
    case BLOCK => a == LBRACE
    case LABELS | LABEL | MICROOP => a == ID || a == EXTERN
    case DIRECTIVE => a == DOT
    case CONTENT_OF_STATEMENT => a == ID || a == EXTERN || a == DOT
    case END_OF_STATEMENT => a == NEWLINE || a == SEMI
    case STATEMENTS | STATEMENT => a == ID || a == EXTERN || a == DOT || a == NEWLINE || a == SEMI
    case _ => a == x
  }

  /** Only the first symbol of a rule can be empty. */
  lemma NullableRule(p: Rule)
    ensures forall i | 0 < i < Len(p) :: !Nullable(Sym(p, i))
    ensures Nullable(Lhs(p)) <== Len(p) == 0 || (Len(p) == 1 && Nullable(Sym(p, 0)))
  {
  }

  /** A rule begins as its first symbol does, or as its second when the first is empty. */
  lemma BeginsRule(p: Rule, a: Symbol)
    ensures Len(p) > 0 && Begins(Sym(p, 0), a) ==> Begins(Lhs(p), a)
    ensures Len(p) > 1 && Nullable(Sym(p, 0)) && Begins(Sym(p, 1), a) ==> Begins(Lhs(p), a)
  {
  }

  /** Whatever can follow a nonterminal inside a rule is a lookahead on which it is reduced. */
  lemma Follows(p: Rule, d: nat, a: Symbol)
    ensures d < Len(p) && !IsTerminal(Sym(p, d))
            && (if d + 1 < Len(p) then Begins(Sym(p, d + 1), a) else Looks(Lhs(p), a))
            ==> Looks(Sym(p, d), a)
  {
  }

  /** A state's share of the termination measure; ten is charged for every stacked symbol. */
  function Rank(s: nat): nat {
    match s
    case 0 | 19 => 12
    case 11 | 14 => 11
    case 1 | 3 | 33 | 34 => 4
    case 7 | 35 => 3
    case 2 | 22 | 28 => 2
    case 5 | 15 | 17 | 18 => 1
    case _ => 0
  }

  lemma RankDrops(s: nat, from: nat)
    requires Completed(s).Some? && Edge(from, Lhs(Completed(s).value)).Some?
    ensures var p := Completed(s).value;
            Rank(Edge(from, Lhs(p)).value) + 10 < Rank(s) + 10 * Len(p)
  {
  }

  /** No edge enters the start state and only FILE leads to the accepting one. */
  lemma AcceptOnly(s: nat, a: Symbol)
    ensures Action(s, a).Accept? <==> s == 4 && a == END
  {
  }

  // ----- How to finish from any state: complete one rule whose beginning is on the stack.

  function KernelRule(s: nat): Rule {
    match s
    case 5 => 1
    case 2 => 3
    case 7 => 4
    case 8 => 5
    case 3 => 6
    case 1 => 7
    case 6 | 9 | 12 | 24 => 8
    case 10 | 13 | 26 | 40 | 44 | 45 => 9
    case 25 | 39 => 10
    case 11 | 14 | 27 => 11
    case 19 => 12
    case 28 => 13
    case 21 | 35 => 14
    case 18 => 15
    case 15 => 16
    case 33 => 18
    case 34 => 19
    case 16 | 31 => 20
    case 22 => 21
    case 41 => 22
    case 37 => 23
    case 17 => 24
    case 30 => 25
    case 29 => 26
    case 36 => 27
    case 20 | 32 | 42 => 28
    case 23 | 38 => 29
    case 43 => 30
    case _ => 0
  }

  function KernelDot(s: nat): nat {
    match s
    case 8 | 9 | 10 | 14 | 28 | 29 | 30 | 31 | 32 | 35 | 36 | 37 | 38 => 2
    case 12 | 13 | 27 | 41 | 42 | 43 => 3
    case 24 | 25 | 26 => 4
    case 39 | 40 => 5
    case 44 => 6
    case 45 => 7
    case _ => 1
  }

  function FinishRank(s: nat): nat {
    match s
    case 5 | 11 | 19 | 33 | 34 => 1
    case 2 | 21 => 2
    case 7 | 15 | 18 => 3
    case 1 | 3 | 16 | 22 | 23 => 4
    case 6 | 17 => 5
    case 20 => 6
    case _ => 0
  }

  predicate Simple(x: Symbol) {
    x < END || x == BLOCK || x == STATEMENTS || x == STATEMENT || x == CONTENT_OF_STATEMENT || x == END_OF_STATEMENT
  }

  lemma KernelAt(s: nat)
    requires 0 < s <= 45 && s != 4
    ensures KernelRule(s) > 0 && 0 < KernelDot(s) <= Len(KernelRule(s)) && At(KernelRule(s), KernelDot(s), s)
  {
  }

  lemma KernelSimple(s: nat, i: nat)
    requires 0 < s <= 45 && s != 4
    ensures KernelDot(s) <= i < Len(KernelRule(s)) ==> Simple(Sym(KernelRule(s), i))
  {
  }

  lemma KernelDrops(s: nat, from: nat)
    requires 0 < s <= 45 && s != 4 && Edge(from, Lhs(KernelRule(s))).Some?
    ensures KernelDot(s) > 1 || FinishRank(Edge(from, Lhs(KernelRule(s))).value) < FinishRank(s)
    ensures FinishRank(Edge(from, Lhs(KernelRule(s))).value) < 10
  {
  }

  lemma EdgeRange(from: nat, x: Symbol)
    ensures Edge(from, x).Some? ==> 0 < Edge(from, x).value <= 45
  {
  }
}
