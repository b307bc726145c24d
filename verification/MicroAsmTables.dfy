/**
 * The grammar of the micro-assembler and the LALR(1) action and goto tables that
 * parsetab.py stores for it: 46 states, 15 terminals, 15 nonterminals, 31 productions.
 */
module MicroAsmTables {
  import opened Wrappers

  /** Terminals come first, then nonterminals; END is the driver's "$end", START is "S'". */
  type Symbol = x: nat | x <= 30 witness 0

  const LBRACE: Symbol := 0
  const RPAREN: Symbol := 1
  const ROM: Symbol := 2
  const SEMI: Symbol := 3
  const NEWLINE: Symbol := 4
  const LPAREN: Symbol := 5
  const RBRACE: Symbol := 6
  const COLON: Symbol := 7
  const DOT: Symbol := 8
  const MACROOP: Symbol := 9
  const EXTERN: Symbol := 10
  const PARAMS: Symbol := 11
  const ID: Symbol := 12
  const DEF: Symbol := 13
  const END: Symbol := 14
  const START: Symbol := 15
  const FILE: Symbol := 16
  const OPT_ROM_OR_MACROS: Symbol := 17
  const ROM_OR_MACROS: Symbol := 18
  const ROM_OR_MACRO: Symbol := 19
  const ROM_BLOCK: Symbol := 20
  const MACROOP_DEF: Symbol := 21
  const BLOCK: Symbol := 22
  const STATEMENTS: Symbol := 23
  const STATEMENT: Symbol := 24
  const CONTENT_OF_STATEMENT: Symbol := 25
  const END_OF_STATEMENT: Symbol := 26
  const MICROOP: Symbol := 27
  const LABELS: Symbol := 28
  const LABEL: Symbol := 29
  const DIRECTIVE: Symbol := 30

  predicate IsTerminal(x: Symbol) {
    x <= END
  }

  /** Production numbers as the tables use them. */
  type Rule = p: nat | p <= 30 witness 0

  function Lhs(p: Rule): (x: Symbol)
    ensures !IsTerminal(x) && (x == START <==> p == 0)
  {
    match p
    case 0 => START
    case 1 => FILE
    case 2 | 3 => OPT_ROM_OR_MACROS
    case 4 | 5 => ROM_OR_MACROS
    case 6 | 7 => ROM_OR_MACRO
    case 8 => ROM_BLOCK
    case 9 | 10 => MACROOP_DEF
    case 11 => BLOCK
    case 12 | 13 => STATEMENTS
    case 14 => STATEMENT
    case 15 | 16 | 17 => CONTENT_OF_STATEMENT
    case 18 | 19 => END_OF_STATEMENT
    case 20 | 21 | 22 | 23 => MICROOP
    case 24 | 25 | 26 => LABELS
    case 27 | 28 => LABEL
    case _ => DIRECTIVE
  }

  /** The length of a rule's right-hand side. */
  function Len(p: Rule): nat {
    match p
    case 2 | 17 => 0
    case 5 | 13 | 14 | 20 | 23 | 25 | 26 | 27 | 29 => 2
    case 11 | 22 | 28 | 30 => 3
    case 8 => 4
    case 10 => 5
    case 9 => 7
    case _ => 1
  }

  /** The symbol at position d of a rule's right-hand side. */
  function Sym(p: Rule, d: nat): Symbol {
    match p
    case 0 => FILE
    case 1 => OPT_ROM_OR_MACROS
    case 3 => ROM_OR_MACROS
    case 4 => ROM_OR_MACRO
    case 5 => (match d case 0 => ROM_OR_MACROS case _ => ROM_OR_MACRO)
    case 6 => ROM_BLOCK
    case 7 => MACROOP_DEF
    case 8 => (match d case 0 => DEF case 1 => ROM case 2 => BLOCK case _ => SEMI)
    case 9 => (match d case 0 => DEF case 1 => MACROOP case 2 => ID
                       case 3 => LPAREN case 4 => ID case 5 => RPAREN case _ => SEMI)
    case 10 => (match d case 0 => DEF case 1 => MACROOP case 2 => ID case 3 => BLOCK case _ => SEMI)
    case 11 => (match d case 0 => LBRACE case 1 => STATEMENTS case _ => RBRACE)
    case 12 => STATEMENT
    case 13 => (match d case 0 => STATEMENTS case _ => STATEMENT)
    case 14 => (match d case 0 => CONTENT_OF_STATEMENT case _ => END_OF_STATEMENT)
    case 15 => MICROOP
    case 16 => DIRECTIVE
    case 18 => NEWLINE
    case 19 => SEMI
    case 20 => (match d case 0 => LABELS case _ => ID)
    case 21 => ID
    case 22 => (match d case 0 => LABELS case 1 => ID case _ => PARAMS)
    case 23 => (match d case 0 => ID case _ => PARAMS)
    case 24 => LABEL
    case 25 => (match d case 0 => LABELS case _ => LABEL)
    case 26 => (match d case 0 => LABELS case _ => NEWLINE)
    case 27 => (match d case 0 => ID case _ => COLON)
    case 28 => (match d case 0 => EXTERN case 1 => ID case _ => COLON)
    case 29 => (match d case 0 => DOT case _ => ID)
    case 30 => (match d case 0 => DOT case 1 => ID case _ => PARAMS)
    case _ => END
  }

  /** The automaton's edges: the shift entries for terminals and the goto entries for nonterminals. */
  function Edge(s: nat, x: Symbol): Option<nat> {
    match x
    case LBRACE => if s == 9 || s == 13 then Some(11) else None
    case RPAREN => if s == 40 then Some(44) else None
    case ROM => if s == 6 then Some(9) else None
    case SEMI => if s == 12 then Some(24) else if s == 21 then Some(34) else if s == 25 then Some(39)
               else if s == 44 then Some(45) else None
    case NEWLINE => if s == 16 then Some(29) else if s == 21 then Some(33) else None
    case LPAREN => if s == 13 then Some(26) else None
    case RBRACE => if s == 14 then Some(27) else None
    case COLON => if s == 22 || s == 31 then Some(36) else if s == 32 then Some(42) else None
    case DOT => if s == 11 || s == 14 then Some(23) else None
    case MACROOP => if s == 6 then Some(10) else None
    case EXTERN => if s == 11 || s == 14 || s == 16 then Some(20) else None
    case PARAMS => if s == 22 then Some(37) else if s == 31 then Some(41)
               else if s == 38 then Some(43) else None
    case ID => if s == 10 then Some(13) else if s == 11 || s == 14 then Some(22)
               else if s == 16 then Some(31) else if s == 20 then Some(32)
               else if s == 23 then Some(38) else if s == 26 then Some(40) else None
    case DEF => if s == 0 || s == 2 then Some(6) else None
    case FILE => if s == 0 then Some(4) else None
    case OPT_ROM_OR_MACROS => if s == 0 then Some(5) else None
    case ROM_OR_MACROS => if s == 0 then Some(2) else None
    case ROM_OR_MACRO => if s == 0 then Some(7) else if s == 2 then Some(8) else None
    case ROM_BLOCK => if s == 0 || s == 2 then Some(3) else None
    case MACROOP_DEF => if s == 0 || s == 2 then Some(1) else None
    case BLOCK => if s == 9 then Some(12) else if s == 13 then Some(25) else None
    case STATEMENTS => if s == 11 then Some(14) else None
    case STATEMENT => if s == 11 then Some(19) else if s == 14 then Some(28) else None
    case CONTENT_OF_STATEMENT => if s == 11 || s == 14 then Some(21) else None
    case END_OF_STATEMENT => if s == 21 then Some(35) else None
    case MICROOP => if s == 11 || s == 14 then Some(18) else None
    case LABELS => if s == 11 || s == 14 then Some(16) else None
    case LABEL => if s == 11 || s == 14 then Some(17) else if s == 16 then Some(30) else None
    case DIRECTIVE => if s == 11 || s == 14 then Some(15) else None
    case _ => None
  }

  /** The rule a state reduces by; no state reduces by two. */
  function Completed(s: nat): (r: Option<Rule>)
    ensures r.Some? ==> r.value > 0
  {
    match s
    case 0 => Some(2) case 1 => Some(7) case 2 => Some(3) case 3 => Some(6) case 5 => Some(1)
    case 7 => Some(4) case 8 => Some(5) case 11 | 14 => Some(17) case 15 => Some(16)
    case 17 => Some(24) case 18 => Some(15) case 19 => Some(12) case 22 => Some(21)
    case 24 => Some(8) case 27 => Some(11) case 28 => Some(13) case 29 => Some(26)
    case 30 => Some(25) case 31 => Some(20) case 33 => Some(18) case 34 => Some(19)
    case 35 => Some(14) case 36 => Some(27) case 37 => Some(23) case 38 => Some(29)
    case 39 => Some(10) case 41 => Some(22) case 42 => Some(28) case 43 => Some(30)
    case 45 => Some(9)
    case _ => None
  }

  /** Lookaheads on which the rules for a nonterminal are reduced. */
  predicate Looks(x: Symbol, a: Symbol) {
    match x
    case START | FILE | OPT_ROM_OR_MACROS => a == END
    case ROM_OR_MACROS | ROM_OR_MACRO | ROM_BLOCK | MACROOP_DEF => a == DEF || a == END
    case BLOCK => a == SEMI
    case STATEMENTS | STATEMENT | END_OF_STATEMENT =>
      a == NEWLINE || a == ID || a == RBRACE || a == DOT || a == EXTERN || a == SEMI
    case CONTENT_OF_STATEMENT | MICROOP | DIRECTIVE => a == NEWLINE || a == SEMI
    case LABELS | LABEL => a == NEWLINE || a == ID || a == EXTERN
    case _ => false
  }

  datatype Move = Shift(state: nat) | Reduce(rule: Rule) | Accept | Error

  /** The action for a state and a lookahead. */
  function Action(s: nat, a: Symbol): Move {
    if IsTerminal(a) && Edge(s, a).Some? then Shift(Edge(s, a).value)
    else if Completed(s).Some? && Looks(Lhs(Completed(s).value), a) then Reduce(Completed(s).value)
    else if s == 4 && a == END then Accept
    else Error
  }
}
