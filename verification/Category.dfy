// Scrap categories of the CWEAVE parser (cweb/cweave.c:115-270) and the rank
// by which one-scrap productions move strictly downwards.

module Category {

  type Category = c: int | 0 <= c < 256

  // Category 0 never belongs to a scrap: it pads the look-ahead window.
  const PADDING: Category := 0
  const EXP: Category := 1
  const UNOP: Category := 2
  const BINOP: Category := 3
  const UNORBINOP: Category := 4
  const CAST: Category := 5
  const QUESTION: Category := 6
  const LBRACE: Category := 7
  const RBRACE: Category := 8
  const DECL_HEAD: Category := 9
  const COMMA: Category := 10
  const LPAR: Category := 11
  const RPAR: Category := 12
  const PRELANGLE: Category := 13
  const PRERANGLE: Category := 14
  const LANGLE: Category := 15
  const COLCOL: Category := 18
  const BASE: Category := 19
  const DECL: Category := 20
  const STRUCT_HEAD: Category := 21
  const STMT: Category := 23
  const FUNCTION: Category := 24
  const FN_DECL: Category := 25
  const ELSE_LIKE: Category := 26
  const SEMI: Category := 27
  const COLON: Category := 28
  const TAG: Category := 29
  const IF_HEAD: Category := 30
  const ELSE_HEAD: Category := 31
  const IF_CLAUSE: Category := 32
  const LPROC: Category := 35
  const RPROC: Category := 36
  const INSERT: Category := 37
  const SECTION_SCRAP: Category := 38
  const DEAD: Category := 39
  const PUBLIC_LIKE: Category := 40
  const OPERATOR_LIKE: Category := 41
  const NEW_LIKE: Category := 42
  const CATCH_LIKE: Category := 43
  const FOR_LIKE: Category := 45
  const DO_LIKE: Category := 46
  const IF_LIKE: Category := 47
  const RAW_RPAR: Category := 48
  const RAW_UNORBIN: Category := 49
  const CONST_LIKE: Category := 50
  const RAW_INT: Category := 51
  const INT_LIKE: Category := 52
  const CASE_LIKE: Category := 53
  const SIZEOF_LIKE: Category := 54
  const STRUCT_LIKE: Category := 55
  const TYPEDEF_LIKE: Category := 56
  const DEFINE_LIKE: Category := 57
  const BEGIN_ARG: Category := 58
  const END_ARG: Category := 59

  /** Every production that rewrites a single scrap lowers this number. */
  function Rank(c: Category): nat {
    if c == RAW_INT || c == OPERATOR_LIKE || c == IF_CLAUSE || c == CONST_LIKE || c == PUBLIC_LIKE then 3
    else if c == INT_LIKE || c == CAST || c == NEW_LIKE || c == SECTION_SCRAP || c == ELSE_LIKE || c == IF_HEAD then 2
    else if c == EXP || c == DECL_HEAD || c == SEMI || c == COLON || c == PRELANGLE
         || c == PRERANGLE || c == RAW_RPAR || c == RAW_UNORBIN then 1
    else 0
  }
}
