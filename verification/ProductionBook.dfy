// The table of productions that CWEB documents (cweb/prod.w:56-247), and what the parser
// makes of it (cweb/cweave.c:2295-2942).

module ProductionBook {
  import opened Category
  import opened Productions

  /** A row of the table, for the four categories at the cursor: whether its left side and
      its note allow them, its right side, and its translation. A number below 4 stands for a
      scrap, counted from the cursor, any other for a code. */
  datatype Row = Row(applies: bool, left: nat, right: seq<Category>, shown: seq<nat>)

  // Stands before a character for the TeX control sequence with that name.
  const CONTROL := 256

  const NO_ROW := Row(false, 0, [], [])

  predicate Structured(c: Category) { c == STMT || c == DECL || c == FUNCTION }

  function BookRow(n: nat, c0: Category, c1: Category, c2: Category, c3: Category, forceLines: bool): Row {
    if n <= 10 then (if c0 == EXP then ExpBook(n, c1, c2, c3) else NO_ROW)
    else if n <= 15 then (if c0 == LPAR then LparBook(n, c1, c2) else NO_ROW)
    else if n <= 20 then OperatorBook(n, c0, c1, c2)
    else if n <= 24 then CastBook(n, c0, c1)
    else if n <= 32 then (if c0 == INT_LIKE then IntLikeBook(n, c1, c2) else NO_ROW)
    else if n <= 39 then (if c0 == DECL_HEAD then DeclHeadBook(n, c1, c2, c3) else NO_ROW)
    else if n <= 43 then DeclBook(n, c0, c1, c2, c3)
    else if n <= 48 then (if c0 == STRUCT_LIKE then StructLikeBook(n, c1, c2) else NO_ROW)
    else if n <= 56 then BlockBook(n, c0, c1, c2, c3)
    else if n <= 61 then ElseBook(n, c0, c1)
    else if n <= 69 then IfBook(n, c0, c1, c2, c3)
    else if n <= 73 then (if c0 == CASE_LIKE then CaseBook(n, c1, c2) else NO_ROW)
    else if n <= 77 then StmtBook(n, c0, c1, forceLines)
    else if n <= 80 then (if c0 == LPROC then LprocBook(n, c1, c2, c3) else NO_ROW)
    else if n <= 91 then AngleBook(n, c0, c1, c2)
    else if n <= 99 then NewBook(n, c0, c1, c2)
    else LastBook(n, c0, c1, c2, c3)
  }

  function ExpBook(n: nat, c1: Category, c2: Category, c3: Category): Row {
    if n == 1 then Row(c1 == LBRACE || c1 == INT_LIKE || c1 == DECL, 2, [FN_DECL, c1], [0, INDENT, INDENT])
    else if n == 2 then Row(c1 == UNOP, 2, [EXP], [0, 1])
    else if n == 3 then Row((c1 == BINOP || c1 == UNORBINOP) && c2 == EXP, 3, [EXP], [0, 1, 2])
    else if n == 4 then Row(c1 == COMMA && c2 == EXP, 3, [EXP], [0, 1, OPT, NINE, 2])
    else if n == 5 then Row(c1 == EXP || c1 == CAST, 2, [EXP], [0, 1])
    else if n == 6 then Row(c1 == SEMI, 2, [STMT], [0, 1])
    else if n == 7 then Row(c1 == COLON, 2, [TAG], [0, 1])
    else if n == 8 then Row(c1 == BASE && c2 == INT_LIKE && c3 == COMMA, 4, [BASE], [1, BLANK, 2, 3, OPT, NINE])
    else if n == 9 then
      Row(c1 == BASE && c2 == INT_LIKE && c3 == LBRACE, 4, [EXP, LBRACE], [0, BLANK, 1, BLANK, 2])
    else if n == 10 then Row(c1 == RBRACE, 2, [STMT, RBRACE], [0])
    else NO_ROW
  }

  function LparBook(n: nat, c1: Category, c2: Category): Row {
    if n == 11 then Row((c1 == EXP || c1 == UNORBINOP) && c2 == RPAR, 3, [EXP], [0, 1, 2])
    else if n == 12 then Row(c1 == RPAR, 2, [EXP], [0, CONTROL + COMMA_CHAR, 1])
    else if n == 13 then Row((c1 == DECL_HEAD || c1 == INT_LIKE) && c2 == RPAR, 3, [CAST], [0, 1, 2])
    else if n == 14 then
      Row((c1 == DECL_HEAD || c1 == INT_LIKE || c1 == EXP) && c2 == COMMA, 3, [LPAR], [0, 1, 2, OPT, NINE])
    else Row(c1 == STMT || c1 == DECL, 2, [LPAR], [0, 1, BLANK])
  }

  function OperatorBook(n: nat, c0: Category, c1: Category, c2: Category): Row {
    if n == 16 then Row(c0 == QUESTION && c1 == EXP && c2 == COLON, 3, [BINOP], [0, 1, 2])
    else if n == 17 then Row(c0 == UNOP && (c1 == EXP || c1 == INT_LIKE), 2, [c1], [0, 1])
    else if n == 18 then
      Row(c0 == UNORBINOP && (c1 == EXP || c1 == INT_LIKE), 2, [c1], [OPEN_BRACE, 0, CLOSE_BRACE, 1])
    else if n == 19 then
      Row(c0 == UNORBINOP && c1 == BINOP, 2, [BINOP], [MATH_REL, 0, OPEN_BRACE, 1, CLOSE_BRACE, CLOSE_BRACE])
    else
      Row(c0 == BINOP && c1 == BINOP,
          2, [BINOP], [MATH_REL, OPEN_BRACE, 0, CLOSE_BRACE, OPEN_BRACE, 1, CLOSE_BRACE, CLOSE_BRACE])
  }

  function CastBook(n: nat, c0: Category, c1: Category): Row {
    if n == 21 then Row(c0 == CAST && c1 == EXP, 2, [EXP], [0, BLANK, 1])
    else if n == 22 then Row(c0 == CAST && c1 == SEMI, 2, [EXP, SEMI], [0])
    else if n == 23 then Row(c0 == SIZEOF_LIKE && c1 == CAST, 2, [EXP], [0, 1])
    else Row(c0 == SIZEOF_LIKE && c1 == EXP, 2, [EXP], [0, BLANK, 1])
  }

  function IntLikeBook(n: nat, c1: Category, c2: Category): Row {
    if n == 25 then Row(c1 == INT_LIKE || c1 == STRUCT_LIKE, 2, [c1], [0, BLANK, 1])
    else if n == 26 then
      Row(c1 == EXP && (c2 == RAW_INT || c2 == STRUCT_LIKE),
          3, [INT_LIKE, if c2 == RAW_INT then INT_LIKE else STRUCT_LIKE], [0, 1])
    else if n == 27 then
      Row(c1 == EXP || c1 == UNORBINOP || c1 == SEMI,
          2, [DECL_HEAD, c1], if c1 == SEMI then [0] else [0, BLANK])
    else if n == 28 then Row(c1 == COLON, 2, [DECL_HEAD, COLON], [0, BLANK])
    else if n == 29 then Row(c1 == PRELANGLE, 2, [INT_LIKE, LANGLE], [1])
    else if n == 30 then Row(c1 == COLCOL && (c2 == EXP || c2 == INT_LIKE), 3, [c2], [0, 1, 2])
    else if n == 31 then Row(c1 == CAST && c2 == LBRACE, 3, [FN_DECL, LBRACE], [0, 1, INDENT, INDENT])
    else Row(c1 == CAST, 2, [INT_LIKE], [0, 1])
  }

  function DeclHeadBook(n: nat, c1: Category, c2: Category, c3: Category): Row {
    if n == 33 then Row(c1 == COMMA, 2, [DECL_HEAD], [0, 1, BLANK])
    else if n == 34 then Row(c1 == UNORBINOP, 2, [DECL_HEAD], [0, OPEN_BRACE, 1, CLOSE_BRACE])
    else if n == 35 then Row(c1 == EXP && c2 != LPAR && c2 != EXP, 2, [DECL_HEAD], [0, 1])
    else if n == 36 then
      Row((c1 == BINOP || c1 == COLON) && c2 == EXP && (c3 == COMMA || c3 == SEMI || c3 == RPAR),
          4, [DECL_HEAD, c3], [0, 1, 2])
    else if n == 37 then Row(c1 == CAST, 2, [DECL_HEAD], [0, 1])
    else if n == 38 then
      Row((c1 == INT_LIKE && c2 != COLCOL) || c1 == LBRACE || c1 == DECL, 2, [FN_DECL, c1], [0, INDENT, INDENT])
    else Row(c1 == SEMI, 2, [DECL], [0, 1])
  }

  function DeclBook(n: nat, c0: Category, c1: Category, c2: Category, c3: Category): Row {
    if n == 40 then Row(c0 == DECL && c1 == DECL, 2, [DECL], [0, FORCE, 1])
    else if n == 41 then Row(c0 == DECL && (c1 == STMT || c1 == FUNCTION), 2, [c1], [0, BIG_FORCE, 1])
    else if n == 42 then
      Row(c0 == TYPEDEF_LIKE && c1 == DECL_HEAD && (c2 == INT_LIKE || (c2 == EXP && c3 != LPAR && c3 != EXP)),
          3, [TYPEDEF_LIKE, DECL_HEAD], [1, 2])
    else Row(c0 == TYPEDEF_LIKE && c1 == DECL_HEAD && c2 == SEMI, 3, [DECL], [0, BLANK, 1])
  }

  function StructLikeBook(n: nat, c1: Category, c2: Category): Row {
    if n == 44 then Row(c1 == LBRACE, 2, [STRUCT_HEAD], [0, BLANK, 1])
    else if n == 45 then Row((c1 == EXP || c1 == INT_LIKE) && c2 == SEMI, 3, [DECL_HEAD], [0, BLANK, 1])
    else if n == 46 then
      Row((c1 == EXP || c1 == INT_LIKE) && c2 == LBRACE, 3, [STRUCT_HEAD], [0, BLANK, 1, BLANK, 2])
    else if n == 47 then Row((c1 == EXP || c1 == INT_LIKE) && c2 == COLON, 3, [STRUCT_LIKE, c1, BASE], [2])
    else Row((c1 == EXP || c1 == INT_LIKE) && c2 != BASE, 2, [INT_LIKE], [0, BLANK, 1])
  }

  function BlockBook(n: nat, c0: Category, c1: Category, c2: Category, c3: Category): Row {
    if n == 49 then
      Row(c0 == STRUCT_HEAD && Structured(c1) && c2 == RBRACE,
          3, [INT_LIKE], [0, INDENT, FORCE, 1, OUTDENT, FORCE, 2])
    else if n == 50 then Row(c0 == STRUCT_HEAD && c1 == RBRACE, 2, [INT_LIKE], [0, CONTROL + COMMA_CHAR, 1])
    else if n == 51 then Row(c0 == FN_DECL && c1 == DECL, 2, [FN_DECL], [0, FORCE, 1])
    else if n == 52 then Row(c0 == FN_DECL && c1 == STMT, 2, [FUNCTION], [0, OUTDENT, OUTDENT, FORCE, 1])
    else if n == 53 then Row(c0 == FUNCTION && Structured(c1), 2, [c1], [0, BIG_FORCE, 1])
    else if n == 54 then Row(c0 == LBRACE && c1 == RBRACE, 2, [STMT], [0, CONTROL + COMMA_CHAR, 1])
    else if n == 55 then
      Row(c0 == LBRACE && Structured(c1) && c2 == RBRACE,
          3, [STMT], [FORCE, 0, INDENT, FORCE, 1, FORCE, BACKUP, 2, OUTDENT, FORCE])
    else
      Row(c0 == LBRACE && c1 == EXP && (c2 == RBRACE || (c2 == COMMA && c3 == RBRACE)),
          if c2 == RBRACE then 3 else 4, [EXP], if c2 == RBRACE then [0, 1, 2] else [0, 1, 2, 3])
  }

  function ElseBook(n: nat, c0: Category, c1: Category): Row {
    if n == 57 then Row(c0 == IF_LIKE && c1 == EXP, 2, [IF_CLAUSE], [0, BLANK, 1])
    else if n == 58 then Row(c0 == FOR_LIKE && c1 == EXP, 2, [ELSE_LIKE], [0, BLANK, 1])
    else if n == 59 then Row(c0 == ELSE_LIKE && c1 == LBRACE, 2, [ELSE_HEAD, LBRACE], [0])
    else if n == 60 then
      Row(c0 == ELSE_LIKE && c1 == STMT, 2, [STMT], [FORCE, 0, INDENT, BREAK_SPACE, 1, OUTDENT, FORCE])
    else
      Row(c0 == ELSE_HEAD && (c1 == STMT || c1 == EXP),
          2, [STMT], [FORCE, 0, BREAK_SPACE, NOOP, CANCEL, 1, BREAK_SPACE])
  }

  function IfBook(n: nat, c0: Category, c1: Category, c2: Category, c3: Category): Row {
    if n == 62 then Row(c0 == IF_CLAUSE && c1 == LBRACE, 2, [IF_HEAD, LBRACE], [0])
    else if n == 63 then
      Row(c0 == IF_CLAUSE && c1 == STMT && c2 == ELSE_LIKE && c3 == IF_LIKE,
          4, [IF_LIKE], [FORCE, 0, INDENT, BREAK_SPACE, 1, OUTDENT, FORCE, 2, BLANK, 3])
    else if n == 64 then
      Row(c0 == IF_CLAUSE && c1 == STMT && c2 == ELSE_LIKE,
          3, [ELSE_LIKE], [FORCE, 0, INDENT, BREAK_SPACE, 1, OUTDENT, FORCE, 2])
    else if n == 65 then Row(c0 == IF_CLAUSE && c1 == STMT, 2, [ELSE_LIKE, STMT], [0])
    else if n == 66 then
      Row(c0 == IF_HEAD && (c1 == STMT || c1 == EXP) && c2 == ELSE_LIKE && c3 == IF_LIKE,
          4, [IF_LIKE], [FORCE, 0, BREAK_SPACE, NOOP, CANCEL, 1, FORCE, 2, BLANK, 3])
    else if n == 67 then
      Row(c0 == IF_HEAD && (c1 == STMT || c1 == EXP) && c2 == ELSE_LIKE,
          3, [ELSE_LIKE], [FORCE, 0, BREAK_SPACE, NOOP, CANCEL, 1, FORCE, 2])
    else if n == 68 then Row(c0 == IF_HEAD && (c1 == STMT || c1 == EXP), 2, [ELSE_HEAD, c1], [0])
    else
      Row(c0 == DO_LIKE && c1 == STMT && c2 == ELSE_LIKE && c3 == SEMI,
          4, [STMT], [0, BREAK_SPACE, NOOP, CANCEL, 1, CANCEL, NOOP, BREAK_SPACE, 2, 3])
  }

  function CaseBook(n: nat, c1: Category, c2: Category): Row {
    if n == 70 then Row(c1 == SEMI, 2, [STMT], [0, 1])
    else if n == 71 then Row(c1 == COLON, 2, [TAG], [0, 1])
    else if n == 72 then Row(c1 == EXP && c2 == SEMI, 3, [STMT], [0, BLANK, 1, 2])
    else Row(c1 == EXP && c2 == COLON, 3, [TAG], [0, BLANK, 1, 2])
  }

  function StmtBook(n: nat, c0: Category, c1: Category, forceLines: bool): Row {
    if n == 74 then Row(c0 == TAG && c1 == TAG, 2, [TAG], [0, BREAK_SPACE, 1])
    else if n == 75 then Row(c0 == TAG && Structured(c1), 2, [c1], [FORCE, BACKUP, 0, BREAK_SPACE, 1])
    else if n == 76 then
      Row(c0 == STMT && Structured(c1),
          2, [c1], [0, if c1 != STMT then BIG_FORCE else if forceLines then FORCE else BREAK_SPACE, 1])
    else Row(c0 == SEMI, 1, [STMT], [BLANK, 0])
  }

  function LprocBook(n: nat, c1: Category, c2: Category, c3: Category): Row {
    if n == 78 then Row(c1 == IF_LIKE || c1 == ELSE_LIKE || c1 == DEFINE_LIKE, 2, [LPROC], [0, 1])
    else if n == 79 then Row(c1 == RPROC, 2, [INSERT], [0, 1])
    else
      Row(((c1 == EXP || c1 == FUNCTION) && c2 == RPROC) || (c1 == EXP && c2 == EXP && c3 == RPROC),
          if c2 == RPROC then 3 else 4, [INSERT],
          if c2 == RPROC then [0, BLANK, 1] else [0, BLANK, 1, BLANK, CONTROL + FIVE, 2])
  }

  function AngleBook(n: nat, c0: Category, c1: Category, c2: Category): Row {
    if n == 81 then Row(c0 == SECTION_SCRAP && c1 == SEMI, 2, [STMT], [0, 1, FORCE])
    else if n == 82 then Row(c0 == SECTION_SCRAP, 1, [EXP], [0])
    else if n == 83 then Row(c0 == INSERT && c1 != PADDING, 2, [c1], [0, 1])
    else if n == 84 then Row(c0 == PRELANGLE, 1, [BINOP], [LESS_CHAR])
    else if n == 85 then Row(c0 == PRERANGLE, 1, [BINOP], [GREATER_CHAR])
    else if n == 86 then Row(c0 == LANGLE && c1 == EXP && c2 == PRERANGLE, 3, [CAST], [0, 1, 2])
    else if n == 87 then Row(c0 == LANGLE && c1 == PRERANGLE, 2, [CAST], [0, CONTROL + COMMA_CHAR, 1])
    else if n == 88 then
      Row(c0 == LANGLE && (c1 == DECL_HEAD || c1 == INT_LIKE) && c2 == PRERANGLE, 3, [CAST], [0, 1, 2])
    else if n == 89 then
      Row(c0 == LANGLE && (c1 == DECL_HEAD || c1 == INT_LIKE) && c2 == COMMA, 3, [LANGLE], [0, 1, 2, OPT, NINE])
    else if n == 90 then Row(c0 == PUBLIC_LIKE && c1 == COLON, 2, [TAG], [0, 1])
    else Row(c0 == PUBLIC_LIKE, 1, [INT_LIKE], [0])
  }

  function NewBook(n: nat, c0: Category, c1: Category, c2: Category): Row {
    if n == 92 then Row(c0 == COLCOL && (c1 == EXP || c1 == INT_LIKE), 2, [c1], [0, 1])
    else if n == 93 then
      Row(c0 == NEW_LIKE && (c1 == EXP || (c1 == RAW_INT && c2 != PRELANGLE && c2 != LANGLE)),
          2, [NEW_LIKE], [0, BLANK, 1])
    else if n == 94 then Row(c0 == NEW_LIKE && (c1 == RAW_UNORBIN || c1 == COLCOL), 2, [NEW_LIKE], [0, 1])
    else if n == 95 then Row(c0 == NEW_LIKE && c1 == CAST, 2, [EXP], [0, 1])
    else if n == 96 then Row(c0 == NEW_LIKE && c1 != LPAR && c1 != RAW_INT && c1 != STRUCT_LIKE, 1, [EXP], [0])
    else if n == 97 then
      Row(c0 == OPERATOR_LIKE && IsOperator(c1) && c2 != BINOP, 2, [EXP], [0, OPEN_BRACE, 1, CLOSE_BRACE])
    else if n == 98 then
      Row(c0 == OPERATOR_LIKE && (c1 == NEW_LIKE || c1 == SIZEOF_LIKE), 2, [EXP], [0, BLANK, 1])
    else Row(c0 == OPERATOR_LIKE, 1, [NEW_LIKE], [0])
  }

  predicate IsOperator(c: Category) { c == BINOP || c == UNOP || c == UNORBINOP }

  function LastBook(n: nat, c0: Category, c1: Category, c2: Category, c3: Category): Row {
    if n == 100 then Row(c0 == CATCH_LIKE && (c1 == CAST || c1 == EXP), 2, [FN_DECL], [0, 1, INDENT, INDENT])
    else if n == 101 then
      Row(c0 == BASE && c1 == PUBLIC_LIKE && c2 == EXP && c3 == COMMA, 4, [BASE], [0, 1, BLANK, 2, 3])
    else if n == 102 then Row(c0 == BASE && c1 == PUBLIC_LIKE && c2 == EXP, 3, [BASE, INT_LIKE], [1, BLANK, 2])
    else if n == 103 then
      Row(c0 == RAW_RPAR && c1 == CONST_LIKE
          && (c2 == SEMI || c2 == LBRACE || c2 == COMMA || c2 == BINOP || c2 == CONST_LIKE),
          2, [RAW_RPAR], [0, BLANK, 1])
    else if n == 104 then Row(c0 == RAW_RPAR, 1, [RPAR], [0])
    else if n == 105 then Row(c0 == RAW_UNORBIN && c1 == CONST_LIKE, 2, [RAW_UNORBIN], [0, 1, CONTROL + BLANK])
    else if n == 106 then Row(c0 == RAW_UNORBIN, 1, [UNORBINOP], [0])
    else if n == 107 then Row(c0 == CONST_LIKE, 1, [INT_LIKE], [0])
    else if n == 108 then Row(c0 == RAW_INT && c1 == LPAR, 2, [EXP], [0, 1])
    else if n == 109 then Row(c0 == RAW_INT, 1, [INT_LIKE], [0])
    else if n == 110 then Row(c0 == BEGIN_ARG && c1 == END_ARG, 2, [EXP], [0, 1])
    else if n == 111 then Row(c0 != BEGIN_ARG && c1 == END_ARG, 2, [END_ARG], [0, 1])
    else NO_ROW
  }

  // ---------- what a production does

  /** The scraps that a production shows, and the codes between them. */
  function Mark(op: Op): nat {
    match op
    case Take(i) => i
    case Big(c) => c
    case Raw(c) => c
    case Escaped(c) => CONTROL + c
    case SetMath => 0
  }

  predicate Shows(p: Production, shown: seq<nat>) {
    match p
    case NoRule => false
    case Squash(at, k, _, _, _) => |shown| == k && forall i :: 0 <= i < k ==> shown[i] == at + i
    case Reduce(_, _, _, _, _, body) => ShowsAll(body, shown)
  }

  // A change of mode, with which productions 84 and 85 begin, shows nothing.
  predicate ShowsAll(body: seq<Op>, shown: seq<nat>) {
    if body != [] && body[0] == SetMath then ShowsEach(body[1..], shown) else ShowsEach(body, shown)
  }

  predicate ShowsEach(body: seq<Op>, shown: seq<nat>) {
    |shown| == |body| && forall i :: 0 <= i < |shown| ==> shown[i] == Mark(body[i])
  }

  /** The production puts the categories `right` in place of the first `left` in w. */
  predicate Rewrites(p: Production, left: nat, right: seq<Category>, w: seq<Category>)
    requires |w| == 4
  {
    && !p.NoRule? && p.at + p.k <= left <= 4 && |right| == left - p.k + 1
    && forall i :: 0 <= i < |right| ==>
         right[i] == if i < p.at then w[i] else if i == p.at then p.cat else w[i + p.k - 1]
  }

  // ---------- which row

  /** The note on production 97 holds back production 99 as well. */
  predicate Waits(c0: Category, c1: Category, c2: Category) {
    c0 == OPERATOR_LIKE && IsOperator(c1) && c2 == BINOP
  }

  predicate FirstRow(n: nat, c0: Category, c1: Category, c2: Category, c3: Category, forceLines: bool) {
    && 1 <= n <= 109 && BookRow(n, c0, c1, c2, c3, forceLines).applies
    && forall m: nat :: 1 <= m < n ==> !BookRow(m, c0, c1, c2, c3, forceLines).applies
  }

  predicate NoRow(c0: Category, c1: Category, c2: Category, c3: Category, forceLines: bool) {
    forall m: nat :: 1 <= m <= 109 ==> !BookRow(m, c0, c1, c2, c3, forceLines).applies
  }

  predicate Selects(p: Production, c0: Category, c1: Category, c2: Category, c3: Category, forceLines: bool) {
    if p.NoRule? then NoRow(c0, c1, c2, c3, forceLines) || Waits(c0, c1, c2)
    else FirstRow(p.n, c0, c1, c2, c3, forceLines) && !Waits(c0, c1, c2)
  }

  // ---------- what is done

  /** What the parser makes of a row. On the right of 8, 45 and 108 the table leaves out a
      scrap that stays, and 26 leaves a `raw_int` as it is. 43 and 80 show their last scrap, 79
      and 80 begin with the mark of an insertion, 108 shows nothing new, and 61 ends with a
      break where the table has a blank. */
  function Actual(n: nat, row: Row, c2: Category): Row {
    if n == 8 then row.(right := [EXP, BASE])
    else if n == 26 && c2 == RAW_INT then row.(right := [INT_LIKE, RAW_INT])
    else if n == 43 then row.(shown := [0, BLANK, 1, 2])
    else if n == 45 then row.(right := [DECL_HEAD, SEMI])
    else if n == 61 then row.(shown := [FORCE, 0, BREAK_SPACE, NOOP, CANCEL, 1, FORCE])
    else if n == 79 then row.(shown := [INSERTED, 0, 1])
    else if n == 80 then
      row.(shown := if c2 == RPROC then [INSERTED, 0, BLANK, 1, 2]
                    else [INSERTED, 0, BLANK, 1, BLANK, CONTROL + FIVE, 2, 3])
    else if n == 108 then row.(right := [EXP, LPAR], shown := [0])
    else row
  }

  predicate Agrees(p: Production, c0: Category, c1: Category, c2: Category, c3: Category, forceLines: bool) {
    !p.NoRule? ==>
      var row := Actual(p.n, BookRow(p.n, c0, c1, c2, c3, forceLines), c2);
      Rewrites(p, row.left, row.right, [c0, c1, c2, c3]) && Shows(p, row.shown)
  }

  // ---------- category by category

  lemma ExpSelects(c0: Category, c1: Category, c2: Category, c3: Category, forceLines: bool)
    requires c0 == EXP
    ensures Selects(CategoryRules(c0, c1, c2, c3, forceLines), c0, c1, c2, c3, forceLines)
  {
  }

  lemma ExpBaseAgrees(c0: Category, c1: Category, c2: Category, c3: Category, forceLines: bool)
    requires c0 == EXP && c1 == BASE
    ensures Agrees(CategoryRules(c0, c1, c2, c3, forceLines), c0, c1, c2, c3, forceLines)
  {
  }

  lemma ExpAgrees(c0: Category, c1: Category, c2: Category, c3: Category, forceLines: bool)
    requires c0 == EXP && c1 != BASE
    ensures Agrees(CategoryRules(c0, c1, c2, c3, forceLines), c0, c1, c2, c3, forceLines)
  {
  }

  lemma LparSelects(c0: Category, c1: Category, c2: Category, c3: Category, forceLines: bool)
    requires c0 == LPAR
    ensures Selects(CategoryRules(c0, c1, c2, c3, forceLines), c0, c1, c2, c3, forceLines)
  {
  }

  lemma LparAgrees(c0: Category, c1: Category, c2: Category, c3: Category, forceLines: bool)
    requires c0 == LPAR
    ensures Agrees(CategoryRules(c0, c1, c2, c3, forceLines), c0, c1, c2, c3, forceLines)
  {
  }

  lemma OperatorSelects(c0: Category, c1: Category, c2: Category, c3: Category, forceLines: bool)
    requires c0 == QUESTION || c0 == UNOP || c0 == UNORBINOP || c0 == BINOP
    ensures Selects(CategoryRules(c0, c1, c2, c3, forceLines), c0, c1, c2, c3, forceLines)
  {
  }

  lemma OperatorAgrees(c0: Category, c1: Category, c2: Category, c3: Category, forceLines: bool)
    requires c0 == QUESTION || c0 == UNOP || c0 == UNORBINOP || c0 == BINOP
    ensures Agrees(CategoryRules(c0, c1, c2, c3, forceLines), c0, c1, c2, c3, forceLines)
  {
  }

  lemma CastSelects(c0: Category, c1: Category, c2: Category, c3: Category, forceLines: bool)
    requires c0 == CAST || c0 == SIZEOF_LIKE
    ensures Selects(CategoryRules(c0, c1, c2, c3, forceLines), c0, c1, c2, c3, forceLines)
  {
  }

  lemma CastAgrees(c0: Category, c1: Category, c2: Category, c3: Category, forceLines: bool)
    requires c0 == CAST || c0 == SIZEOF_LIKE
    ensures Agrees(CategoryRules(c0, c1, c2, c3, forceLines), c0, c1, c2, c3, forceLines)
  {
  }

  lemma IntLikeSelects(c0: Category, c1: Category, c2: Category, c3: Category, forceLines: bool)
    requires c0 == INT_LIKE
    ensures Selects(CategoryRules(c0, c1, c2, c3, forceLines), c0, c1, c2, c3, forceLines)
  {
  }

  lemma IntLikeAgrees(c0: Category, c1: Category, c2: Category, c3: Category, forceLines: bool)
    requires c0 == INT_LIKE
    ensures Agrees(CategoryRules(c0, c1, c2, c3, forceLines), c0, c1, c2, c3, forceLines)
  {
  }

  lemma DeclHeadSelects(c0: Category, c1: Category, c2: Category, c3: Category, forceLines: bool)
    requires c0 == DECL_HEAD
    ensures Selects(CategoryRules(c0, c1, c2, c3, forceLines), c0, c1, c2, c3, forceLines)
  {
  }

  lemma DeclHeadAgrees(c0: Category, c1: Category, c2: Category, c3: Category, forceLines: bool)
    requires c0 == DECL_HEAD
    ensures Agrees(CategoryRules(c0, c1, c2, c3, forceLines), c0, c1, c2, c3, forceLines)
  {
  }

  lemma DeclSelects(c0: Category, c1: Category, c2: Category, c3: Category, forceLines: bool)
    requires c0 == DECL || c0 == TYPEDEF_LIKE
    ensures Selects(CategoryRules(c0, c1, c2, c3, forceLines), c0, c1, c2, c3, forceLines)
  {
  }

  lemma DeclAgrees(c0: Category, c1: Category, c2: Category, c3: Category, forceLines: bool)
    requires c0 == DECL || c0 == TYPEDEF_LIKE
    ensures Agrees(CategoryRules(c0, c1, c2, c3, forceLines), c0, c1, c2, c3, forceLines)
  {
  }

  lemma StructLikeSelects(c0: Category, c1: Category, c2: Category, c3: Category, forceLines: bool)
    requires c0 == STRUCT_LIKE
    ensures Selects(CategoryRules(c0, c1, c2, c3, forceLines), c0, c1, c2, c3, forceLines)
  {
  }

  lemma StructLikeAgrees(c0: Category, c1: Category, c2: Category, c3: Category, forceLines: bool)
    requires c0 == STRUCT_LIKE
    ensures Agrees(CategoryRules(c0, c1, c2, c3, forceLines), c0, c1, c2, c3, forceLines)
  {
  }

  lemma StructHeadSelects(c0: Category, c1: Category, c2: Category, c3: Category, forceLines: bool)
    requires c0 == STRUCT_HEAD
    ensures Selects(CategoryRules(c0, c1, c2, c3, forceLines), c0, c1, c2, c3, forceLines)
  {
  }

  lemma StructHeadAgrees(c0: Category, c1: Category, c2: Category, c3: Category, forceLines: bool)
    requires c0 == STRUCT_HEAD
    ensures Agrees(CategoryRules(c0, c1, c2, c3, forceLines), c0, c1, c2, c3, forceLines)
  {
  }

  lemma FunctionSelects(c0: Category, c1: Category, c2: Category, c3: Category, forceLines: bool)
    requires c0 == FN_DECL || c0 == FUNCTION
    ensures Selects(CategoryRules(c0, c1, c2, c3, forceLines), c0, c1, c2, c3, forceLines)
  {
  }

  lemma FunctionAgrees(c0: Category, c1: Category, c2: Category, c3: Category, forceLines: bool)
    requires c0 == FN_DECL || c0 == FUNCTION
    ensures Agrees(CategoryRules(c0, c1, c2, c3, forceLines), c0, c1, c2, c3, forceLines)
  {
  }

  lemma LbraceSelects(c0: Category, c1: Category, c2: Category, c3: Category, forceLines: bool)
    requires c0 == LBRACE
    ensures Selects(CategoryRules(c0, c1, c2, c3, forceLines), c0, c1, c2, c3, forceLines)
  {
  }

  lemma LbraceAgrees(c0: Category, c1: Category, c2: Category, c3: Category, forceLines: bool)
    requires c0 == LBRACE
    ensures Agrees(CategoryRules(c0, c1, c2, c3, forceLines), c0, c1, c2, c3, forceLines)
  {
  }

  lemma IfLikeSelects(c0: Category, c1: Category, c2: Category, c3: Category, forceLines: bool)
    requires c0 == IF_LIKE || c0 == FOR_LIKE
    ensures Selects(CategoryRules(c0, c1, c2, c3, forceLines), c0, c1, c2, c3, forceLines)
  {
  }

  lemma IfLikeAgrees(c0: Category, c1: Category, c2: Category, c3: Category, forceLines: bool)
    requires c0 == IF_LIKE || c0 == FOR_LIKE
    ensures Agrees(CategoryRules(c0, c1, c2, c3, forceLines), c0, c1, c2, c3, forceLines)
  {
  }

  lemma ElseLikeSelects(c0: Category, c1: Category, c2: Category, c3: Category, forceLines: bool)
    requires c0 == ELSE_LIKE || c0 == ELSE_HEAD
    ensures Selects(CategoryRules(c0, c1, c2, c3, forceLines), c0, c1, c2, c3, forceLines)
  {
  }

  lemma ElseLikeAgrees(c0: Category, c1: Category, c2: Category, c3: Category, forceLines: bool)
    requires c0 == ELSE_LIKE || c0 == ELSE_HEAD
    ensures Agrees(CategoryRules(c0, c1, c2, c3, forceLines), c0, c1, c2, c3, forceLines)
  {
  }

  lemma IfClauseSelects(c0: Category, c1: Category, c2: Category, c3: Category, forceLines: bool)
    requires c0 == IF_CLAUSE
    ensures Selects(CategoryRules(c0, c1, c2, c3, forceLines), c0, c1, c2, c3, forceLines)
  {
  }

  lemma IfClauseAgrees(c0: Category, c1: Category, c2: Category, c3: Category, forceLines: bool)
    requires c0 == IF_CLAUSE
    ensures Agrees(CategoryRules(c0, c1, c2, c3, forceLines), c0, c1, c2, c3, forceLines)
  {
  }

  lemma IfHeadSelects(c0: Category, c1: Category, c2: Category, c3: Category, forceLines: bool)
    requires c0 == IF_HEAD
    ensures Selects(CategoryRules(c0, c1, c2, c3, forceLines), c0, c1, c2, c3, forceLines)
  {
  }

  lemma IfHeadAgrees(c0: Category, c1: Category, c2: Category, c3: Category, forceLines: bool)
    requires c0 == IF_HEAD
    ensures Agrees(CategoryRules(c0, c1, c2, c3, forceLines), c0, c1, c2, c3, forceLines)
  {
  }

  lemma DoLikeSelects(c0: Category, c1: Category, c2: Category, c3: Category, forceLines: bool)
    requires c0 == DO_LIKE
    ensures Selects(CategoryRules(c0, c1, c2, c3, forceLines), c0, c1, c2, c3, forceLines)
  {
  }

  lemma DoLikeAgrees(c0: Category, c1: Category, c2: Category, c3: Category, forceLines: bool)
    requires c0 == DO_LIKE
    ensures Agrees(CategoryRules(c0, c1, c2, c3, forceLines), c0, c1, c2, c3, forceLines)
  {
  }

  lemma CaseLikeSelects(c0: Category, c1: Category, c2: Category, c3: Category, forceLines: bool)
    requires c0 == CASE_LIKE
    ensures Selects(CategoryRules(c0, c1, c2, c3, forceLines), c0, c1, c2, c3, forceLines)
  {
  }

  lemma CaseLikeAgrees(c0: Category, c1: Category, c2: Category, c3: Category, forceLines: bool)
    requires c0 == CASE_LIKE
    ensures Agrees(CategoryRules(c0, c1, c2, c3, forceLines), c0, c1, c2, c3, forceLines)
  {
  }

  lemma TagSelects(c0: Category, c1: Category, c2: Category, c3: Category, forceLines: bool)
    requires c0 == TAG || c0 == SEMI
    ensures Selects(CategoryRules(c0, c1, c2, c3, forceLines), c0, c1, c2, c3, forceLines)
  {
  }

  lemma TagAgrees(c0: Category, c1: Category, c2: Category, c3: Category, forceLines: bool)
    requires c0 == TAG || c0 == SEMI
    ensures Agrees(CategoryRules(c0, c1, c2, c3, forceLines), c0, c1, c2, c3, forceLines)
  {
  }

  lemma StmtSelects(c0: Category, c1: Category, c2: Category, c3: Category, forceLines: bool)
    requires c0 == STMT
    ensures Selects(CategoryRules(c0, c1, c2, c3, forceLines), c0, c1, c2, c3, forceLines)
  {
  }

  lemma StmtAgrees(c0: Category, c1: Category, c2: Category, c3: Category, forceLines: bool)
    requires c0 == STMT
    ensures Agrees(CategoryRules(c0, c1, c2, c3, forceLines), c0, c1, c2, c3, forceLines)
  {
  }

  lemma LprocSelects(c0: Category, c1: Category, c2: Category, c3: Category, forceLines: bool)
    requires c0 == LPROC
    ensures Selects(CategoryRules(c0, c1, c2, c3, forceLines), c0, c1, c2, c3, forceLines)
  {
  }

  lemma LprocAgrees(c0: Category, c1: Category, c2: Category, c3: Category, forceLines: bool)
    requires c0 == LPROC
    ensures Agrees(CategoryRules(c0, c1, c2, c3, forceLines), c0, c1, c2, c3, forceLines)
  {
  }

  lemma InsertSelects(c0: Category, c1: Category, c2: Category, c3: Category, forceLines: bool)
    requires c0 == SECTION_SCRAP || c0 == INSERT
    ensures Selects(CategoryRules(c0, c1, c2, c3, forceLines), c0, c1, c2, c3, forceLines)
  {
  }

  lemma InsertAgrees(c0: Category, c1: Category, c2: Category, c3: Category, forceLines: bool)
    requires c0 == SECTION_SCRAP || c0 == INSERT
    ensures Agrees(CategoryRules(c0, c1, c2, c3, forceLines), c0, c1, c2, c3, forceLines)
  {
  }

  lemma AngleSelects(c0: Category, c1: Category, c2: Category, c3: Category, forceLines: bool)
    requires c0 == PRELANGLE || c0 == PRERANGLE
    ensures Selects(CategoryRules(c0, c1, c2, c3, forceLines), c0, c1, c2, c3, forceLines)
  {
  }

  lemma AngleAgrees(c0: Category, c1: Category, c2: Category, c3: Category, forceLines: bool)
    requires c0 == PRELANGLE || c0 == PRERANGLE
    ensures Agrees(CategoryRules(c0, c1, c2, c3, forceLines), c0, c1, c2, c3, forceLines)
  {
  }

  lemma LangleSelects(c0: Category, c1: Category, c2: Category, c3: Category, forceLines: bool)
    requires c0 == LANGLE
    ensures Selects(CategoryRules(c0, c1, c2, c3, forceLines), c0, c1, c2, c3, forceLines)
  {
  }

  lemma LangleAgrees(c0: Category, c1: Category, c2: Category, c3: Category, forceLines: bool)
    requires c0 == LANGLE
    ensures Agrees(CategoryRules(c0, c1, c2, c3, forceLines), c0, c1, c2, c3, forceLines)
  {
  }

  lemma PublicSelects(c0: Category, c1: Category, c2: Category, c3: Category, forceLines: bool)
    requires c0 == PUBLIC_LIKE || c0 == COLCOL
    ensures Selects(CategoryRules(c0, c1, c2, c3, forceLines), c0, c1, c2, c3, forceLines)
  {
  }

  lemma PublicAgrees(c0: Category, c1: Category, c2: Category, c3: Category, forceLines: bool)
    requires c0 == PUBLIC_LIKE || c0 == COLCOL
    ensures Agrees(CategoryRules(c0, c1, c2, c3, forceLines), c0, c1, c2, c3, forceLines)
  {
  }

  lemma NewSelects(c0: Category, c1: Category, c2: Category, c3: Category, forceLines: bool)
    requires c0 == NEW_LIKE
    ensures Selects(CategoryRules(c0, c1, c2, c3, forceLines), c0, c1, c2, c3, forceLines)
  {
  }

  lemma NewAgrees(c0: Category, c1: Category, c2: Category, c3: Category, forceLines: bool)
    requires c0 == NEW_LIKE
    ensures Agrees(CategoryRules(c0, c1, c2, c3, forceLines), c0, c1, c2, c3, forceLines)
  {
  }

  lemma NameSelects(c0: Category, c1: Category, c2: Category, c3: Category, forceLines: bool)
    requires c0 == OPERATOR_LIKE
    ensures Selects(CategoryRules(c0, c1, c2, c3, forceLines), c0, c1, c2, c3, forceLines)
  {
  }

  lemma NameAgrees(c0: Category, c1: Category, c2: Category, c3: Category, forceLines: bool)
    requires c0 == OPERATOR_LIKE
    ensures Agrees(CategoryRules(c0, c1, c2, c3, forceLines), c0, c1, c2, c3, forceLines)
  {
  }

  lemma BaseSelects(c0: Category, c1: Category, c2: Category, c3: Category, forceLines: bool)
    requires c0 == CATCH_LIKE || c0 == BASE
    ensures Selects(CategoryRules(c0, c1, c2, c3, forceLines), c0, c1, c2, c3, forceLines)
  {
  }

  lemma BaseAgrees(c0: Category, c1: Category, c2: Category, c3: Category, forceLines: bool)
    requires c0 == CATCH_LIKE || c0 == BASE
    ensures Agrees(CategoryRules(c0, c1, c2, c3, forceLines), c0, c1, c2, c3, forceLines)
  {
  }

  lemma RawSelects(c0: Category, c1: Category, c2: Category, c3: Category, forceLines: bool)
    requires c0 == RAW_RPAR || c0 == RAW_UNORBIN
    ensures Selects(CategoryRules(c0, c1, c2, c3, forceLines), c0, c1, c2, c3, forceLines)
  {
  }

  lemma RawAgrees(c0: Category, c1: Category, c2: Category, c3: Category, forceLines: bool)
    requires c0 == RAW_RPAR || c0 == RAW_UNORBIN
    ensures Agrees(CategoryRules(c0, c1, c2, c3, forceLines), c0, c1, c2, c3, forceLines)
  {
  }

  lemma ConstSelects(c0: Category, c1: Category, c2: Category, c3: Category, forceLines: bool)
    requires c0 == CONST_LIKE || c0 == RAW_INT
    ensures Selects(CategoryRules(c0, c1, c2, c3, forceLines), c0, c1, c2, c3, forceLines)
  {
  }

  lemma ConstAgrees(c0: Category, c1: Category, c2: Category, c3: Category, forceLines: bool)
    requires c0 == CONST_LIKE || c0 == RAW_INT
    ensures Agrees(CategoryRules(c0, c1, c2, c3, forceLines), c0, c1, c2, c3, forceLines)
  {
  }

  lemma Categories(c0: Category, c1: Category, c2: Category, c3: Category, forceLines: bool)
    ensures Selects(CategoryRules(c0, c1, c2, c3, forceLines), c0, c1, c2, c3, forceLines)
    ensures Agrees(CategoryRules(c0, c1, c2, c3, forceLines), c0, c1, c2, c3, forceLines)
  {
    if c0 == EXP {
      ExpSelects(c0, c1, c2, c3, forceLines);
      if c1 == BASE { ExpBaseAgrees(c0, c1, c2, c3, forceLines); } else { ExpAgrees(c0, c1, c2, c3, forceLines); }
    } else if c0 == LPAR {
      LparSelects(c0, c1, c2, c3, forceLines);
      LparAgrees(c0, c1, c2, c3, forceLines);
    } else if c0 == QUESTION || c0 == UNOP || c0 == UNORBINOP || c0 == BINOP {
      OperatorSelects(c0, c1, c2, c3, forceLines);
      OperatorAgrees(c0, c1, c2, c3, forceLines);
    } else if c0 == CAST || c0 == SIZEOF_LIKE {
      CastSelects(c0, c1, c2, c3, forceLines);
      CastAgrees(c0, c1, c2, c3, forceLines);
    } else if c0 == INT_LIKE {
      IntLikeSelects(c0, c1, c2, c3, forceLines);
      IntLikeAgrees(c0, c1, c2, c3, forceLines);
    } else if c0 == DECL_HEAD {
      DeclHeadSelects(c0, c1, c2, c3, forceLines);
      DeclHeadAgrees(c0, c1, c2, c3, forceLines);
    } else if c0 == DECL || c0 == TYPEDEF_LIKE {
      DeclSelects(c0, c1, c2, c3, forceLines);
      DeclAgrees(c0, c1, c2, c3, forceLines);
    } else if c0 == STRUCT_LIKE {
      StructLikeSelects(c0, c1, c2, c3, forceLines);
      StructLikeAgrees(c0, c1, c2, c3, forceLines);
    } else if c0 == STRUCT_HEAD {
      StructHeadSelects(c0, c1, c2, c3, forceLines);
      StructHeadAgrees(c0, c1, c2, c3, forceLines);
    } else if c0 == FN_DECL || c0 == FUNCTION {
      FunctionSelects(c0, c1, c2, c3, forceLines);
      FunctionAgrees(c0, c1, c2, c3, forceLines);
    } else if c0 == LBRACE {
      LbraceSelects(c0, c1, c2, c3, forceLines);
      LbraceAgrees(c0, c1, c2, c3, forceLines);
    } else if c0 == IF_LIKE || c0 == FOR_LIKE {
      IfLikeSelects(c0, c1, c2, c3, forceLines);
      IfLikeAgrees(c0, c1, c2, c3, forceLines);
    } else if c0 == ELSE_LIKE || c0 == ELSE_HEAD {
      ElseLikeSelects(c0, c1, c2, c3, forceLines);
      ElseLikeAgrees(c0, c1, c2, c3, forceLines);
    } else if c0 == IF_CLAUSE {
      IfClauseSelects(c0, c1, c2, c3, forceLines);
      IfClauseAgrees(c0, c1, c2, c3, forceLines);
    } else if c0 == IF_HEAD {
      IfHeadSelects(c0, c1, c2, c3, forceLines);
      IfHeadAgrees(c0, c1, c2, c3, forceLines);
    } else if c0 == DO_LIKE {
      DoLikeSelects(c0, c1, c2, c3, forceLines);
      DoLikeAgrees(c0, c1, c2, c3, forceLines);
    } else if c0 == CASE_LIKE {
      CaseLikeSelects(c0, c1, c2, c3, forceLines);
      CaseLikeAgrees(c0, c1, c2, c3, forceLines);
    } else if c0 == TAG || c0 == SEMI {
      TagSelects(c0, c1, c2, c3, forceLines);
      TagAgrees(c0, c1, c2, c3, forceLines);
    } else if c0 == STMT {
      StmtSelects(c0, c1, c2, c3, forceLines);
      StmtAgrees(c0, c1, c2, c3, forceLines);
    } else if c0 == LPROC {
      LprocSelects(c0, c1, c2, c3, forceLines);
      LprocAgrees(c0, c1, c2, c3, forceLines);
    } else if c0 == SECTION_SCRAP || c0 == INSERT {
      InsertSelects(c0, c1, c2, c3, forceLines);
      InsertAgrees(c0, c1, c2, c3, forceLines);
    } else if c0 == PRELANGLE || c0 == PRERANGLE {
      AngleSelects(c0, c1, c2, c3, forceLines);
      AngleAgrees(c0, c1, c2, c3, forceLines);
    } else if c0 == LANGLE {
      LangleSelects(c0, c1, c2, c3, forceLines);
      LangleAgrees(c0, c1, c2, c3, forceLines);
    } else if c0 == PUBLIC_LIKE || c0 == COLCOL {
      PublicSelects(c0, c1, c2, c3, forceLines);
      PublicAgrees(c0, c1, c2, c3, forceLines);
    } else if c0 == NEW_LIKE {
      NewSelects(c0, c1, c2, c3, forceLines);
      NewAgrees(c0, c1, c2, c3, forceLines);
    } else if c0 == OPERATOR_LIKE {
      NameSelects(c0, c1, c2, c3, forceLines);
      NameAgrees(c0, c1, c2, c3, forceLines);
    } else if c0 == CATCH_LIKE || c0 == BASE {
      BaseSelects(c0, c1, c2, c3, forceLines);
      BaseAgrees(c0, c1, c2, c3, forceLines);
    } else if c0 == RAW_RPAR || c0 == RAW_UNORBIN {
      RawSelects(c0, c1, c2, c3, forceLines);
      RawAgrees(c0, c1, c2, c3, forceLines);
    } else if c0 == CONST_LIKE || c0 == RAW_INT {
      ConstSelects(c0, c1, c2, c3, forceLines);
      ConstAgrees(c0, c1, c2, c3, forceLines);
    }
  }

  // ---------- the whole table

  /** The row for insertions: the first of them goes into the scrap before it. */
  predicate Inserts(p: Production, c0: Category, c1: Category, c2: Category, c3: Category) {
    var at := if c1 == INSERT then 0 else if c2 == INSERT then 1 else 2;
    p.Squash? && p.n == 0 && p.at == at && p.k == 2 && p.cat == [c0, c1, c2][at]
  }

  /** The parser follows the documented table. An argument that ends, unless the scrap before
      it is about to change, and insertions come before everything else; then the first row
      that applies is selected, and none is selected only if none applies (or an operator
      waits for its other half). What is selected puts in place of the scraps what
      `Actual` makes of the row. */
  lemma TableIsBook(c0: Category, c1: Category, c2: Category, c3: Category, forceLines: bool)
    requires c0 != PADDING
    ensures var p := Match(c0, c1, c2, c3, forceLines);
            if c1 == END_ARG && c0 !in {SEMI, RAW_INT, RAW_UNORBIN, RAW_RPAR, CONST_LIKE} then
              !p.NoRule? && var row := BookRow(p.n, c0, c1, c2, c3, forceLines);
              p.n >= 110 && row.applies && Rewrites(p, row.left, row.right, [c0, c1, c2, c3]) && Shows(p, row.shown)
            else if c1 == INSERT || c2 == INSERT || c3 == INSERT then Inserts(p, c0, c1, c2, c3)
            else Selects(p, c0, c1, c2, c3, forceLines) && Agrees(p, c0, c1, c2, c3, forceLines)
  {
    Categories(c0, c1, c2, c3, forceLines);
  }

  lemma {:induction false} RunMarks(at: nat, k: nat)
    ensures |ScrapRun(at, k)| == k && forall i :: 0 <= i < k ==> ScrapRun(at, k)[i] == Take(at + i)
    decreases k
  {
    if k > 0 {
      RunMarks(at + 1, k - 1);
    }
  }

  /** What a production shows is what it builds. */
  lemma ShownIsBuilt(p: Production, shown: seq<nat>)
    requires !p.NoRule? && !Retags(p)
    ensures Shows(p, shown) <==> ShowsAll(Body(p), shown)
  {
    if p.Squash? {
      RunMarks(p.at, p.k);
      assert forall i :: 0 <= i < p.k ==> Body(p)[i] == Take(p.at + i);
    }
  }

  /** The rows with which the parser does not agree. */
  lemma WhereTheyDiffer(n: nat, c0: Category, c1: Category, c2: Category, c3: Category, forceLines: bool)
    requires 1 <= n <= 109 && BookRow(n, c0, c1, c2, c3, forceLines).applies
    ensures var row := BookRow(n, c0, c1, c2, c3, forceLines);
            Actual(n, row, c2) != row <==>
              n == 8 || n == 43 || n == 45 || n == 61 || n == 79 || n == 80 || n == 108 || (n == 26 && c2 == RAW_INT)
  {
    var row := BookRow(n, c0, c1, c2, c3, forceLines);
    if n == 26 && c2 == RAW_INT { assert row.right[1] == INT_LIKE; }
    if n == 61 { assert row.shown[6] == BREAK_SPACE; }
  }
}
