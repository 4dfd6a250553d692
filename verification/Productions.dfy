// The production table of CWEAVE's parser: which production applies to the four
// categories at the cursor, and the text it builds (cweb/cweave.c:2244-2931).
// One function per leading category, as the source has one section per category.

module Productions {
  import opened Category

  // Character and control codes that productions put into texts.
  const BLANK := 32
  const DOLLAR := 36
  const COMMA_CHAR := 44
  const FIVE := 53
  const NINE := 57
  const LESS_CHAR := 60
  const GREATER_CHAR := 62
  const BACKSLASH := 92
  const OPEN_BRACE := 123
  const CLOSE_BRACE := 125
  const NOOP := 127
  const MATH_REL := 134
  const BIG_CANCEL := 136
  const CANCEL := 137
  const INDENT := 138
  const OUTDENT := 139
  const OPT := 140
  const BACKUP := 141
  const BREAK_SPACE := 142
  const FORCE := 143
  const BIG_FORCE := 144
  const INSERTED := 148

  /** One step in building a text. Positions are relative to the cursor. */
  datatype Op =
    | Take(i: nat)    // big_app1(pp+i): the scrap's text, switching mode as it needs
    | Big(c: nat)     // big_app(c): a code that wants a particular mode
    | Raw(c: nat)     // app(c): a code that takes the mode as it is
    | Escaped(c: nat) // app('\\'); app(c): a one-character TeX control sequence
    | SetMath         // init_mathness = cur_mathness = yes_math

  /** `at` is the first scrap replaced (relative to the cursor), `k` how many are
      replaced, `cat` the new category, `d` the cursor move and `n` the rule number. */
  datatype Production =
    | NoRule
    | Squash(at: nat, k: nat, cat: Category, d: int, n: nat)
    | Reduce(at: nat, k: nat, cat: Category, d: int, n: nat, body: seq<Op>)

  /** The text operations of a production: a squash of several scraps appends them
      one after the other, a squash of one scrap builds no text at all. */
  function Body(p: Production): seq<Op> {
    match p
    case NoRule => []
    case Squash(at, k, _, _, _) => if k == 1 then [] else ScrapRun(at, k)
    case Reduce(_, _, _, _, _, body) => body
  }

  function ScrapRun(at: nat, k: nat): seq<Op>
    decreases k
  {
    if k == 0 then [] else [Take(at)] + ScrapRun(at + 1, k - 1)
  }

  predicate Retags(p: Production) {
    p.Squash? && p.k == 1
  }

  /** The scrap whose first identifier becomes a reserved word, 0 for none. */
  function ReservedAt(p: Production): nat {
    if !p.Reduce? then 0
    else if p.n == 42 then 2
    else if p.n == 45 || p.n == 46 then 1
    else 0
  }

  function Spaced(): seq<Op> { [Take(0), Big(BLANK), Take(1)] }
  function Forced(c: nat): seq<Op> { [Take(0), Big(c), Take(1)] }
  function Thin(): seq<Op> { [Take(0), Escaped(COMMA_CHAR), Take(1)] }
  function OptComma(): seq<Op> { [Take(0), Take(1), Raw(OPT), Raw(NINE), Take(2)] }

  predicate LhsNotSimple(c: Category) {
    c != SEMI && c != RAW_INT && c != RAW_UNORBIN && c != RAW_RPAR && c != CONST_LIKE
  }

  /** The production that applies with categories c0..c3 at the cursor. */
  function Match(c0: Category, c1: Category, c2: Category, c3: Category, forceLines: bool): Production {
    if c1 == END_ARG && LhsNotSimple(c0) then
      if c0 == BEGIN_ARG then Squash(0, 2, EXP, -2, 110) else Squash(0, 2, END_ARG, -1, 111)
    else if c1 == INSERT then Squash(0, 2, c0, -2, 0)
    else if c2 == INSERT then Squash(1, 2, c1, -1, 0)
    else if c3 == INSERT then Squash(2, 2, c2, 0, 0)
    else CategoryRules(c0, c1, c2, c3, forceLines)
  }

  function CategoryRules(c0: Category, c1: Category, c2: Category, c3: Category, forceLines: bool): Production {
    if c0 == EXP then ExpRules(c1, c2, c3)
    else if c0 == LPAR then LparRules(c1, c2)
    else if c0 == QUESTION then QuestionRules(c1, c2)
    else if c0 == UNOP then UnopRules(c1)
    else if c0 == UNORBINOP then UnorbinopRules(c1)
    else if c0 == BINOP then BinopRules(c1)
    else if c0 == CAST then CastRules(c1)
    else if c0 == SIZEOF_LIKE then SizeofLikeRules(c1)
    else if c0 == INT_LIKE then IntLikeRules(c1, c2)
    else if c0 == DECL_HEAD then DeclHeadRules(c1, c2, c3)
    else if c0 == DECL then DeclRules(c1)
    else if c0 == TYPEDEF_LIKE then TypedefLikeRules(c1, c2, c3)
    else if c0 == STRUCT_LIKE then StructLikeRules(c1, c2)
    else if c0 == STRUCT_HEAD then StructHeadRules(c1, c2)
    else if c0 == FN_DECL then FnDeclRules(c1)
    else if c0 == FUNCTION then FunctionRules(c1)
    else if c0 == LBRACE then LbraceRules(c1, c2, c3)
    else if c0 == DO_LIKE then DoLikeRules(c1, c2, c3)
    else if c0 == IF_LIKE then IfLikeRules(c1)
    else if c0 == FOR_LIKE then ForLikeRules(c1)
    else if c0 == ELSE_LIKE then ElseLikeRules(c1)
    else if c0 == IF_CLAUSE then IfClauseRules(c1, c2, c3)
    else if c0 == IF_HEAD then IfHeadRules(c1, c2, c3)
    else if c0 == ELSE_HEAD then ElseHeadRules(c1)
    else if c0 == CASE_LIKE then CaseLikeRules(c1, c2)
    else if c0 == STMT then StmtRules(c1, forceLines)
    else if c0 == TAG then TagRules(c1)
    else if c0 == SEMI then Reduce(0, 1, STMT, -1, 77, [Big(BLANK), Take(0)])
    else if c0 == LPROC then LprocRules(c1, c2, c3)
    else if c0 == SECTION_SCRAP then SectionScrapRules(c1)
    else if c0 == INSERT then InsertRules(c1)
    else if c0 == PRELANGLE then Reduce(0, 1, BINOP, -2, 84, [SetMath, Raw(LESS_CHAR)])
    else if c0 == PRERANGLE then Reduce(0, 1, BINOP, -2, 85, [SetMath, Raw(GREATER_CHAR)])
    else if c0 == LANGLE then LangleRules(c1, c2)
    else if c0 == PUBLIC_LIKE then PublicLikeRules(c1)
    else if c0 == COLCOL then ColcolRules(c1)
    else if c0 == NEW_LIKE then NewLikeRules(c1, c2)
    else if c0 == OPERATOR_LIKE then OperatorLikeRules(c1, c2)
    else if c0 == CATCH_LIKE then CatchLikeRules(c1)
    else if c0 == BASE then BaseRules(c1, c2, c3)
    else if c0 == RAW_RPAR then RawRparRules(c1, c2)
    else if c0 == RAW_UNORBIN then RawUnorbinRules(c1)
    else if c0 == CONST_LIKE then Squash(0, 1, INT_LIKE, -2, 107)
    else if c0 == RAW_INT then RawIntRules(c1)
    else NoRule
  }

  function ExpRules(c1: Category, c2: Category, c3: Category): Production {
    if c1 == LBRACE || c1 == INT_LIKE || c1 == DECL then
      Reduce(0, 1, FN_DECL, 0, 1, [Take(0), Big(INDENT), Raw(INDENT)])
    else if c1 == UNOP then Squash(0, 2, EXP, -2, 2)
    else if (c1 == BINOP || c1 == UNORBINOP) && c2 == EXP then Squash(0, 3, EXP, -2, 3)
    else if c1 == COMMA && c2 == EXP then Reduce(0, 3, EXP, -2, 4, OptComma())
    else if c1 == EXP || c1 == CAST then Squash(0, 2, EXP, -2, 5)
    else if c1 == SEMI then Squash(0, 2, STMT, -1, 6)
    else if c1 == COLON then Squash(0, 2, TAG, 0, 7)
    else if c1 == BASE then
      if c2 == INT_LIKE && c3 == COMMA then
        Reduce(1, 3, BASE, 0, 8, [Take(1), Big(BLANK), Take(2), Take(3), Raw(OPT), Raw(NINE)])
      else if c2 == INT_LIKE && c3 == LBRACE then
        Reduce(0, 3, EXP, -1, 9, [Take(0), Big(BLANK), Take(1), Big(BLANK), Take(2)])
      else NoRule
    else if c1 == RBRACE then Squash(0, 1, STMT, -1, 10)
    else NoRule
  }

  function LparRules(c1: Category, c2: Category): Production {
    if (c1 == EXP || c1 == UNORBINOP) && c2 == RPAR then Squash(0, 3, EXP, -2, 11)
    else if c1 == RPAR then Reduce(0, 2, EXP, -2, 12, Thin())
    else if c1 == DECL_HEAD || c1 == INT_LIKE || c1 == EXP then
      if c2 == RPAR then Squash(0, 3, CAST, -2, 13)
      else if c2 == COMMA then Reduce(0, 3, LPAR, 0, 14, [Take(0), Take(1), Take(2), Raw(OPT), Raw(NINE)])
      else NoRule
    else if c1 == STMT || c1 == DECL then
      Reduce(0, 2, LPAR, 0, 15, [Take(0), Take(1), Big(BLANK)])
    else NoRule
  }

  function QuestionRules(c1: Category, c2: Category): Production {
    if c1 == EXP && c2 == COLON then Squash(0, 3, BINOP, -2, 16) else NoRule
  }

  function UnopRules(c1: Category): Production {
    if c1 == EXP || c1 == INT_LIKE then Squash(0, 2, c1, -2, 17) else NoRule
  }

  function UnorbinopRules(c1: Category): Production {
    if c1 == EXP || c1 == INT_LIKE then
      Reduce(0, 2, c1, -2, 18, [Big(OPEN_BRACE), Take(0), Big(CLOSE_BRACE), Take(1)])
    else if c1 == BINOP then
      Reduce(0, 2, BINOP, -1, 19,
             [Big(MATH_REL), Take(0), Big(OPEN_BRACE), Take(1), Big(CLOSE_BRACE), Big(CLOSE_BRACE)])
    else NoRule
  }

  function BinopRules(c1: Category): Production {
    if c1 == BINOP then
      Reduce(0, 2, BINOP, -1, 20,
             [Big(MATH_REL), Big(OPEN_BRACE), Take(0), Big(CLOSE_BRACE),
              Big(OPEN_BRACE), Take(1), Big(CLOSE_BRACE), Big(CLOSE_BRACE)])
    else NoRule
  }

  function CastRules(c1: Category): Production {
    if c1 == EXP then Reduce(0, 2, EXP, -2, 21, Spaced())
    else if c1 == SEMI then Squash(0, 1, EXP, -2, 22)
    else NoRule
  }

  function SizeofLikeRules(c1: Category): Production {
    if c1 == CAST then Squash(0, 2, EXP, -2, 23)
    else if c1 == EXP then Reduce(0, 2, EXP, -2, 24, Spaced())
    else NoRule
  }

  function IntLikeRules(c1: Category, c2: Category): Production {
    if c1 == INT_LIKE || c1 == STRUCT_LIKE then Reduce(0, 2, c1, -2, 25, Spaced())
    else if c1 == EXP && (c2 == RAW_INT || c2 == STRUCT_LIKE) then Squash(0, 2, INT_LIKE, -2, 26)
    else if c1 == EXP || c1 == UNORBINOP || c1 == SEMI then
      Reduce(0, 1, DECL_HEAD, -1, 27, if c1 != SEMI then [Take(0), Big(BLANK)] else [Take(0)])
    else if c1 == COLON then Reduce(0, 1, DECL_HEAD, 0, 28, [Take(0), Big(BLANK)])
    else if c1 == PRELANGLE then Squash(1, 1, LANGLE, 1, 29)
    else if c1 == COLCOL && (c2 == EXP || c2 == INT_LIKE) then Squash(0, 3, c2, -2, 30)
    else if c1 == CAST then
      if c2 == LBRACE then Reduce(0, 2, FN_DECL, 1, 31, [Take(0), Take(1), Big(INDENT), Big(INDENT)])
      else Squash(0, 2, INT_LIKE, -2, 32)
    else NoRule
  }

  function DeclHeadRules(c1: Category, c2: Category, c3: Category): Production {
    if c1 == COMMA then Reduce(0, 2, DECL_HEAD, -1, 33, [Take(0), Take(1), Big(BLANK)])
    else if c1 == UNORBINOP then
      Reduce(0, 2, DECL_HEAD, -1, 34, [Take(0), Big(OPEN_BRACE), Take(1), Big(CLOSE_BRACE)])
    else if c1 == EXP && c2 != LPAR && c2 != EXP then Squash(0, 2, DECL_HEAD, -1, 35)
    else if (c1 == BINOP || c1 == COLON) && c2 == EXP && (c3 == COMMA || c3 == SEMI || c3 == RPAR) then
      Squash(0, 3, DECL_HEAD, -1, 36)
    else if c1 == CAST then Squash(0, 2, DECL_HEAD, -1, 37)
    else if c1 == LBRACE || (c1 == INT_LIKE && c2 != COLCOL) || c1 == DECL then
      Reduce(0, 1, FN_DECL, 0, 38, [Take(0), Big(INDENT), Raw(INDENT)])
    else if c1 == SEMI then Squash(0, 2, DECL, -1, 39)
    else NoRule
  }

  function DeclRules(c1: Category): Production {
    if c1 == DECL then Reduce(0, 2, DECL, -1, 40, Forced(FORCE))
    else if c1 == STMT || c1 == FUNCTION then Reduce(0, 2, c1, -1, 41, Forced(BIG_FORCE))
    else NoRule
  }

  function TypedefLikeRules(c1: Category, c2: Category, c3: Category): Production {
    if c1 == DECL_HEAD then
      if (c2 == EXP && c3 != LPAR && c3 != EXP) || c2 == INT_LIKE then
        Reduce(1, 2, DECL_HEAD, 0, 42, [Take(1), Take(2)])
      else if c2 == SEMI then
        Reduce(0, 3, DECL, -1, 43, [Take(0), Big(BLANK), Take(1), Take(2)])
      else NoRule
    else NoRule
  }

  function StructLikeRules(c1: Category, c2: Category): Production {
    if c1 == LBRACE then Reduce(0, 2, STRUCT_HEAD, 0, 44, Spaced())
    else if c1 == EXP || c1 == INT_LIKE then
      if c2 == LBRACE || c2 == SEMI then
        if c2 == SEMI then Reduce(0, 2, DECL_HEAD, 0, 45, Spaced())
        else Reduce(0, 3, STRUCT_HEAD, 0, 46, Spaced() + [Big(BLANK), Take(2)])
      else if c2 == COLON then Squash(2, 1, BASE, -1, 47)
      else if c2 != BASE then Reduce(0, 2, INT_LIKE, -2, 48, Spaced())
      else NoRule
    else NoRule
  }

  function StructHeadRules(c1: Category, c2: Category): Production {
    if (c1 == DECL || c1 == STMT || c1 == FUNCTION) && c2 == RBRACE then
      Reduce(0, 3, INT_LIKE, -2, 49,
             [Take(0), Big(INDENT), Big(FORCE), Take(1), Big(OUTDENT), Big(FORCE), Take(2)])
    else if c1 == RBRACE then Reduce(0, 2, INT_LIKE, -2, 50, Thin())
    else NoRule
  }

  function FnDeclRules(c1: Category): Production {
    if c1 == DECL then Reduce(0, 2, FN_DECL, 0, 51, Forced(FORCE))
    else if c1 == STMT then
      Reduce(0, 2, FUNCTION, -1, 52, [Take(0), Raw(OUTDENT), Raw(OUTDENT), Big(FORCE), Take(1)])
    else NoRule
  }

  function FunctionRules(c1: Category): Production {
    if c1 == FUNCTION || c1 == DECL || c1 == STMT then Reduce(0, 2, c1, -1, 53, Forced(BIG_FORCE))
    else NoRule
  }

  function LbraceRules(c1: Category, c2: Category, c3: Category): Production {
    if c1 == RBRACE then Reduce(0, 2, STMT, -1, 54, Thin())
    else if (c1 == STMT || c1 == DECL || c1 == FUNCTION) && c2 == RBRACE then
      Reduce(0, 3, STMT, -1, 55,
             [Big(FORCE), Take(0), Big(INDENT), Big(FORCE), Take(1), Big(FORCE), Big(BACKUP), Take(2),
              Big(OUTDENT), Big(FORCE)])
    else if c1 == EXP then
      if c2 == RBRACE then Squash(0, 3, EXP, -2, 56)
      else if c2 == COMMA && c3 == RBRACE then Squash(0, 4, EXP, -2, 56)
      else NoRule
    else NoRule
  }

  function DoLikeRules(c1: Category, c2: Category, c3: Category): Production {
    if c1 == STMT && c2 == ELSE_LIKE && c3 == SEMI then
      Reduce(0, 4, STMT, -1, 69,
             [Take(0), Big(BREAK_SPACE), Raw(NOOP), Big(CANCEL), Take(1), Big(CANCEL), Raw(NOOP),
              Big(BREAK_SPACE), Take(2), Take(3)])
    else NoRule
  }

  function IfLikeRules(c1: Category): Production {
    if c1 == EXP then Reduce(0, 2, IF_CLAUSE, 0, 57, Spaced()) else NoRule
  }

  function ForLikeRules(c1: Category): Production {
    if c1 == EXP then Reduce(0, 2, ELSE_LIKE, -2, 58, Spaced()) else NoRule
  }

  function ElseLikeRules(c1: Category): Production {
    if c1 == LBRACE then Squash(0, 1, ELSE_HEAD, 0, 59)
    else if c1 == STMT then
      Reduce(0, 2, STMT, -1, 60,
             [Big(FORCE), Take(0), Big(INDENT), Big(BREAK_SPACE), Take(1), Big(OUTDENT), Big(FORCE)])
    else NoRule
  }

  function IfClauseRules(c1: Category, c2: Category, c3: Category): Production {
    if c1 == LBRACE then Squash(0, 1, IF_HEAD, 0, 62)
    else if c1 == STMT then
      if c2 == ELSE_LIKE then
        var clause := [Big(FORCE), Take(0), Big(INDENT), Big(BREAK_SPACE), Take(1), Big(OUTDENT), Big(FORCE), Take(2)];
        if c3 == IF_LIKE then Reduce(0, 4, IF_LIKE, 0, 63, clause + [Big(BLANK), Take(3)])
        else Reduce(0, 3, ELSE_LIKE, 0, 64, clause)
      else Squash(0, 1, ELSE_LIKE, 0, 65)
    else NoRule
  }

  function IfHeadRules(c1: Category, c2: Category, c3: Category): Production {
    if c1 == STMT || c1 == EXP then
      if c2 == ELSE_LIKE then
        var clause := [Big(FORCE), Take(0), Big(BREAK_SPACE), Raw(NOOP), Big(CANCEL), Take(1), Big(FORCE), Take(2)];
        if c3 == IF_LIKE then Reduce(0, 4, IF_LIKE, 0, 66, clause + [Big(BLANK), Take(3)])
        else Reduce(0, 3, ELSE_LIKE, 0, 67, clause)
      else Squash(0, 1, ELSE_HEAD, 0, 68)
    else NoRule
  }

  function ElseHeadRules(c1: Category): Production {
    if c1 == STMT || c1 == EXP then
      Reduce(0, 2, STMT, -1, 61,
             [Big(FORCE), Take(0), Big(BREAK_SPACE), Raw(NOOP), Big(CANCEL), Take(1), Big(FORCE)])
    else NoRule
  }

  function CaseLikeRules(c1: Category, c2: Category): Production {
    if c1 == SEMI then Squash(0, 2, STMT, -1, 70)
    else if c1 == COLON then Squash(0, 2, TAG, -1, 71)
    else if c1 == EXP then
      if c2 == SEMI then Reduce(0, 3, STMT, -1, 72, Spaced() + [Take(2)])
      else if c2 == COLON then Reduce(0, 3, TAG, -1, 73, Spaced() + [Take(2)])
      else NoRule
    else NoRule
  }

  function StmtRules(c1: Category, forceLines: bool): Production {
    if c1 == STMT || c1 == DECL || c1 == FUNCTION then
      Reduce(0, 2, c1, -1, 76,
             Forced(if c1 == FUNCTION || c1 == DECL then BIG_FORCE else if forceLines then FORCE else BREAK_SPACE))
    else NoRule
  }

  function TagRules(c1: Category): Production {
    if c1 == TAG then Reduce(0, 2, TAG, -1, 74, Forced(BREAK_SPACE))
    else if c1 == STMT || c1 == DECL || c1 == FUNCTION then
      Reduce(0, 2, c1, -1, 75, [Big(FORCE), Big(BACKUP), Take(0), Big(BREAK_SPACE), Take(1)])
    else NoRule
  }

  function LprocRules(c1: Category, c2: Category, c3: Category): Production {
    if c1 == ELSE_LIKE || c1 == IF_LIKE || c1 == DEFINE_LIKE then Squash(0, 2, LPROC, 0, 78)
    else if c1 == RPROC then Reduce(0, 2, INSERT, -1, 79, [Raw(INSERTED), Take(0), Take(1)])
    else if c1 == EXP || c1 == FUNCTION then
      if c2 == RPROC then
        Reduce(0, 3, INSERT, -1, 80, [Raw(INSERTED), Take(0), Big(BLANK), Take(1), Take(2)])
      else if c2 == EXP && c3 == RPROC && c1 == EXP then
        Reduce(0, 4, INSERT, -1, 80,
               [Raw(INSERTED), Take(0), Big(BLANK), Take(1), Raw(BLANK), Escaped(FIVE), Take(2), Take(3)])
      else NoRule
    else NoRule
  }

  function SectionScrapRules(c1: Category): Production {
    if c1 == SEMI then Reduce(0, 2, STMT, -2, 81, [Take(0), Take(1), Big(FORCE)])
    else Squash(0, 1, EXP, -2, 82)
  }

  function InsertRules(c1: Category): Production {
    if c1 != PADDING then Squash(0, 2, c1, 0, 83) else NoRule
  }

  function LangleRules(c1: Category, c2: Category): Production {
    if c1 == EXP && c2 == PRERANGLE then Squash(0, 3, CAST, -1, 86)
    else if c1 == PRERANGLE then Reduce(0, 2, CAST, -1, 87, Thin())
    else if c1 == DECL_HEAD || c1 == INT_LIKE then
      if c2 == PRERANGLE then Squash(0, 3, CAST, -1, 88)
      else if c2 == COMMA then Reduce(0, 3, LANGLE, 0, 89, [Take(0), Take(1), Take(2), Raw(OPT), Raw(NINE)])
      else NoRule
    else NoRule
  }

  function PublicLikeRules(c1: Category): Production {
    if c1 == COLON then Squash(0, 2, TAG, -1, 90) else Squash(0, 1, INT_LIKE, -2, 91)
  }

  function ColcolRules(c1: Category): Production {
    if c1 == EXP || c1 == INT_LIKE then Squash(0, 2, c1, -2, 92) else NoRule
  }

  function NewLikeRules(c1: Category, c2: Category): Production {
    if c1 == EXP || (c1 == RAW_INT && c2 != PRELANGLE && c2 != LANGLE) then Reduce(0, 2, NEW_LIKE, 0, 93, Spaced())
    else if c1 == RAW_UNORBIN || c1 == COLCOL then Squash(0, 2, NEW_LIKE, 0, 94)
    else if c1 == CAST then Squash(0, 2, EXP, -2, 95)
    else if c1 != LPAR && c1 != RAW_INT && c1 != STRUCT_LIKE then Squash(0, 1, EXP, -2, 96)
    else NoRule
  }

  function OperatorLikeRules(c1: Category, c2: Category): Production {
    if c1 == BINOP || c1 == UNOP || c1 == UNORBINOP then
      if c2 == BINOP then NoRule
      else Reduce(0, 2, EXP, -2, 97, [Take(0), Big(OPEN_BRACE), Take(1), Big(CLOSE_BRACE)])
    else if c1 == NEW_LIKE || c1 == SIZEOF_LIKE then Reduce(0, 2, EXP, -2, 98, Spaced())
    else Squash(0, 1, NEW_LIKE, 0, 99)
  }

  function CatchLikeRules(c1: Category): Production {
    if c1 == CAST || c1 == EXP then Reduce(0, 2, FN_DECL, 0, 100, [Take(0), Take(1), Big(INDENT), Big(INDENT)])
    else NoRule
  }

  function BaseRules(c1: Category, c2: Category, c3: Category): Production {
    if c1 == PUBLIC_LIKE && c2 == EXP then
      if c3 == COMMA then Reduce(0, 4, BASE, 0, 101, [Take(0), Take(1), Big(BLANK), Take(2), Take(3)])
      else Reduce(1, 2, INT_LIKE, -1, 102, [Take(1), Big(BLANK), Take(2)])
    else NoRule
  }

  function RawRparRules(c1: Category, c2: Category): Production {
    if c1 == CONST_LIKE && (c2 == SEMI || c2 == LBRACE || c2 == COMMA || c2 == BINOP || c2 == CONST_LIKE) then
      Reduce(0, 2, RAW_RPAR, 0, 103, Spaced())
    else Squash(0, 1, RPAR, -3, 104)
  }

  function RawUnorbinRules(c1: Category): Production {
    if c1 == CONST_LIKE then Reduce(0, 2, RAW_UNORBIN, 0, 105, [Take(0), Take(1), Escaped(BLANK)])
    else Squash(0, 1, UNORBINOP, -2, 106)
  }

  function RawIntRules(c1: Category): Production {
    if c1 == LPAR then Squash(0, 1, EXP, -2, 108) else Squash(0, 1, INT_LIKE, -3, 109)
  }
}
