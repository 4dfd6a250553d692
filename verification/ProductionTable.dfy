// What every line of the production table has in common.

module ProductionTable {
  import opened Category
  import opened Productions

  /** Codes that TeX accepts both inside and outside math mode. */
  predicate Neutral(c: nat) {
    c == INDENT || c == OUTDENT || c == OPT || c == NINE || c == NOOP || c == INSERTED
  }

  /** Codes that TeX accepts only outside math mode; `strict` adds the blank, which
      is harmless but disappears inside. */
  predicate OutsideOnly(c: nat, strict: bool) {
    c == FORCE || c == BIG_FORCE || c == BREAK_SPACE || c == BACKUP || c == BIG_CANCEL || c == CANCEL
    || (strict && c == BLANK)
  }

  /** Codes that make sense only inside math mode. */
  predicate InsideOnly(c: nat) {
    c == MATH_REL || c == OPEN_BRACE || c == CLOSE_BRACE || c == LESS_CHAR || c == GREATER_CHAR
  }

  /** The mode that `big_app` switches to for c: outside math, or else inside. */
  predicate WantsText(c: nat) {
    c == BLANK || BIG_CANCEL <= c <= BIG_FORCE
  }

  predicate IsAngleCode(c: nat) { c == LESS_CHAR || c == GREATER_CHAR }

  /** Codes that `big_app` puts where TeX accepts them. */
  predicate WellPlaced(c: nat) {
    c != DOLLAR && c != BACKSLASH && !IsAngleCode(c) && (if WantsText(c) then !InsideOnly(c) else !OutsideOnly(c, true))
  }

  /** The operations of `body` from `j` on mention the scraps i, i+1, ..., hi-1 in
      this order, each once, and put no code that needs a particular mode past
      `big_app`; `blank` excuses blanks from that. */
  predicate InOrder(body: seq<Op>, j: nat, i: nat, hi: nat, blank: bool)
    requires j <= |body|
    decreases |body| - j
  {
    if j == |body| then i == hi
    else
      match body[j]
      case Take(x) => x == i && InOrder(body, j + 1, i + 1, hi, blank)
      case Big(c) => WellPlaced(c) && InOrder(body, j + 1, i, hi, blank)
      case Raw(c) => (Neutral(c) || (blank && c == BLANK)) && InOrder(body, j + 1, i, hi, blank)
      case Escaped(c) => !IsAngleCode(c) && InOrder(body, j + 1, i, hi, blank)
      case SetMath => false
  }

  // One step of the scan that InOrder makes; -1 is failure.
  function Scan(body: seq<Op>, j: nat, i: int, blank: bool): int {
    if j >= |body| || i < 0 then i
    else
      match body[j]
      case Take(x) => if x == i then i + 1 else -1
      case Big(c) => if WellPlaced(c) then i else -1
      case Raw(c) => if Neutral(c) || (blank && c == BLANK) then i else -1
      case Escaped(c) => if IsAngleCode(c) then -1 else i
      case SetMath => -1
  }

  function ScanFour(body: seq<Op>, j: nat, i: int, blank: bool): int {
    Scan(body, j + 3, Scan(body, j + 2, Scan(body, j + 1, Scan(body, j, i, blank), blank), blank), blank)
  }

  // The scan from `j` on leads to `hi`.
  predicate Leads(body: seq<Op>, j: nat, i: int, hi: nat, blank: bool) {
    i >= 0 && (if j <= |body| then InOrder(body, j, i, hi, blank) else i == hi)
  }

  lemma ScanFourLeads(body: seq<Op>, j: nat, i: int, hi: nat, blank: bool)
    requires Leads(body, j + 4, ScanFour(body, j, i, blank), hi, blank)
    ensures Leads(body, j, i, hi, blank)
  {
    var a := Scan(body, j, i, blank);
    var b := Scan(body, j + 1, a, blank);
    var c := Scan(body, j + 2, b, blank);
    assert Leads(body, j + 3, c, hi, blank);
    assert Leads(body, j + 2, b, hi, blank);
    assert Leads(body, j + 1, a, hi, blank);
  }

  function ScanAll(body: seq<Op>, i: int, blank: bool): int {
    ScanFour(body, 8, ScanFour(body, 4, ScanFour(body, 0, i, blank), blank), blank)
  }

  lemma ScanIsInOrder(body: seq<Op>, at: nat, hi: nat, blank: bool)
    requires |body| <= 12 && ScanAll(body, at, blank) == hi
    ensures InOrder(body, 0, at, hi, blank)
  {
    var four := ScanFour(body, 0, at, blank);
    var eight := ScanFour(body, 4, four, blank);
    ScanFourLeads(body, 8, eight, hi, blank);
    ScanFourLeads(body, 4, four, hi, blank);
    ScanFourLeads(body, 0, at, hi, blank);
  }

  /** Productions 84 and 85 put a fresh `<` or `>` in place of the text they replace. */
  predicate Rerenders(p: Production) {
    p.Reduce? && (p.n == 84 || p.n == 85)
  }

  /** The form of production 80 with two expressions puts a blank between them
      without switching modes. */
  predicate PairsExps(p: Production) {
    p.Reduce? && p.n == 80 && p.k == 4
  }

  function At(c0: Category, c1: Category, c2: Category, c3: Category, i: int): Category {
    if i <= 0 then c0 else if i == 1 then c1 else if i == 2 then c2 else c3
  }

  predicate IsAngle(c: Category) { c == PRELANGLE || c == PRERANGLE }

  predicate IsInsertion(c: Category) { c == INSERT || c == RPROC }

  /** What holds of every production that fires on the window c0, c1, c2, c3, apart
      from the order of its scraps. */
  predicate Bounded(c0: Category, c1: Category, c2: Category, c3: Category, p: Production) {
    && (p.NoRule? ==> !IsAngle(c0))
    && (!p.NoRule? ==>
          && 1 <= p.k && p.at + p.k <= 4 && p.cat != PADDING && p.d <= 1 && |Body(p)| <= 12
          // it replaces real scraps only
          && At(c0, c1, c2, c3, p.at + p.k - 1) != PADDING
          // replacing one scrap lowers its rank
          && (p.k == 1 ==> Rank(p.cat) < Rank(At(c0, c1, c2, c3, p.at)))
          && (ReservedAt(p) > 0 ==> p.k >= 2 && p.at <= ReservedAt(p) < p.at + p.k)
          && (Rerenders(p) ==> p.at == 0 && p.k == 1 && p.cat == BINOP && IsAngle(c0)
                               && Body(p) == [SetMath, Raw(if c0 == PRELANGLE then LESS_CHAR else GREATER_CHAR)])
          && (PairsExps(p) ==> c0 == LPROC && p.at == 0
                               && Body(p) == [Raw(INSERTED), Take(0), Big(BLANK), Take(1), Raw(BLANK), Escaped(FIVE), Take(2), Take(3)])
          && (p.cat == LPROC ==> c0 == LPROC || c1 == LPROC || c2 == LPROC)
          // where angle brackets and insertions come from
          && (IsAngle(c0) && !Rerenders(p) ==> p.k == 2)
          && (IsAngle(p.cat) ==> p.k == 2 && !p.Reduce? && p.cat == At(c0, c1, c2, c3, if p.n == 83 then 1 else p.at)
                                 && (if p.n == 83 then c0 == INSERT else At(c0, c1, c2, c3, p.at + 1) == INSERT))
          && (IsInsertion(p.cat) ==> IsInsertion(At(c0, c1, c2, c3, p.at + p.k - 1)))
          && (p.cat == INSERT ==> p.at == 0)
          && (p.d == 1 ==> !IsAngle(c0) && !IsAngle(p.cat)))
  }

  // ---------- what a production can cost

  /** Tokens written so far, and the mode they have led to. */
  datatype Tally = Tally(n: nat, mode: nat)

  // In a Tally: no mode asked for yet, and a mode that is not known.
  const FRESH := 0
  const UNKNOWN := 3

  /** The mode that `big_app` gets into for c. */
  function ModeOf(c: nat): nat { if WantsText(c) then 2 else 1 }

  /** The most that one operation can write, whatever the scraps: a scrap or a code may
      need three tokens more for a switch of modes, but not right at the start. */
  function PriceOne(body: seq<Op>, j: nat, w: Tally): Tally {
    if j >= |body| then w
    else
      match body[j]
      case Take(_) => Tally(w.n + (if w.mode == FRESH then 1 else 4), UNKNOWN)
      case Big(c) => Tally(w.n + (if w.mode == FRESH || w.mode == ModeOf(c) then 1 else 4), ModeOf(c))
      case Raw(_) => Tally(w.n + 1, w.mode)
      case Escaped(_) => Tally(w.n + 2, w.mode)
      case SetMath => Tally(w.n, UNKNOWN)
  }

  function PriceFour(body: seq<Op>, j: nat, w: Tally): Tally {
    PriceOne(body, j + 3, PriceOne(body, j + 2, PriceOne(body, j + 1, PriceOne(body, j, w))))
  }

  /** The most that a body of up to twelve operations can write. */
  function PriceAll(body: seq<Op>): Tally {
    PriceFour(body, 8, PriceFour(body, 4, PriceFour(body, 0, Tally(0, FRESH))))
  }

  /** The productions whose bodies have more than five operations. */
  predicate IsLong(p: Production) {
    p.Reduce? && (p.n == 8 || p.n == 19 || p.n == 20 || p.n == 49 || p.n == 60 || p.n == 61 || IsDear(p))
  }

  /** The productions that can write more than `safe_tok_incr` tokens. */
  predicate IsDear(p: Production) {
    p.Reduce? && (p.n == 55 || p.n == 63 || p.n == 64 || p.n == 66 || p.n == 67 || p.n == 69 || PairsExps(p))
  }

  function LongBody(n: nat): seq<Op> {
    if n == 8 then [Take(1), Big(BLANK), Take(2), Take(3), Raw(OPT), Raw(NINE)]
    else if n == 19 then [Big(MATH_REL), Take(0), Big(OPEN_BRACE), Take(1), Big(CLOSE_BRACE), Big(CLOSE_BRACE)]
    else if n == 20 then
      [Big(MATH_REL), Big(OPEN_BRACE), Take(0), Big(CLOSE_BRACE),
       Big(OPEN_BRACE), Take(1), Big(CLOSE_BRACE), Big(CLOSE_BRACE)]
    else if n == 49 then [Take(0), Big(INDENT), Big(FORCE), Take(1), Big(OUTDENT), Big(FORCE), Take(2)]
    else if n == 60 then [Big(FORCE), Take(0), Big(INDENT), Big(BREAK_SPACE), Take(1), Big(OUTDENT), Big(FORCE)]
    else if n == 61 then [Big(FORCE), Take(0), Big(BREAK_SPACE), Raw(NOOP), Big(CANCEL), Take(1), Big(FORCE)]
    else DearBody(n)
  }

  function DearBody(n: nat): seq<Op> {
    if n == 55 then
      [Big(FORCE), Take(0), Big(INDENT), Big(FORCE), Take(1), Big(FORCE), Big(BACKUP), Take(2), Big(OUTDENT), Big(FORCE)]
    else if n == 63 then
      [Big(FORCE), Take(0), Big(INDENT), Big(BREAK_SPACE), Take(1), Big(OUTDENT), Big(FORCE), Take(2), Big(BLANK), Take(3)]
    else if n == 64 then
      [Big(FORCE), Take(0), Big(INDENT), Big(BREAK_SPACE), Take(1), Big(OUTDENT), Big(FORCE), Take(2)]
    else if n == 66 then
      [Big(FORCE), Take(0), Big(BREAK_SPACE), Raw(NOOP), Big(CANCEL), Take(1), Big(FORCE), Take(2), Big(BLANK), Take(3)]
    else if n == 67 then
      [Big(FORCE), Take(0), Big(BREAK_SPACE), Raw(NOOP), Big(CANCEL), Take(1), Big(FORCE), Take(2)]
    else if n == 69 then
      [Take(0), Big(BREAK_SPACE), Raw(NOOP), Big(CANCEL), Take(1), Big(CANCEL), Raw(NOOP), Big(BREAK_SPACE), Take(2), Take(3)]
    else [Raw(INSERTED), Take(0), Big(BLANK), Take(1), Raw(BLANK), Escaped(FIVE), Take(2), Take(3)]
  }

  predicate Listed(p: Production) {
    if IsLong(p) then Body(p) == LongBody(p.n) && (IsDear(p) ==> p.at == 0) else |Body(p)| <= 5
  }

  predicate BuildsText(p: Production) {
    !p.NoRule? && !Rerenders(p) && !Retags(p)
  }

  /** A sound production builds a text that mentions the scraps it replaces once
      each, in order. */
  predicate Sound(c0: Category, c1: Category, c2: Category, c3: Category, p: Production) {
    Bounded(c0, c1, c2, c3, p) && (BuildsText(p) ==> InOrder(Body(p), 0, p.at, p.at + p.k, PairsExps(p)))
  }

  predicate Checked(c0: Category, c1: Category, c2: Category, c3: Category, p: Production) {
    && Bounded(c0, c1, c2, c3, p) && Listed(p)
    && (BuildsText(p) ==> |Body(p)| <= 12 && ScanAll(Body(p), p.at, PairsExps(p)) == p.at + p.k)
  }

  /** A production table: what fires on the four categories at the cursor. */
  type Rules = (Category, Category, Category, Category) -> Production

  ghost predicate SoundRules(rules: Rules) {
    forall c0: Category, c1: Category, c2: Category, c3: Category {:trigger Window(c0, c1, c2, c3)} ::
      Window(c0, c1, c2, c3) ==> Sound(c0, c1, c2, c3, rules(c0, c1, c2, c3))
  }

  ghost predicate ListedRules(rules: Rules) {
    forall c0: Category, c1: Category, c2: Category, c3: Category {:trigger Window(c0, c1, c2, c3)} ::
      Window(c0, c1, c2, c3) ==> Listed(rules(c0, c1, c2, c3))
  }

  /** Four categories as the parser sees them at its cursor. */
  predicate Window(c0: Category, c1: Category, c2: Category, c3: Category) {
    c0 != PADDING && Padded(c1, c2, c3)
  }

  function CweaveRules(forceLines: bool): Rules {
    (c0: Category, c1: Category, c2: Category, c3: Category) => Match(c0, c1, c2, c3, forceLines)
  }

  // The look-ahead window is padded at its end only.
  predicate Padded(c1: Category, c2: Category, c3: Category) {
    (c1 == PADDING ==> c2 == PADDING) && (c2 == PADDING ==> c3 == PADDING)
  }

  lemma ExpBaseSound(c0: Category, c1: Category, c2: Category, c3: Category)
    requires c0 == EXP && (c1 == BASE || c1 == COMMA || c1 == SEMI || c1 == COLON || c1 == RBRACE)
    requires Padded(c1, c2, c3)
    ensures Checked(c0, c1, c2, c3, ExpRules(c1, c2, c3))
  {
  }

  lemma ExpRulesSound(c0: Category, c1: Category, c2: Category, c3: Category)
    requires c0 == EXP && c1 != BASE && c1 != COMMA && c1 != SEMI && c1 != COLON && c1 != RBRACE
    requires Padded(c1, c2, c3)
    ensures Checked(c0, c1, c2, c3, ExpRules(c1, c2, c3))
  {
  }

  lemma LparRulesSound(c0: Category, c1: Category, c2: Category, c3: Category)
    requires c0 == LPAR
    requires Padded(c1, c2, c3)
    ensures Checked(c0, c1, c2, c3, LparRules(c1, c2))
  {
  }

  lemma QuestionRulesSound(c0: Category, c1: Category, c2: Category, c3: Category)
    requires c0 == QUESTION || c0 == UNOP
    requires Padded(c1, c2, c3)
    ensures Checked(c0, c1, c2, c3, if c0 == QUESTION then QuestionRules(c1, c2) else UnopRules(c1))
  {
  }

  lemma OperatorRulesSound(c0: Category, c1: Category, c2: Category, c3: Category)
    requires c0 == UNORBINOP || c0 == BINOP || c0 == CAST
    requires Padded(c1, c2, c3)
    ensures Checked(c0, c1, c2, c3, if c0 == UNORBINOP then UnorbinopRules(c1) else if c0 == BINOP then BinopRules(c1) else CastRules(c1))
  {
  }

  lemma PrefixRulesSound(c0: Category, c1: Category, c2: Category, c3: Category)
    requires c0 == SIZEOF_LIKE || c0 == COLCOL || c0 == CATCH_LIKE
    requires Padded(c1, c2, c3)
    ensures Checked(c0, c1, c2, c3, if c0 == SIZEOF_LIKE then SizeofLikeRules(c1) else if c0 == COLCOL then ColcolRules(c1) else CatchLikeRules(c1))
  {
  }

  lemma BaseRulesSound(c0: Category, c1: Category, c2: Category, c3: Category)
    requires c0 == BASE
    requires Padded(c1, c2, c3)
    ensures Checked(c0, c1, c2, c3, BaseRules(c1, c2, c3))
  {
  }

  lemma IntLikeRulesSound(c0: Category, c1: Category, c2: Category, c3: Category)
    requires c0 == INT_LIKE
    requires Padded(c1, c2, c3)
    ensures Checked(c0, c1, c2, c3, IntLikeRules(c1, c2))
  {
  }

  lemma DeclaratorRulesSound(c0: Category, c1: Category, c2: Category, c3: Category)
    requires c0 == DECL_HEAD
    requires Padded(c1, c2, c3)
    ensures Checked(c0, c1, c2, c3, DeclHeadRules(c1, c2, c3))
  {
  }

  lemma DeclarationRulesSound(c0: Category, c1: Category, c2: Category, c3: Category, forceLines: bool)
    requires c0 == DECL || c0 == TYPEDEF_LIKE
    requires Padded(c1, c2, c3)
    ensures Checked(c0, c1, c2, c3, CategoryRules(c0, c1, c2, c3, forceLines))
  {
  }

  lemma StructLikeRulesSound(c0: Category, c1: Category, c2: Category, c3: Category)
    requires c0 == STRUCT_LIKE
    requires Padded(c1, c2, c3)
    ensures Checked(c0, c1, c2, c3, StructLikeRules(c1, c2))
  {
  }

  lemma StructHeadRulesSound(c0: Category, c1: Category, c2: Category, c3: Category)
    requires c0 == STRUCT_HEAD
    requires Padded(c1, c2, c3)
    ensures Checked(c0, c1, c2, c3, StructHeadRules(c1, c2))
  {
  }

  lemma FunctionRulesSound(c0: Category, c1: Category, c2: Category, c3: Category, forceLines: bool)
    requires c0 == FN_DECL || c0 == FUNCTION
    requires Padded(c1, c2, c3)
    ensures Checked(c0, c1, c2, c3, CategoryRules(c0, c1, c2, c3, forceLines))
  {
  }

  lemma LbraceBlockSound(c0: Category, c1: Category, c2: Category, c3: Category, forceLines: bool)
    requires c0 == LBRACE && (c1 == STMT || c1 == DECL || c1 == FUNCTION)
    requires Padded(c1, c2, c3)
    ensures Checked(c0, c1, c2, c3, CategoryRules(c0, c1, c2, c3, forceLines))
  {
  }

  lemma LbraceListSound(c0: Category, c1: Category, c2: Category, c3: Category, forceLines: bool)
    requires c0 == LBRACE && c1 != STMT && c1 != DECL && c1 != FUNCTION
    requires Padded(c1, c2, c3)
    ensures Checked(c0, c1, c2, c3, CategoryRules(c0, c1, c2, c3, forceLines))
  {
  }

  lemma LoopRulesSound(c0: Category, c1: Category, c2: Category, c3: Category)
    requires c0 == DO_LIKE || c0 == FOR_LIKE || c0 == IF_LIKE
    requires Padded(c1, c2, c3)
    ensures Checked(c0, c1, c2, c3, if c0 == DO_LIKE then DoLikeRules(c1, c2, c3) else if c0 == FOR_LIKE then ForLikeRules(c1) else IfLikeRules(c1))
  {
  }

  lemma ElseRulesSound(c0: Category, c1: Category, c2: Category, c3: Category)
    requires c0 == ELSE_LIKE || c0 == ELSE_HEAD
    requires Padded(c1, c2, c3)
    ensures Checked(c0, c1, c2, c3, if c0 == ELSE_LIKE then ElseLikeRules(c1) else ElseHeadRules(c1))
  {
  }

  lemma IfClauseRulesSound(c0: Category, c1: Category, c2: Category, c3: Category)
    requires c0 == IF_CLAUSE
    requires Padded(c1, c2, c3)
    ensures Checked(c0, c1, c2, c3, IfClauseRules(c1, c2, c3))
  {
  }

  lemma IfHeadRulesSound(c0: Category, c1: Category, c2: Category, c3: Category)
    requires c0 == IF_HEAD
    requires Padded(c1, c2, c3)
    ensures Checked(c0, c1, c2, c3, IfHeadRules(c1, c2, c3))
  {
  }

  lemma CaseRulesSound(c0: Category, c1: Category, c2: Category, c3: Category, forceLines: bool)
    requires c0 == CASE_LIKE || c0 == SEMI
    requires Padded(c1, c2, c3)
    ensures Checked(c0, c1, c2, c3, CategoryRules(c0, c1, c2, c3, forceLines))
  {
  }

  lemma StatementRulesSound(c0: Category, c1: Category, c2: Category, c3: Category, forceLines: bool)
    requires c0 == STMT || c0 == TAG
    requires Padded(c1, c2, c3)
    ensures Checked(c0, c1, c2, c3, if c0 == STMT then StmtRules(c1, forceLines) else TagRules(c1))
  {
  }

  lemma LprocRulesSound(c0: Category, c1: Category, c2: Category, c3: Category)
    requires c0 == LPROC
    requires Padded(c1, c2, c3)
    ensures Checked(c0, c1, c2, c3, LprocRules(c1, c2, c3))
  {
  }

  lemma SectionRulesSound(c0: Category, c1: Category, c2: Category, c3: Category)
    requires c0 == SECTION_SCRAP || c0 == INSERT
    requires Padded(c1, c2, c3)
    ensures Checked(c0, c1, c2, c3, if c0 == SECTION_SCRAP then SectionScrapRules(c1) else InsertRules(c1))
  {
  }

  lemma AngleRulesSound(c0: Category, c1: Category, c2: Category, c3: Category, forceLines: bool)
    requires c0 == PRELANGLE || c0 == PRERANGLE || c0 == LANGLE || c0 == PUBLIC_LIKE
    requires Padded(c1, c2, c3)
    ensures Checked(c0, c1, c2, c3, CategoryRules(c0, c1, c2, c3, forceLines))
  {
  }

  lemma NewRulesSound(c0: Category, c1: Category, c2: Category, c3: Category)
    requires c0 == NEW_LIKE || c0 == OPERATOR_LIKE
    requires Padded(c1, c2, c3)
    ensures Checked(c0, c1, c2, c3, if c0 == NEW_LIKE then NewLikeRules(c1, c2) else OperatorLikeRules(c1, c2))
  {
  }

  lemma RawRulesSound(c0: Category, c1: Category, c2: Category, c3: Category, forceLines: bool)
    requires c0 == RAW_RPAR || c0 == RAW_UNORBIN || c0 == CONST_LIKE || c0 == RAW_INT
    requires Padded(c1, c2, c3)
    ensures Checked(c0, c1, c2, c3, CategoryRules(c0, c1, c2, c3, forceLines))
  {
  }

  lemma RulesSound(c0: Category, c1: Category, c2: Category, c3: Category, forceLines: bool)
    requires Padded(c1, c2, c3)
    ensures Checked(c0, c1, c2, c3, CategoryRules(c0, c1, c2, c3, forceLines))
  {
    if c0 == EXP && (c1 == BASE || c1 == COMMA || c1 == SEMI || c1 == COLON || c1 == RBRACE) { ExpBaseSound(c0, c1, c2, c3); }
    else if c0 == EXP { ExpRulesSound(c0, c1, c2, c3); }
    else if c0 == LPAR { LparRulesSound(c0, c1, c2, c3); }
    else if c0 == QUESTION || c0 == UNOP { QuestionRulesSound(c0, c1, c2, c3); }
    else if c0 == UNORBINOP || c0 == BINOP || c0 == CAST { OperatorRulesSound(c0, c1, c2, c3); }
    else if c0 == SIZEOF_LIKE || c0 == COLCOL || c0 == CATCH_LIKE { PrefixRulesSound(c0, c1, c2, c3); }
    else if c0 == BASE { BaseRulesSound(c0, c1, c2, c3); }
    else if c0 == INT_LIKE { IntLikeRulesSound(c0, c1, c2, c3); }
    else if c0 == DECL_HEAD { DeclaratorRulesSound(c0, c1, c2, c3); }
    else if c0 == DECL || c0 == TYPEDEF_LIKE { DeclarationRulesSound(c0, c1, c2, c3, forceLines); }
    else if c0 == STRUCT_LIKE { StructLikeRulesSound(c0, c1, c2, c3); }
    else if c0 == STRUCT_HEAD { StructHeadRulesSound(c0, c1, c2, c3); }
    else if c0 == FN_DECL || c0 == FUNCTION { FunctionRulesSound(c0, c1, c2, c3, forceLines); }
    else if c0 == LBRACE && (c1 == STMT || c1 == DECL || c1 == FUNCTION) { LbraceBlockSound(c0, c1, c2, c3, forceLines); }
    else if c0 == LBRACE { LbraceListSound(c0, c1, c2, c3, forceLines); }
    else if c0 == DO_LIKE || c0 == FOR_LIKE || c0 == IF_LIKE { LoopRulesSound(c0, c1, c2, c3); }
    else if c0 == ELSE_LIKE || c0 == ELSE_HEAD { ElseRulesSound(c0, c1, c2, c3); }
    else if c0 == IF_CLAUSE { IfClauseRulesSound(c0, c1, c2, c3); }
    else if c0 == IF_HEAD { IfHeadRulesSound(c0, c1, c2, c3); }
    else if c0 == CASE_LIKE || c0 == SEMI { CaseRulesSound(c0, c1, c2, c3, forceLines); }
    else if c0 == STMT || c0 == TAG { StatementRulesSound(c0, c1, c2, c3, forceLines); }
    else if c0 == LPROC { LprocRulesSound(c0, c1, c2, c3); }
    else if c0 == SECTION_SCRAP || c0 == INSERT { SectionRulesSound(c0, c1, c2, c3); }
    else if c0 == PRELANGLE || c0 == PRERANGLE || c0 == LANGLE || c0 == PUBLIC_LIKE { AngleRulesSound(c0, c1, c2, c3, forceLines); }
    else if c0 == NEW_LIKE || c0 == OPERATOR_LIKE { NewRulesSound(c0, c1, c2, c3); }
    else if c0 == RAW_RPAR || c0 == RAW_UNORBIN || c0 == CONST_LIKE || c0 == RAW_INT { RawRulesSound(c0, c1, c2, c3, forceLines); }
  }

  /** No production of CWEAVE's table loses, repeats or reorders the scraps it
      replaces (84 and 85 apart), touches padding, or rewrites one scrap to an equal
      or higher rank. */
  lemma TableSound(forceLines: bool)
    ensures SoundRules(CweaveRules(forceLines))
  {
    forall c0: Category, c1: Category, c2: Category, c3: Category | Window(c0, c1, c2, c3)
      ensures Sound(c0, c1, c2, c3, CweaveRules(forceLines)(c0, c1, c2, c3))
    {
      MatchChecked(c0, c1, c2, c3, forceLines);
      CheckedIsSound(c0, c1, c2, c3, Match(c0, c1, c2, c3, forceLines));
    }
  }

  lemma MatchChecked(c0: Category, c1: Category, c2: Category, c3: Category, forceLines: bool)
    requires c0 != PADDING && Padded(c1, c2, c3)
    ensures Checked(c0, c1, c2, c3, Match(c0, c1, c2, c3, forceLines))
  {
    var p := Match(c0, c1, c2, c3, forceLines);
    if (c1 == END_ARG && LhsNotSimple(c0)) || c1 == INSERT || c2 == INSERT || c3 == INSERT {
      assert ScrapRun(p.at, 2) == [Take(p.at), Take(p.at + 1)];
    } else {
      RulesSound(c0, c1, c2, c3, forceLines);
    }
  }

  /** In CWEAVE's table the productions with long bodies are the listed ones. */
  lemma TableListed(forceLines: bool)
    ensures ListedRules(CweaveRules(forceLines))
  {
    forall c0: Category, c1: Category, c2: Category, c3: Category | Window(c0, c1, c2, c3)
      ensures Listed(CweaveRules(forceLines)(c0, c1, c2, c3))
    {
      MatchChecked(c0, c1, c2, c3, forceLines);
    }
  }

  lemma CheckedIsSound(c0: Category, c1: Category, c2: Category, c3: Category, p: Production)
    requires Checked(c0, c1, c2, c3, p)
    ensures Sound(c0, c1, c2, c3, p)
  {
    if BuildsText(p) {
      ScanIsInOrder(Body(p), p.at, p.at + p.k, PairsExps(p));
    }
  }
}
