/** Properties of the grammar functions: parsing inverts a token rendering of the trees the
    grammar builds, and the quirks of the operator levels and of error recovery. */
module ParseProps {
  import opened Tokens
  import opened Wrappers
  import Ast
  import opened ParseSpec

  /** The tokens `s` lie in `toks` from position `c`. */
  ghost predicate At(toks: seq<Token>, c: nat, s: seq<Token>)
  {
    c + |s| <= |toks| && forall i :: 0 <= i < |s| ==> toks[c + i] == s[i]
  }

  lemma AtIndex(toks: seq<Token>, c: nat, s: seq<Token>, i: nat)
    requires At(toks, c, s) && i < |s|
    ensures toks[c + i] == s[i]
  {
  }

  lemma AtSplit(toks: seq<Token>, c: nat, a: seq<Token>, b: seq<Token>)
    requires At(toks, c, a + b)
    ensures At(toks, c, a) && At(toks, c + |a|, b)
  {
    forall i | 0 <= i < |a|
      ensures toks[c + i] == a[i]
    {
      assert (a + b)[i] == a[i];
    }
    forall i | 0 <= i < |b|
      ensures toks[c + |a| + i] == b[i]
    {
      assert toks[c + (|a| + i)] == (a + b)[|a| + i];
    }
  }

  lemma AtSplitOf(toks: seq<Token>, c: nat, w: seq<Token>, a: seq<Token>, b: seq<Token>)
    requires w == a + b && At(toks, c, w)
    ensures At(toks, c, a) && At(toks, c + |a|, b) && |w| == |a| + |b|
  {
    AtSplit(toks, c, a, b);
  }

  /** A sequence lies where it sits in a concatenation. */
  lemma AtMiddle(pre: seq<Token>, s: seq<Token>, post: seq<Token>)
    ensures At(pre + s + post, |pre|, s)
  {
    forall i | 0 <= i < |s|
      ensures (pre + s + post)[|pre| + i] == s[i]
    {
    }
  }

  const LeftParen := Token(LEFT_PAREN, "(", NoLiteral, 0)
  const RightParen := Token(RIGHT_PAREN, ")", NoLiteral, 0)
  const Semi := Token(SEMICOLON, ";", NoLiteral, 0)
  const EqualSign := Token(EQUAL, "=", NoLiteral, 0)
  const VarKeyword := Token(VAR, "var", StrLit("var"), 0)
  const PrintKeyword := Token(PRINT, "print", StrLit("print"), 0)
  const EndOfFile := Token(EOF, "", NoLiteral, 0)

  /** The token a literal is read from. */
  function LiteralToken(lit: Ast.LitValue): Token
  {
    match lit
    case LBool(b) => if b then Token(TRUE, "true", StrLit("true"), 0) else Token(FALSE, "false", StrLit("false"), 0)
    case LNull => Token(NULL, "null", StrLit("null"), 0)
    case LStr(s) => Token(STRING, s, StrLit(s), 0)
    case LNum(n) => Token(NUMBER, IntText(n), NoLiteral, 0)
  }

  predicate BinaryOp(k: TokenKind)
  {
    EqualityOp(k) || ComparisonOp(k) || TermOp(k) || FactorOp(k)
  }

  /** A token after which no operator level goes on. */
  predicate Closer(k: TokenKind)
  {
    !BinaryOp(k)
  }

  /** An expression `unary` reads whole whatever follows it: a literal, a name, a group or a
      prefix operator applied to one of these. */
  predicate Tight(e: Ast.Expr)
    decreases e, 0
  {
    match e
    case Literal(lit) => !lit.LNum?
    case Variable(t) => t.kind == IDENTIFIER
    case Grouping(x) => Canonical(x)
    case Unary(op, x) => UnaryOp(op.kind) && Tight(x)
    case _ => false
  }

  /** A tight expression, or one binary operator between two tight operands. */
  predicate Canonical(e: Ast.Expr)
    decreases e, 1
  {
    Tight(e) || (e.Binary? && BinaryOp(e.op.kind) && Tight(e.left) && Tight(e.right))
  }

  /** The tokens of an expression, with parentheses only where a Grouping node is. */
  function Emit(e: Ast.Expr): seq<Token>
  {
    match e
    case Literal(lit) => [LiteralToken(lit)]
    case Variable(t) => [t]
    case Grouping(x) => [LeftParen] + Emit(x) + [RightParen]
    case Unary(op, x) => [op] + Emit(x)
    case Binary(l, op, r) => Emit(l) + [op] + Emit(r)
    case _ => []
  }

  /** A canonical expression starts with a token that opens no statement form. */
  lemma {:induction false} EmitStart(e: Ast.Expr)
    requires Canonical(e)
    ensures |Emit(e)| > 0 && Emit(e)[0].kind !in {EOF, PRINT, VAR}
    decreases e
  {
    match e
    case Binary(l, op, r) =>
      EmitStart(l);
      assert Emit(e)[0] == Emit(l)[0];
    case Grouping(x) =>
    case Unary(op, x) =>
    case Literal(lit) =>
    case Variable(t) =>
  }

  /** `unary` reads a tight expression from its tokens and stops right after them. */
  lemma {:induction false} TightParses(e: Ast.Expr, toks: seq<Token>, c: nat)
    requires Terminated(toks) && Tight(e) && At(toks, c, Emit(e)) && c + |Emit(e)| < |toks|
    ensures Unary(toks, c) == POk(e, c + |Emit(e)|)
    decreases e, 1
  {
    match e
    case Literal(lit) =>
      AtIndex(toks, c, Emit(e), 0);
    case Variable(t) =>
      AtIndex(toks, c, Emit(e), 0);
    case Grouping(x) =>
      GroupingParses(e, toks, c);
    case Unary(op, x) =>
      AtSplit(toks, c, [op], Emit(x));
      AtIndex(toks, c, [op], 0);
      TightParses(x, toks, c + 1);
  }

  /** `primary` reads a parenthesised canonical expression from its tokens. */
  lemma {:induction false} GroupingParses(e: Ast.Expr, toks: seq<Token>, c: nat)
    requires Terminated(toks) && e.Grouping? && Canonical(e.inner)
    requires At(toks, c, Emit(e)) && c + |Emit(e)| < |toks|
    ensures Primary(toks, c) == POk(e, c + |Emit(e)|)
    decreases e, 0
  {
    var x := e.inner;
    AtSplit(toks, c, [LeftParen] + Emit(x), [RightParen]);
    AtSplit(toks, c, [LeftParen], Emit(x));
    AtIndex(toks, c, [LeftParen], 0);
    AtIndex(toks, c + 1 + |Emit(x)|, [RightParen], 0);
    CanonicalParses(x, toks, c + 1);
    GroupFromInner(toks, c + 1, x, c + 1 + |Emit(x)|);
    PrimaryOfParen(toks, c);
  }

  /** A group closes after its expression when a right parenthesis follows it. */
  lemma {:induction false} GroupFromInner(toks: seq<Token>, c: nat, x: Ast.Expr, n: nat)
    requires Terminated(toks) && 0 < c < n < |toks| && toks[n] == RightParen
    requires Expression(toks, c) == POk(x, n)
    ensures Group(toks, c) == POk(Ast.Grouping(x), n + 1)
  {
  }

  /** A left parenthesis makes `primary` read a group. */
  lemma {:induction false} PrimaryOfParen(toks: seq<Token>, c: nat)
    requires Terminated(toks) && c + 1 < |toks| && toks[c] == LeftParen
    ensures Primary(toks, c) == Group(toks, c + 1)
  {
  }

  /** `factor` hands up what `unary` read when no SLASH or STAR follows. */
  lemma {:induction false} UnaryToFactor(toks: seq<Token>, c: nat, e: Ast.Expr, n: nat)
    requires Terminated(toks) && c < n < |toks| && !FactorOp(toks[n].kind) && Unary(toks, c) == POk(e, n)
    ensures Factor(toks, c) == POk(e, n)
  {
  }

  /** `term` hands up what `factor` read when no MINUS or PLUS follows. */
  lemma {:induction false} FactorToTerm(toks: seq<Token>, c: nat, e: Ast.Expr, n: nat)
    requires Terminated(toks) && c < n < |toks| && !TermOp(toks[n].kind) && Factor(toks, c) == POk(e, n)
    ensures Term(toks, c) == POk(e, n)
  {
    assert TermTail(toks, e, n) == POk(e, n);
  }

  /** `comparison` hands up what `term` read when no comparison operator follows. */
  lemma {:induction false} TermToComparison(toks: seq<Token>, c: nat, e: Ast.Expr, n: nat)
    requires Terminated(toks) && c < n < |toks| && !ComparisonOp(toks[n].kind) && Term(toks, c) == POk(e, n)
    ensures Comparison(toks, c) == POk(e, n)
  {
  }

  /** `expression` reads a canonical expression from its tokens when a closer follows them. */
  lemma {:induction false} CanonicalParses(e: Ast.Expr, toks: seq<Token>, c: nat)
    requires Terminated(toks) && Canonical(e) && At(toks, c, Emit(e)) && c + |Emit(e)| < |toks|
    requires Closer(toks[c + |Emit(e)|].kind)
    ensures Expression(toks, c) == POk(e, c + |Emit(e)|)
    decreases e, 2
  {
    if Tight(e) {
      TightParses(e, toks, c);
      UnaryToFactor(toks, c, e, c + |Emit(e)|);
      ClosedAboveFactor(toks, c, e, c + |Emit(e)|);
    } else {
      BinaryCanonicalParses(e, toks, c);
    }
  }

  lemma {:induction false} BinaryCanonicalParses(e: Ast.Expr, toks: seq<Token>, c: nat)
    requires Terminated(toks) && e.Binary? && BinaryOp(e.op.kind) && Tight(e.left) && Tight(e.right)
    requires At(toks, c, Emit(e)) && c + |Emit(e)| < |toks| && Closer(toks[c + |Emit(e)|].kind)
    ensures Expression(toks, c) == POk(e, c + |Emit(e)|)
    decreases e, 1
  {
    var n1, n2 := OperandsRead(e, toks, c);
    BinaryFromOperands(e.left, e.op, e.right, toks, c, n1, n2);
  }

  /** `unary` reads each operand of a canonical binary expression from its tokens. */
  lemma {:induction false} OperandsRead(e: Ast.Expr, toks: seq<Token>, c: nat) returns (n1: nat, n2: nat)
    requires Terminated(toks) && e.Binary? && BinaryOp(e.op.kind) && Tight(e.left) && Tight(e.right)
    requires At(toks, c, Emit(e)) && c + |Emit(e)| < |toks|
    ensures c < n1 < n2 == c + |Emit(e)| && toks[n1] == e.op
    ensures Unary(toks, c) == POk(e.left, n1) && Unary(toks, n1 + 1) == POk(e.right, n2)
    decreases e, 0
  {
    var l, op, r := e.left, e.op, e.right;
    assert Emit(e) == Emit(l) + [op] + Emit(r);
    AtSplit(toks, c, Emit(l) + [op], Emit(r));
    AtSplit(toks, c, Emit(l), [op]);
    n1 := c + |Emit(l)|;
    n2 := n1 + 1 + |Emit(r)|;
    AtIndex(toks, n1, [op], 0);
    TightParses(l, toks, c);
    TightParses(r, toks, n1 + 1);
  }

  /** A binary expression is read whole once `unary` reads each operand and the operator
      between them, whatever the operator's level, when a closer follows. */
  lemma {:induction false} BinaryFromOperands(l: Ast.Expr, op: Token, r: Ast.Expr, toks: seq<Token>, c: nat, n1: nat, n2: nat)
    requires Terminated(toks) && c < n1 < n2 < |toks| && toks[n1] == op && BinaryOp(op.kind)
    requires Closer(toks[n2].kind) && Unary(toks, c) == POk(l, n1) && Unary(toks, n1 + 1) == POk(r, n2)
    ensures Expression(toks, c) == POk(Ast.Binary(l, op, r), n2)
  {
    if FactorOp(op.kind) {
      FactorBinary(l, op, r, toks, c, n1, n2);
    } else {
      UnaryToFactor(toks, c, l, n1);
      UnaryToFactor(toks, n1 + 1, r, n2);
      BinaryFromFactors(l, op, r, toks, c, n1, n2);
    }
  }

  /** The same once `factor` has read each operand. */
  lemma {:induction false} BinaryFromFactors(l: Ast.Expr, op: Token, r: Ast.Expr, toks: seq<Token>, c: nat, n1: nat, n2: nat)
    requires Terminated(toks) && c < n1 < n2 < |toks| && toks[n1] == op && BinaryOp(op.kind) && !FactorOp(op.kind)
    requires Closer(toks[n2].kind) && Factor(toks, c) == POk(l, n1) && Factor(toks, n1 + 1) == POk(r, n2)
    ensures Expression(toks, c) == POk(Ast.Binary(l, op, r), n2)
  {
    if TermOp(op.kind) {
      TermBinary(l, op, r, toks, c, n1, n2);
    } else {
      FactorToTerm(toks, c, l, n1);
      FactorToTerm(toks, n1 + 1, r, n2);
      BinaryFromTerms(l, op, r, toks, c, n1, n2);
    }
  }

  /** The same once `term` has read each operand. */
  lemma {:induction false} BinaryFromTerms(l: Ast.Expr, op: Token, r: Ast.Expr, toks: seq<Token>, c: nat, n1: nat, n2: nat)
    requires Terminated(toks) && c < n1 < n2 < |toks| && toks[n1] == op && (ComparisonOp(op.kind) || EqualityOp(op.kind))
    requires Closer(toks[n2].kind) && Term(toks, c) == POk(l, n1) && Term(toks, n1 + 1) == POk(r, n2)
    ensures Expression(toks, c) == POk(Ast.Binary(l, op, r), n2)
  {
    if ComparisonOp(op.kind) {
      ComparisonBinary(l, op, r, toks, c, n1, n2);
    } else {
      TermToComparison(toks, c, l, n1);
      TermToComparison(toks, n1 + 1, r, n2);
      EqualityBinary(l, op, r, toks, c, n1, n2);
    }
  }

  /** `l * r` and `l / r`: read by `factor`, then handed up by the levels above. */
  lemma {:induction false} FactorBinary(l: Ast.Expr, op: Token, r: Ast.Expr, toks: seq<Token>, c: nat, n1: nat, n2: nat)
    requires Terminated(toks) && c < n1 < n2 < |toks| && toks[n1] == op && FactorOp(op.kind)
    requires Closer(toks[n2].kind) && Unary(toks, c) == POk(l, n1) && Unary(toks, n1 + 1) == POk(r, n2)
    ensures Expression(toks, c) == POk(Ast.Binary(l, op, r), n2)
  {
    var e := Ast.Binary(l, op, r);
    assert toks[n1].kind != EOF && FactorOp(toks[n1].kind);
    assert Factor(toks, c) == POk(e, n2);
    ClosedAboveFactor(toks, c, e, n2);
  }

  /** Once `factor` has read `e` and a closer follows, every level above returns `e`. */
  lemma {:induction false} ClosedAboveFactor(toks: seq<Token>, c: nat, e: Ast.Expr, n: nat)
    requires Terminated(toks) && c < n < |toks| && Closer(toks[n].kind) && Factor(toks, c) == POk(e, n)
    ensures Expression(toks, c) == POk(e, n)
  {
    FactorToTerm(toks, c, e, n);
    ClosedAboveTerm(toks, c, e, n);
  }

  /** Once `term` has read `e` and a closer follows, every level above returns `e`. */
  lemma {:induction false} ClosedAboveTerm(toks: seq<Token>, c: nat, e: Ast.Expr, n: nat)
    requires Terminated(toks) && c < n < |toks| && Closer(toks[n].kind) && Term(toks, c) == POk(e, n)
    ensures Expression(toks, c) == POk(e, n)
  {
    TermToComparison(toks, c, e, n);
    ClosedAboveComparison(toks, c, e, n);
  }

  /** Once `comparison` has read `e` and a closer follows, `expression` returns `e`. */
  lemma {:induction false} ClosedAboveComparison(toks: seq<Token>, c: nat, e: Ast.Expr, n: nat)
    requires Terminated(toks) && c < n < |toks| && Closer(toks[n].kind) && Comparison(toks, c) == POk(e, n)
    ensures Expression(toks, c) == POk(e, n)
  {
    assert EqualityTail(toks, e, n) == POk(e, n);
    assert Equality(toks, c) == POk(e, n);
  }

  /** `l + r` and `l - r`: `factor` stops before the operator and the loop of `term` takes it. */
  lemma {:induction false} TermBinary(l: Ast.Expr, op: Token, r: Ast.Expr, toks: seq<Token>, c: nat, n1: nat, n2: nat)
    requires Terminated(toks) && c < n1 < n2 < |toks| && toks[n1] == op && TermOp(op.kind)
    requires Closer(toks[n2].kind) && Factor(toks, c) == POk(l, n1) && Factor(toks, n1 + 1) == POk(r, n2)
    ensures Expression(toks, c) == POk(Ast.Binary(l, op, r), n2)
  {
    var e := Ast.Binary(l, op, r);
    assert TermTail(toks, e, n2) == POk(e, n2);
    assert TermTail(toks, l, n1) == POk(e, n2);
    assert Term(toks, c) == POk(e, n2);
    ClosedAboveTerm(toks, c, e, n2);
  }

  /** `l < r` and the other comparisons: read once by `comparison`. */
  lemma {:induction false} ComparisonBinary(l: Ast.Expr, op: Token, r: Ast.Expr, toks: seq<Token>, c: nat, n1: nat, n2: nat)
    requires Terminated(toks) && c < n1 < n2 < |toks| && toks[n1] == op && ComparisonOp(op.kind)
    requires Closer(toks[n2].kind) && Term(toks, c) == POk(l, n1) && Term(toks, n1 + 1) == POk(r, n2)
    ensures Expression(toks, c) == POk(Ast.Binary(l, op, r), n2)
  {
    var e := Ast.Binary(l, op, r);
    assert Comparison(toks, c) == POk(e, n2);
    ClosedAboveComparison(toks, c, e, n2);
  }

  /** `l = r` and `l != r`: taken by the loop of `equality`. */
  lemma {:induction false} EqualityBinary(l: Ast.Expr, op: Token, r: Ast.Expr, toks: seq<Token>, c: nat, n1: nat, n2: nat)
    requires Terminated(toks) && c < n1 < n2 < |toks| && toks[n1] == op && EqualityOp(op.kind)
    requires Closer(toks[n2].kind) && Comparison(toks, c) == POk(l, n1) && Comparison(toks, n1 + 1) == POk(r, n2)
    ensures Expression(toks, c) == POk(Ast.Binary(l, op, r), n2)
  {
    var e := Ast.Binary(l, op, r);
    assert EqualityTail(toks, e, n2) == POk(e, n2);
    assert EqualityTail(toks, l, n1) == POk(e, n2);
    assert Equality(toks, c) == POk(e, n2);
  }

  /** The tokens of a statement the declaration rules build. */
  function EmitStmt(s: Ast.Stmt): seq<Token>
  {
    match s
    case Print(e) => [PrintKeyword] + Emit(e) + [Semi]
    case Expression(e) => Emit(e) + [Semi]
    case Var(name, init) => [VarKeyword, name] + (if init.Some? then [EqualSign] + Emit(init.value) else []) + [Semi]
    case _ => []
  }

  predicate CanonicalStmt(s: Ast.Stmt)
  {
    match s
    case Print(e) => Canonical(e)
    case Expression(e) => Canonical(e)
    case Var(name, init) => name.kind == IDENTIFIER && (init.None? || Canonical(init.value))
    case _ => false
  }

  lemma {:induction false} PrintParses(e: Ast.Expr, toks: seq<Token>, c: nat)
    requires Terminated(toks) && Canonical(e)
    requires At(toks, c, EmitStmt(Ast.Print(e))) && c + |EmitStmt(Ast.Print(e))| < |toks|
    ensures Declaration(toks, c) == POk(Ast.Print(e), c + |EmitStmt(Ast.Print(e))|) && toks[c].kind != EOF
  {
    var n := PrintPartsRead(e, toks, c);
    StatementFromParts(toks, c, c + 1, e, n, Ast.Print(e));
  }

  lemma {:induction false} PrintPartsRead(e: Ast.Expr, toks: seq<Token>, c: nat) returns (n: nat)
    requires Terminated(toks) && Canonical(e)
    requires At(toks, c, EmitStmt(Ast.Print(e))) && c + |EmitStmt(Ast.Print(e))| < |toks|
    ensures c < n && n + 1 == c + |EmitStmt(Ast.Print(e))| && toks[c].kind == PRINT && toks[n].kind == SEMICOLON
    ensures Expression(toks, c + 1) == POk(e, n)
  {
    assert EmitStmt(Ast.Print(e)) == [PrintKeyword] + Emit(e) + [Semi];
    n := PrintHeadRead(Emit(e), toks, c);
    CanonicalParses(e, toks, c + 1);
  }

  /** The tokens `print <middle> ;` hold the keyword, then the middle, then the semicolon. */
  lemma {:induction false} PrintHeadRead(middle: seq<Token>, toks: seq<Token>, c: nat) returns (n: nat)
    requires At(toks, c, [PrintKeyword] + middle + [Semi])
    ensures n == c + 1 + |middle| && n < |toks| && At(toks, c + 1, middle)
    ensures toks[c].kind == PRINT && toks[n].kind == SEMICOLON
  {
    AtSplit(toks, c, [PrintKeyword] + middle, [Semi]);
    AtSplit(toks, c, [PrintKeyword], middle);
    AtIndex(toks, c, [PrintKeyword], 0);
    n := c + 1 + |middle|;
    AtIndex(toks, n, [Semi], 0);
  }

  /** A print or expression statement is read whole once `expression` reads its expression
      and a semicolon follows. */
  lemma {:induction false} StatementFromParts(toks: seq<Token>, c: nat, start: nat, e: Ast.Expr, n: nat, s: Ast.Stmt)
    requires Terminated(toks) && c <= start < n < |toks| && toks[n].kind == SEMICOLON
    requires Expression(toks, start) == POk(e, n)
    requires (s == Ast.Print(e) && start == c + 1 && toks[c].kind == PRINT)
      || (s == Ast.Expression(e) && start == c && toks[c].kind !in {EOF, PRINT, VAR})
    ensures Declaration(toks, c) == POk(s, n + 1)
  {
    if s.Print? {
      assert PrintStatement(toks, c + 1) == POk(s, n + 1);
    } else {
      assert ExpressionStatement(toks, c) == POk(s, n + 1);
    }
  }

  lemma {:induction false} ExpressionStatementParses(e: Ast.Expr, toks: seq<Token>, c: nat)
    requires Terminated(toks) && Canonical(e)
    requires At(toks, c, EmitStmt(Ast.Expression(e))) && c + |EmitStmt(Ast.Expression(e))| < |toks|
    ensures Declaration(toks, c) == POk(Ast.Expression(e), c + |EmitStmt(Ast.Expression(e))|) && toks[c].kind != EOF
  {
    var n := ExpressionPartsRead(e, toks, c);
    StatementFromParts(toks, c, c, e, n, Ast.Expression(e));
  }

  lemma {:induction false} ExpressionPartsRead(e: Ast.Expr, toks: seq<Token>, c: nat) returns (n: nat)
    requires Terminated(toks) && Canonical(e)
    requires At(toks, c, EmitStmt(Ast.Expression(e))) && c + |EmitStmt(Ast.Expression(e))| < |toks|
    ensures c < n && n + 1 == c + |EmitStmt(Ast.Expression(e))| && toks[c].kind !in {EOF, PRINT, VAR}
    ensures toks[n].kind == SEMICOLON && Expression(toks, c) == POk(e, n)
  {
    AtSplit(toks, c, Emit(e), [Semi]);
    EmitStart(e);
    AtIndex(toks, c, Emit(e), 0);
    n := c + |Emit(e)|;
    AtIndex(toks, n, [Semi], 0);
    CanonicalParses(e, toks, c);
  }

  lemma {:induction false} VarParses(name: Token, init: Option<Ast.Expr>, toks: seq<Token>, c: nat)
    requires Terminated(toks) && CanonicalStmt(Ast.Var(name, init))
    requires At(toks, c, EmitStmt(Ast.Var(name, init))) && c + |EmitStmt(Ast.Var(name, init))| < |toks|
    ensures Declaration(toks, c) == POk(Ast.Var(name, init), c + |EmitStmt(Ast.Var(name, init))|)
    ensures toks[c].kind != EOF
  {
    var n := VarPartsRead(name, init, toks, c);
    if init.Some? {
      assert VarDeclaration(toks, c + 1) == POk(Ast.Var(name, init), n + 1);
    } else {
      assert VarDeclaration(toks, c + 1) == POk(Ast.Var(name, init), n + 1);
    }
  }

  lemma {:induction false} VarPartsRead(name: Token, init: Option<Ast.Expr>, toks: seq<Token>, c: nat) returns (n: nat)
    requires Terminated(toks) && CanonicalStmt(Ast.Var(name, init))
    requires At(toks, c, EmitStmt(Ast.Var(name, init))) && c + |EmitStmt(Ast.Var(name, init))| < |toks|
    ensures c + 2 <= n && n + 1 == c + |EmitStmt(Ast.Var(name, init))|
    ensures toks[c].kind == VAR && toks[c + 1] == name && name.kind == IDENTIFIER && toks[n].kind == SEMICOLON
    ensures init.None? ==> n == c + 2
    ensures init.Some? ==> toks[c + 2].kind == EQUAL && Expression(toks, c + 3) == POk(init.value, n)
  {
    if init.None? {
      assert EmitStmt(Ast.Var(name, init)) == [VarKeyword, name] + [Semi];
      n := VarHeadRead(name, [], toks, c);
    } else {
      n := VarInitRead(name, init.value, toks, c);
    }
  }

  /** `var name =` and the initialiser's tokens. */
  lemma {:induction false} VarInitRead(name: Token, x: Ast.Expr, toks: seq<Token>, c: nat) returns (n: nat)
    requires Terminated(toks) && name.kind == IDENTIFIER && Canonical(x)
    requires At(toks, c, EmitStmt(Ast.Var(name, Some(x)))) && c + |EmitStmt(Ast.Var(name, Some(x)))| < |toks|
    ensures c + 2 <= n && n + 1 == c + |EmitStmt(Ast.Var(name, Some(x)))|
    ensures toks[c].kind == VAR && toks[c + 1] == name && toks[n].kind == SEMICOLON
    ensures toks[c + 2].kind == EQUAL && Expression(toks, c + 3) == POk(x, n)
  {
    var middle := [EqualSign] + Emit(x);
    assert EmitStmt(Ast.Var(name, Some(x))) == [VarKeyword, name] + middle + [Semi];
    n := VarHeadRead(name, middle, toks, c);
    AtSplit(toks, c + 2, [EqualSign], Emit(x));
    AtIndex(toks, c + 2, [EqualSign], 0);
    CanonicalParses(x, toks, c + 3);
  }

  /** `var name`, the tokens in the middle and the semicolon. */
  lemma {:induction false} VarHeadRead(name: Token, middle: seq<Token>, toks: seq<Token>, c: nat) returns (n: nat)
    requires At(toks, c, [VarKeyword, name] + middle + [Semi])
    ensures n == c + 2 + |middle| && n < |toks| && At(toks, c + 2, middle)
    ensures toks[c].kind == VAR && toks[c + 1] == name && toks[n].kind == SEMICOLON
  {
    AtSplit(toks, c, [VarKeyword, name] + middle, [Semi]);
    AtSplit(toks, c, [VarKeyword, name], middle);
    AtIndex(toks, c, [VarKeyword, name], 0);
    AtIndex(toks, c, [VarKeyword, name], 1);
    n := c + 2 + |middle|;
    AtIndex(toks, n, [Semi], 0);
  }

  /** `declaration` reads a canonical statement from its tokens. */
  lemma {:induction false} StatementParses(s: Ast.Stmt, toks: seq<Token>, c: nat)
    requires Terminated(toks) && CanonicalStmt(s) && At(toks, c, EmitStmt(s)) && c + |EmitStmt(s)| < |toks|
    ensures Declaration(toks, c) == POk(s, c + |EmitStmt(s)|) && toks[c].kind != EOF
  {
    match s
    case Print(e) =>
      PrintParses(e, toks, c);
    case Expression(e) =>
      ExpressionStatementParses(e, toks, c);
    case Var(name, init) =>
      VarParses(name, init, toks, c);
  }

  /** The same, as one step of the loop of `parse`. */
  lemma {:induction false} StatementStep(s: Ast.Stmt, toks: seq<Token>, c: nat, n: nat)
    requires Terminated(toks) && CanonicalStmt(s) && At(toks, c, EmitStmt(s)) && n == c + |EmitStmt(s)| < |toks|
    ensures DeclarationStep(toks, c) == DeclOutcome(Some(s), [], Some(n)) && toks[c].kind != EOF
  {
    StatementParses(s, toks, c);
  }

  /** The tokens of a program: its statements' tokens one after another. */
  function EmitProgram(ss: seq<Ast.Stmt>): seq<Token>
    decreases |ss|
  {
    if ss == [] then [] else EmitStmt(ss[0]) + EmitProgram(ss[1..])
  }

  /** The statement list of a parse in which no declaration failed. */
  function Present(ss: seq<Ast.Stmt>): (r: seq<Option<Ast.Stmt>>)
  {
    seq(|ss|, i requires 0 <= i < |ss| => Some(ss[i]))
  }

  lemma {:induction false} ProgramParses(ss: seq<Ast.Stmt>, toks: seq<Token>, c: nat)
    requires Terminated(toks) && forall i :: 0 <= i < |ss| ==> CanonicalStmt(ss[i])
    requires At(toks, c, EmitProgram(ss)) && c + |EmitProgram(ss)| < |toks|
    requires toks[c + |EmitProgram(ss)|].kind == EOF
    ensures ParseFrom(toks, c) == ParseResult(Some(Present(ss)), [])
    decreases |ss|
  {
    if ss == [] {
      EmptyProgramParses(toks, c);
    } else {
      var n := ProgramHead(ss, toks, c);
      TailCanonical(ss);
      ProgramParses(ss[1..], toks, n);
      ParseStepOk(toks, c, ss, n);
    }
  }

  lemma {:induction false} EmptyProgramParses(toks: seq<Token>, c: nat)
    requires Terminated(toks) && c < |toks| && toks[c + |EmitProgram([])|].kind == EOF
    ensures ParseFrom(toks, c) == ParseResult(Some(Present([])), [])
  {
    assert |EmitProgram([])| == 0;
    assert Present([]) == [];
  }

  /** A declaration read without error precedes what the rest of the loop of `parse` reads. */
  lemma {:induction false} ParseStepOk(toks: seq<Token>, c: nat, ss: seq<Ast.Stmt>, n: nat)
    requires Terminated(toks) && c < n < |toks| && toks[c].kind != EOF && ss != []
    requires DeclarationStep(toks, c) == DeclOutcome(Some(ss[0]), [], Some(n))
    requires ParseFrom(toks, n) == ParseResult(Some(Present(ss[1..])), [])
    ensures ParseFrom(toks, c) == ParseResult(Some(Present(ss)), [])
  {
    var none: seq<Diagnostic> := [];
    assert none + none == none;
    assert Present(ss) == [Some(ss[0])] + Present(ss[1..]);
  }

  lemma {:induction false} TailCanonical(ss: seq<Ast.Stmt>)
    requires ss != [] && forall i :: 0 <= i < |ss| ==> CanonicalStmt(ss[i])
    ensures forall i :: 0 <= i < |ss[1..]| ==> CanonicalStmt(ss[1..][i])
  {
    assert forall i :: 0 <= i < |ss[1..]| ==> ss[1..][i] == ss[i + 1];
  }

  /** The first statement of a program is read by the first `declaration`. */
  lemma {:induction false} ProgramHead(ss: seq<Ast.Stmt>, toks: seq<Token>, c: nat) returns (n: nat)
    requires Terminated(toks) && ss != [] && CanonicalStmt(ss[0])
    requires At(toks, c, EmitProgram(ss)) && c + |EmitProgram(ss)| < |toks|
    ensures toks[c].kind != EOF && DeclarationStep(toks, c) == DeclOutcome(Some(ss[0]), [], Some(n))
    ensures At(toks, n, EmitProgram(ss[1..])) && n + |EmitProgram(ss[1..])| == c + |EmitProgram(ss)|
  {
    n := ProgramSplit(ss, toks, c);
    StatementStep(ss[0], toks, c, n);
  }

  /** The tokens of a program split into those of its first statement and the rest. */
  lemma {:induction false} ProgramSplit(ss: seq<Ast.Stmt>, toks: seq<Token>, c: nat) returns (n: nat)
    requires ss != [] && At(toks, c, EmitProgram(ss))
    ensures n == c + |EmitStmt(ss[0])| && At(toks, c, EmitStmt(ss[0])) && At(toks, n, EmitProgram(ss[1..]))
    ensures |EmitProgram(ss)| == |EmitStmt(ss[0])| + |EmitProgram(ss[1..])|
  {
    n := c + |EmitStmt(ss[0])|;
    EmitProgramCons(ss);
    AtSplitOf(toks, c, EmitProgram(ss), EmitStmt(ss[0]), EmitProgram(ss[1..]));
  }

  lemma EmitProgramCons(ss: seq<Ast.Stmt>)
    requires ss != []
    ensures EmitProgram(ss) == EmitStmt(ss[0]) + EmitProgram(ss[1..])
  {
  }

  /** Parsing inverts the token rendering: the tokens of canonical statements, closed by EOF,
      parse back to those statements, in order, with no error reported. */
  lemma {:induction false} ParseInvertsEmit(ss: seq<Ast.Stmt>)
    requires forall i :: 0 <= i < |ss| ==> CanonicalStmt(ss[i])
    ensures Terminated(EmitProgram(ss) + [EndOfFile])
    ensures Parse(EmitProgram(ss) + [EndOfFile]) == ParseResult(Some(Present(ss)), [])
  {
    var toks := EmitProgram(ss) + [EndOfFile];
    AtMiddle([], EmitProgram(ss), [EndOfFile]);
    assert [] + EmitProgram(ss) + [EndOfFile] == toks;
    ProgramParses(ss, toks, 0);
  }
}
