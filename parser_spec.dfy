/** Recursive descent as functions of the token array and a cursor: what each grammar rule of
    the parser returns and where it leaves the cursor, or the token position and message of the
    error it throws. */
module ParseSpec {
  import opened Tokens
  import opened Wrappers
  import opened Ast

  /** A token array the parser can walk: it ends with EOF, as every finished scan does. */
  predicate Terminated(toks: seq<Token>)
  {
    |toks| > 0 && toks[|toks| - 1].kind == EOF
  }

  /** The outcome of a rule: its value and the cursor after it, or a thrown parse error with the
      cursor (the position of the token `peek` reports) and the message. */
  datatype PResult<T> = POk(value: T, next: nat) | PFail(at: nat, message: string)
  {
    /** Where the cursor is once the rule returns or throws. */
    function Pos(): nat
    {
      if POk? then next else at
    }
  }

  /** `match(kind)` and `check(kind)`: never at EOF, otherwise a comparison of kinds. */
  predicate Sees(toks: seq<Token>, c: nat, k: TokenKind)
    requires c < |toks|
  {
    toks[c].kind != EOF && toks[c].kind == k
  }

  /** The operators each level of the grammar takes. */
  predicate EqualityOp(k: TokenKind) { k == EQUAL || k == NOT_EQUAL }
  predicate ComparisonOp(k: TokenKind) { k == LESS || k == GREATER || k == GREATER_EQUAL || k == LESS_EQUAL }
  predicate TermOp(k: TokenKind) { k == MINUS || k == PLUS }
  predicate FactorOp(k: TokenKind) { k == SLASH || k == STAR }
  predicate UnaryOp(k: TokenKind) { k == NOT || k == MINUS }

  /** A rule's outcome keeps the cursor within the array and never moves it back; a value
      always consumes at least one token. */
  predicate Advances<T>(toks: seq<Token>, c: nat, r: PResult<T>)
  {
    if r.POk? then c < r.next < |toks| else c <= r.at < |toks|
  }

  /** The forms the expression rules build: binary, grouping, unary, variable and literal nodes,
      where no literal is a number (a NUMBER token becomes the text of its lexeme). */
  predicate GrammarForm(e: Expr)
  {
    match e
    case Binary(l, _, r) => GrammarForm(l) && GrammarForm(r)
    case Grouping(x) => GrammarForm(x)
    case Unary(_, x) => GrammarForm(x)
    case Variable(_) => true
    case Literal(lit) => !lit.LNum?
    case _ => false
  }

  /** The statements the declaration rules build. */
  predicate StatementForm(s: Stmt)
  {
    match s
    case Print(e) => GrammarForm(e)
    case Expression(e) => GrammarForm(e)
    case Var(_, init) => init.None? || GrammarForm(init.value)
    case _ => false
  }

  const GroupingMessage := "Expected \")\" after grouping expression"
  const ExpressionMessage := "Expect expression."
  const SemicolonMessage := "Semicolon after expression are required"
  const NameMessage := "Expected variable name"

  function Expression(toks: seq<Token>, c: nat): (r: PResult<Expr>)
    requires Terminated(toks) && c < |toks|
    ensures Advances(toks, c, r)
    ensures r.POk? ==> GrammarForm(r.value)
    decreases |toks| - c, 6
  {
    Equality(toks, c)
  }

  /** `equality`: a left-associative chain over EQUAL and NOT_EQUAL (not EQUAL_EQUAL). */
  function Equality(toks: seq<Token>, c: nat): (r: PResult<Expr>)
    requires Terminated(toks) && c < |toks|
    ensures Advances(toks, c, r)
    ensures r.POk? ==> GrammarForm(r.value)
    decreases |toks| - c, 5
  {
    match Comparison(toks, c)
    case PFail(at, m) => PFail(at, m)
    case POk(left, n) => EqualityTail(toks, left, n)
  }

  /** The loop of `equality` with the tree built so far. */
  function EqualityTail(toks: seq<Token>, left: Expr, c: nat): (r: PResult<Expr>)
    requires Terminated(toks) && c < |toks|
    ensures if r.POk? then c <= r.next < |toks| else c <= r.at < |toks|
    ensures r.POk? && GrammarForm(left) ==> GrammarForm(r.value)
    decreases |toks| - c, 5
  {
    if toks[c].kind != EOF && EqualityOp(toks[c].kind) then
      match Comparison(toks, c + 1)
      case PFail(at, m) => PFail(at, m)
      case POk(right, n) => EqualityTail(toks, Binary(left, toks[c], right), n)
    else POk(left, c)
  }

  /** `comparison`: at most one comparison operator, since the source returns inside its loop. */
  function Comparison(toks: seq<Token>, c: nat): (r: PResult<Expr>)
    requires Terminated(toks) && c < |toks|
    ensures Advances(toks, c, r)
    ensures r.POk? ==> GrammarForm(r.value)
    decreases |toks| - c, 4
  {
    match Term(toks, c)
    case PFail(at, m) => PFail(at, m)
    case POk(left, n) => ComparisonRest(toks, left, n)
  }

  /** The one pass through the loop of `comparison`, after the left operand. */
  function ComparisonRest(toks: seq<Token>, left: Expr, c: nat): (r: PResult<Expr>)
    requires Terminated(toks) && c < |toks|
    ensures if r.POk? then c <= r.next < |toks| else c <= r.at < |toks|
    ensures r.POk? && GrammarForm(left) ==> GrammarForm(r.value)
    decreases |toks| - c, 4
  {
    if toks[c].kind != EOF && ComparisonOp(toks[c].kind) then
      match Term(toks, c + 1)
      case PFail(at, m) => PFail(at, m)
      case POk(right, n) => POk(Binary(left, toks[c], right), n)
    else POk(left, c)
  }

  /** `term`: a left-associative chain over MINUS and PLUS. */
  function Term(toks: seq<Token>, c: nat): (r: PResult<Expr>)
    requires Terminated(toks) && c < |toks|
    ensures Advances(toks, c, r)
    ensures r.POk? ==> GrammarForm(r.value)
    decreases |toks| - c, 3
  {
    match Factor(toks, c)
    case PFail(at, m) => PFail(at, m)
    case POk(left, n) => TermTail(toks, left, n)
  }

  function TermTail(toks: seq<Token>, left: Expr, c: nat): (r: PResult<Expr>)
    requires Terminated(toks) && c < |toks|
    ensures if r.POk? then c <= r.next < |toks| else c <= r.at < |toks|
    ensures r.POk? && GrammarForm(left) ==> GrammarForm(r.value)
    decreases |toks| - c, 3
  {
    if toks[c].kind != EOF && TermOp(toks[c].kind) then
      match Factor(toks, c + 1)
      case PFail(at, m) => PFail(at, m)
      case POk(right, n) => TermTail(toks, Binary(left, toks[c], right), n)
    else POk(left, c)
  }

  /** `factor`: at most one SLASH or STAR, since the source uses `if`. */
  function Factor(toks: seq<Token>, c: nat): (r: PResult<Expr>)
    requires Terminated(toks) && c < |toks|
    ensures Advances(toks, c, r)
    ensures r.POk? ==> GrammarForm(r.value)
    decreases |toks| - c, 2
  {
    match Unary(toks, c)
    case PFail(at, m) => PFail(at, m)
    case POk(left, n) => FactorRest(toks, left, n)
  }

  /** The `if` of `factor`, after the left operand. */
  function FactorRest(toks: seq<Token>, left: Expr, c: nat): (r: PResult<Expr>)
    requires Terminated(toks) && c < |toks|
    ensures if r.POk? then c <= r.next < |toks| else c <= r.at < |toks|
    ensures r.POk? && GrammarForm(left) ==> GrammarForm(r.value)
    decreases |toks| - c, 2
  {
    if toks[c].kind != EOF && FactorOp(toks[c].kind) then
      match Unary(toks, c + 1)
      case PFail(at, m) => PFail(at, m)
      case POk(right, n) => POk(Binary(left, toks[c], right), n)
    else POk(left, c)
  }

  /** `unary`: prefix `!` and `-` nest to the right around the next unary. */
  function Unary(toks: seq<Token>, c: nat): (r: PResult<Expr>)
    requires Terminated(toks) && c < |toks|
    ensures Advances(toks, c, r)
    ensures r.POk? ==> GrammarForm(r.value)
    decreases |toks| - c, 1
  {
    if toks[c].kind != EOF && UnaryOp(toks[c].kind) then
      match Unary(toks, c + 1)
      case PFail(at, m) => PFail(at, m)
      case POk(operand, n) => POk(Ast.Unary(toks[c], operand), n)
    else Primary(toks, c)
  }

  /** The one-token forms of `primary`: literals and names. NUMBER and STRING literals hold the
      token's lexeme, not its decoded literal. */
  function Atom(t: Token): Option<Expr>
  {
    match t.kind
    case FALSE => Some(Literal(LBool(false)))
    case TRUE => Some(Literal(LBool(true)))
    case NULL => Some(Literal(LNull))
    case IDENTIFIER => Some(Variable(t))
    case NUMBER => Some(Literal(LStr(t.lexeme)))
    case STRING => Some(Literal(LStr(t.lexeme)))
    case _ => None
  }

  /** `primary`: a one-token form, a parenthesised group, or the error "Expect expression.". */
  function Primary(toks: seq<Token>, c: nat): (r: PResult<Expr>)
    requires Terminated(toks) && c < |toks|
    ensures Advances(toks, c, r)
    ensures r.POk? ==> GrammarForm(r.value)
    decreases |toks| - c, 0
  {
    match Atom(toks[c])
    case Some(e) => POk(e, c + 1)
    case None =>
      if toks[c].kind == LEFT_PAREN then Group(toks, c + 1)
      else PFail(c, ExpressionMessage)
  }

  /** The group form of `primary`, entered after its left parenthesis. */
  function Group(toks: seq<Token>, c: nat): (r: PResult<Expr>)
    requires Terminated(toks) && 0 < c < |toks|
    ensures Advances(toks, c, r)
    ensures r.POk? ==> GrammarForm(r.value)
    decreases |toks| - c, 7
  {
    match Expression(toks, c)
    case PFail(at, m) => PFail(at, m)
    case POk(inner, n) =>
      if Sees(toks, n, RIGHT_PAREN) then POk(Grouping(inner), n + 1)
      else PFail(n, GroupingMessage)
  }

  /** `consume(SEMICOLON, ...)` after a statement's expression. */
  function Semicolon<T>(toks: seq<Token>, value: T, c: nat): (r: PResult<T>)
    requires Terminated(toks) && c < |toks|
    ensures Advances(toks, c, r) && (r.POk? ==> r.value == value && r.next == c + 1)
  {
    if Sees(toks, c, SEMICOLON) then POk(value, c + 1) else PFail(c, SemicolonMessage)
  }

  /** `varDeclaration`, entered after the `var` keyword. */
  function VarDeclaration(toks: seq<Token>, c: nat): (r: PResult<Stmt>)
    requires Terminated(toks) && c < |toks|
    ensures Advances(toks, c, r)
    ensures r.POk? ==> StatementForm(r.value)
  {
    if !Sees(toks, c, IDENTIFIER) then PFail(c, NameMessage)
    else VarRest(toks, toks[c], c + 1)
  }

  /** `varDeclaration` after the name: an optional initialiser, then the semicolon. */
  function VarRest(toks: seq<Token>, name: Token, c: nat): (r: PResult<Stmt>)
    requires Terminated(toks) && c < |toks|
    ensures Advances(toks, c, r)
    ensures r.POk? ==> StatementForm(r.value)
  {
    if Sees(toks, c, EQUAL) then
      match Expression(toks, c + 1)
      case PFail(at, m) => PFail(at, m)
      case POk(init, n) => Semicolon(toks, Var(name, Some(init)), n)
    else Semicolon(toks, Var(name, None), c)
  }

  /** `printStatement`, entered after the `print` keyword. */
  function PrintStatement(toks: seq<Token>, c: nat): (r: PResult<Stmt>)
    requires Terminated(toks) && c < |toks|
    ensures Advances(toks, c, r)
    ensures r.POk? ==> StatementForm(r.value)
  {
    match Expression(toks, c)
    case PFail(at, m) => PFail(at, m)
    case POk(e, n) => Semicolon(toks, Print(e), n)
  }

  /** `expressionStatement`. */
  function ExpressionStatement(toks: seq<Token>, c: nat): (r: PResult<Stmt>)
    requires Terminated(toks) && c < |toks|
    ensures Advances(toks, c, r)
    ensures r.POk? ==> StatementForm(r.value)
  {
    match Expression(toks, c)
    case PFail(at, m) => PFail(at, m)
    case POk(e, n) => Semicolon(toks, Ast.Expression(e), n)
  }

  /** `statement`: a print statement or an expression statement. */
  function Statement(toks: seq<Token>, c: nat): (r: PResult<Stmt>)
    requires Terminated(toks) && c < |toks|
    ensures Advances(toks, c, r)
    ensures r.POk? ==> StatementForm(r.value)
  {
    if Sees(toks, c, PRINT) then PrintStatement(toks, c + 1) else ExpressionStatement(toks, c)
  }

  /** The body of `declaration` inside its `try`. */
  function Declaration(toks: seq<Token>, c: nat): (r: PResult<Stmt>)
    requires Terminated(toks) && c < |toks|
    ensures Advances(toks, c, r)
    ensures r.POk? ==> StatementForm(r.value)
  {
    if Sees(toks, c, VAR) then VarDeclaration(toks, c + 1) else Statement(toks, c)
  }

  /** The kinds before which `synchronize` stops. */
  predicate StartsStatement(k: TokenKind)
  {
    k in {CLASS, FUNCTION, VAR, FOR, IF, WHILE, PRINT, RETURN}
  }

  /** Where the loop of `synchronize` stops, starting with the cursor at `c`. */
  function SyncFrom(toks: seq<Token>, c: nat): (n: nat)
    requires Terminated(toks) && 0 < c < |toks|
    ensures c <= n < |toks|
    decreases |toks| - c
  {
    if toks[c].kind == EOF || toks[c - 1].kind == SEMICOLON || StartsStatement(toks[c].kind) then c
    else SyncFrom(toks, c + 1)
  }

  /** `synchronize` after an error at `c`: it advances once and then skips to a statement
      boundary. None when the error was at the final EOF: the advance then passes the end, the
      next `peek()` answers undefined and reading its type throws a TypeError. */
  function Synchronize(toks: seq<Token>, c: nat): Option<nat>
    requires Terminated(toks) && c < |toks|
  {
    if c + 1 == |toks| then None else Some(SyncFrom(toks, c + 1))
  }

  /** What `parse` returns: the statements, with None for each declaration that failed and
      was skipped, or None when the whole call failed; and the errors reported. */
  datatype ParseResult = ParseResult(statements: Option<seq<Option<Stmt>>>, diags: seq<Diagnostic>)

  /** One call of `declaration` with its `catch`: the statement or None, the error reported,
      and where the cursor is next; no next cursor when the recovery throws. */
  datatype DeclOutcome = DeclOutcome(stmt: Option<Stmt>, diags: seq<Diagnostic>, next: Option<nat>)

  function DeclarationStep(toks: seq<Token>, c: nat): (d: DeclOutcome)
    requires Terminated(toks) && c < |toks|
    ensures d.next.Some? ==> c < d.next.value < |toks|
  {
    match Declaration(toks, c)
    case POk(s, n) => DeclOutcome(Some(s), [], Some(n))
    case PFail(at, m) => DeclOutcome(None, [TokenError(toks[at], m)], Synchronize(toks, at))
  }

  /** The result of `parse` once a statement (or None for a failed one) and its errors
      precede what the rest of the loop produces. */
  function Prepend(s: Option<Stmt>, ds: seq<Diagnostic>, rest: ParseResult): ParseResult
  {
    ParseResult(if rest.statements.Some? then Some([s] + rest.statements.value) else None, ds + rest.diags)
  }

  /** The result of `parse` once the statements `acc` and the errors `ds` of the declarations
      already parsed precede what the rest of the loop produces. */
  function PrependAll(acc: seq<Option<Stmt>>, ds: seq<Diagnostic>, rest: ParseResult): ParseResult
  {
    ParseResult(if rest.statements.Some? then Some(acc + rest.statements.value) else None, ds + rest.diags)
  }

  lemma PrependAllStep(acc: seq<Option<Stmt>>, ds: seq<Diagnostic>, s: Option<Stmt>, ds': seq<Diagnostic>, rest: ParseResult)
    ensures PrependAll(acc, ds, Prepend(s, ds', rest)) == PrependAll(acc + [s], ds + ds', rest)
  {
    if rest.statements.Some? {
      assert acc + ([s] + rest.statements.value) == (acc + [s]) + rest.statements.value;
    }
    assert ds + (ds' + rest.diags) == (ds + ds') + rest.diags;
  }

  lemma PrependAllNothing(rest: ParseResult)
    ensures PrependAll([], [], rest) == rest
  {
    if rest.statements.Some? {
      assert [] + rest.statements.value == rest.statements.value;
    }
    assert [] + rest.diags == rest.diags;
  }

  /** The loop of `parse` from the cursor `c`. */
  function ParseFrom(toks: seq<Token>, c: nat): ParseResult
    requires Terminated(toks) && c < |toks|
    decreases |toks| - c
  {
    if toks[c].kind == EOF then ParseResult(Some([]), [])
    else
      var d := DeclarationStep(toks, c);
      match d.next
      case None => ParseResult(None, d.diags)
      case Some(n) => Prepend(d.stmt, d.diags, ParseFrom(toks, n))
  }

  /** `parse` of a whole token array. */
  function Parse(toks: seq<Token>): ParseResult
    requires Terminated(toks)
  {
    ParseFrom(toks, 0)
  }
}
