/** The syntax trees the parser builds and the later passes walk: expression and statement
    variants as values, in place of the source's node classes and their `accept` dispatch. */
module Ast {
  import opened Tokens
  import opened Wrappers

  /** What a LiteralExpr holds: `null`, a boolean, a number or a string. The parser only ever
      stores `null`, booleans and token lexemes (strings); numbers appear in trees built by hand. */
  datatype LitValue = LNull | LBool(b: bool) | LNum(n: int) | LStr(s: string)

  /** Expression nodes. Logical, Call, Get, Set and This are the nodes the resolver and the
      evaluator visit although no parser rule produces them. */
  datatype Expr =
    | Binary(left: Expr, op: Token, right: Expr)
    | Grouping(inner: Expr)
    | Literal(lit: LitValue)
    | Unary(op: Token, operand: Expr)
    | Variable(name: Token)
    | Assignment(name: Token, rhs: Option<Expr>)
    | Logical(left: Expr, op: Token, right: Expr)
    | Call(callee: Expr, paren: Token, args: seq<Expr>)
    | Get(object: Expr, name: Token)
    | Set(object: Expr, name: Token, newValue: Expr)
    | This(keyword: Token)

  /** Statement nodes; Class is the node the resolver visits although no parser rule produces it. */
  datatype Stmt =
    | Expression(expr: Expr)
    | Print(expr: Expr)
    | Var(name: Token, init: Option<Expr>)
    | Function(decl: FunctionDecl)
    | Block(stmts: seq<Stmt>)
    | If(cond: Expr, thenBranch: Stmt, elseBranch: Option<Stmt>)
    | While(cond: Expr, body: Stmt)
    | Return(keyword: Token, result: Option<Expr>)
    | Class(name: Token, methods: seq<FunctionDecl>)

  /** A FunctionStmt: its name, its parameter tokens (the field is called `params`) and its body. */
  datatype FunctionDecl = FunctionDecl(name: Token, params: seq<Token>, body: seq<Stmt>)

  /** Node counts, used as termination measures by the passes that walk trees. */
  function ExprSize(e: Expr): (n: nat)
    ensures n >= 1
  {
    match e
    case Binary(l, _, r) => 1 + ExprSize(l) + ExprSize(r)
    case Grouping(x) => 1 + ExprSize(x)
    case Literal(_) => 1
    case Unary(_, x) => 1 + ExprSize(x)
    case Variable(_) => 1
    case Assignment(_, v) => 1 + (if v.Some? then ExprSize(v.value) else 0)
    case Logical(l, _, r) => 1 + ExprSize(l) + ExprSize(r)
    case Call(c, _, args) => 1 + ExprSize(c) + ExprsSize(args)
    case Get(o, _) => 1 + ExprSize(o)
    case Set(o, _, v) => 1 + ExprSize(o) + ExprSize(v)
    case This(_) => 1
  }

  function ExprsSize(es: seq<Expr>): nat
  {
    if es == [] then 0 else ExprSize(es[0]) + ExprsSize(es[1..])
  }

  function StmtSize(s: Stmt): (n: nat)
    ensures n >= 1
  {
    match s
    case Expression(e) => 1 + ExprSize(e)
    case Print(e) => 1 + ExprSize(e)
    case Var(_, init) => 1 + (if init.Some? then ExprSize(init.value) else 0)
    case Function(d) => 1 + DeclSize(d)
    case Block(ss) => 1 + StmtsSize(ss)
    case If(c, t, el) => 1 + ExprSize(c) + StmtSize(t) + (if el.Some? then StmtSize(el.value) else 0)
    case While(c, b) => 1 + ExprSize(c) + StmtSize(b)
    case Return(_, v) => 1 + (if v.Some? then ExprSize(v.value) else 0)
    case Class(_, ms) => 1 + DeclsSize(ms)
  }

  function StmtsSize(ss: seq<Stmt>): nat
  {
    if ss == [] then 0 else StmtSize(ss[0]) + StmtsSize(ss[1..])
  }

  function DeclSize(d: FunctionDecl): nat
  {
    1 + StmtsSize(d.body)
  }

  function DeclsSize(ds: seq<FunctionDecl>): nat
  {
    if ds == [] then 0 else DeclSize(ds[0]) + DeclsSize(ds[1..])
  }

  /** An element of a list weighs no more than the list. These three bounds are not claims
      about the interpreter: they serve only the `decreases` clauses of the resolver and the
      evaluator, which walk the elements of a list one call at a time. */
  lemma {:induction false} ExprsSizeBound(es: seq<Expr>, i: nat)
    requires i < |es|
    ensures ExprSize(es[i]) <= ExprsSize(es)
    decreases i
  {
    if i > 0 {
      ExprsSizeBound(es[1..], i - 1);
      assert es[1..][i - 1] == es[i];
    }
  }

  lemma {:induction false} StmtsSizeBound(ss: seq<Stmt>, i: nat)
    requires i < |ss|
    ensures StmtSize(ss[i]) <= StmtsSize(ss)
    decreases i
  {
    if i > 0 {
      StmtsSizeBound(ss[1..], i - 1);
      assert ss[1..][i - 1] == ss[i];
    }
  }

  lemma {:induction false} DeclsSizeBound(ds: seq<FunctionDecl>, i: nat)
    requires i < |ds|
    ensures DeclSize(ds[i]) <= DeclsSize(ds)
    decreases i
  {
    if i > 0 {
      DeclsSizeBound(ds[1..], i - 1);
      assert ds[1..][i - 1] == ds[i];
    }
  }
}
