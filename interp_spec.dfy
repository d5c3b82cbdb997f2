/** What the evaluator's visitors do, as functions of the tree, the interpreter's state and, for
    statements, a budget of loop iterations. `evaluate` catches every RuntimeError of the
    expression it runs, reports it and yields `undefined`; a TypeError passes through every
    `catch` (reporting it reads `.line` of its missing token, which throws again) and ends the
    run. */
module InterpSpec {
  import opened Tokens
  import opened Wrappers
  import opened Values
  import opened Environments
  import Callables
  import Ast

  /** The interpreter's state: the current environment's map, what `print` wrote, what
      `runtimeError` reported, and the identity the next LoxFunction object gets. */
  datatype State = State(env: map<string, Value>, output: seq<Value>, diags: seq<Diagnostic>, nextId: nat)

  datatype Outcome<T> = Outcome(c: Completion<T>, st: State)

  const CallMessage := "Can only call functions and classes."

  /** The state after the constructor: the global environment holds the native `clock`. */
  const Initial := State(map["clock" := Native], [], [], 0)

  /** From `st` to `st'` only the diagnostics log grew. */
  predicate LogOnly(st: State, st': State)
  {
    st'.env == st.env && st'.output == st.output && st'.nextId == st.nextId && st.diags <= st'.diags
  }

  /** From `st` to `st'` the output and the log only grew. */
  predicate Grows(st: State, st': State)
  {
    st.output <= st'.output && st.diags <= st'.diags
  }

  /** A signal `evaluate` does not catch. */
  predicate Escapes(s: Signal)
  {
    !s.RuntimeErr?
  }

  /** `visitLiteralExpr`: the stored literal itself. */
  function LiteralValue(lit: Ast.LitValue): Value
  {
    match lit
    case LNull => Null
    case LBool(b) => Bool(b)
    case LNum(n) => Num(n as real)
    case LStr(s) => Str(s)
  }

  /** `evaluate`: the visitor inside a `try` whose `catch` reports a RuntimeError and returns
      `undefined`. */
  function Evaluate(e: Ast.Expr, st: State): (o: Outcome<Value>)
    ensures LogOnly(st, o.st)
    ensures o.c.Abrupt? ==> Escapes(o.c.signal)
    decreases Ast.ExprSize(e), 2
  {
    var o := Visit(e, st);
    match o.c
    case Abrupt(RuntimeErr(t, m)) => Outcome(Ok(Undefined), o.st.(diags := o.st.diags + [RuntimeFault(t, m)]))
    case _ => o
  }

  /** `accept` on an expression: the visitor of its variant. Get, Set and This have no visitor
      in the evaluator, so calling it throws a TypeError. */
  function Visit(e: Ast.Expr, st: State): (o: Outcome<Value>)
    ensures LogOnly(st, o.st)
    decreases Ast.ExprSize(e), 1
  {
    match e
    case Binary(_, _, _) => VisitBinary(e, st)
    case Grouping(x) => Evaluate(x, st)
    case Literal(lit) => Outcome(Ok(LiteralValue(lit)), st)
    case Unary(_, _) => VisitUnary(e, st)
    case Variable(t) => Outcome(Read(st.env, t), st)
    case Assignment(_, _) => VisitAssignment(e, st)
    case Logical(_, _, _) => VisitLogical(e, st)
    case Call(_, _, _) => VisitCall(e, st)
    case Get(_, _) => Outcome(Abrupt(TypeErr), st)
    case Set(_, _, _) => Outcome(Abrupt(TypeErr), st)
    case This(_) => Outcome(Abrupt(TypeErr), st)
  }

  /** `visitBinaryExpr`: both operands, left first, then the operator switch. */
  function VisitBinary(e: Ast.Expr, st: State): (o: Outcome<Value>)
    requires e.Binary?
    ensures LogOnly(st, o.st)
    decreases Ast.ExprSize(e), 0
  {
    var ol := Evaluate(e.left, st);
    if ol.c.Abrupt? then ol
    else
      var or := Evaluate(e.right, ol.st);
      if or.c.Abrupt? then or
      else Outcome(BinaryOp(e.op, ol.c.value, or.c.value), or.st)
  }

  /** `visitUnaryExpr`: `!` and `-` evaluate their operand; any other operator gives null
      without evaluating it. */
  function VisitUnary(e: Ast.Expr, st: State): (o: Outcome<Value>)
    requires e.Unary?
    ensures LogOnly(st, o.st)
    decreases Ast.ExprSize(e), 0
  {
    if e.op.kind == NOT then
      var o := Evaluate(e.operand, st);
      if o.c.Abrupt? then o else Outcome(Ok(Bool(!IsTruthy(o.c.value))), o.st)
    else if e.op.kind == MINUS then
      var o := Evaluate(e.operand, st);
      if o.c.Abrupt? then o
      else match Negative(o.c.value)
        case Some(n) => Outcome(Ok(n), o.st)
        case None => Outcome(Abrupt(Unmodelled), o.st)
    else Outcome(Ok(Null), st)
  }

  /** `visitAssignmentExpr`: the value (null when there is none), then `assign`, which fails
      on an unknown name and stores nothing; the value is the result. */
  function VisitAssignment(e: Ast.Expr, st: State): (o: Outcome<Value>)
    requires e.Assignment?
    ensures LogOnly(st, o.st)
    decreases Ast.ExprSize(e), 0
  {
    var o := if e.rhs.Some? then Evaluate(e.rhs.value, st) else Outcome(Ok(Null), st);
    if o.c.Abrupt? then o
    else match Read(o.st.env, e.name)
      case Abrupt(s) => Outcome(Abrupt(s), o.st)
      case Ok(_) => o
  }

  /** `visitLogicalExpr`: JavaScript's `||` and `&&` on the evaluated operands, so the result
      is an operand value and the right operand is evaluated only when the left one does not
      decide; any other operator gives `undefined`. */
  function VisitLogical(e: Ast.Expr, st: State): (o: Outcome<Value>)
    requires e.Logical?
    ensures LogOnly(st, o.st)
    decreases Ast.ExprSize(e), 0
  {
    if e.op.kind == OR then
      var o := Evaluate(e.left, st);
      if o.c.Abrupt? || ToBoolean(o.c.value) then o else Evaluate(e.right, o.st)
    else if e.op.kind == AND then
      var o := Evaluate(e.left, st);
      if o.c.Abrupt? || !ToBoolean(o.c.value) then o else Evaluate(e.right, o.st)
    else Outcome(Ok(Undefined), st)
  }

  /** `visitCallExpr`: the callee, the arguments left to right, then the checks: a callee that
      is not a LoxFunction is a RuntimeError on the parenthesis; a LoxFunction's `arity()`
      throws. */
  function VisitCall(e: Ast.Expr, st: State): (o: Outcome<Value>)
    requires e.Call?
    ensures LogOnly(st, o.st)
    decreases Ast.ExprSize(e), 0
  {
    var oc := Evaluate(e.callee, st);
    if oc.c.Abrupt? then oc
    else
      var oa := EvaluateArgs(e.args, [], oc.st);
      if oa.c.Abrupt? then Outcome(Abrupt(oa.c.signal), oa.st)
      else if !oc.c.value.Fn? then Outcome(Abrupt(RuntimeErr(e.paren, CallMessage)), oa.st)
      else match Callables.Arity(oc.c.value.decl)
        case Abrupt(s) => Outcome(Abrupt(s), oa.st)
        case Ok(n) =>
          if |oa.c.value| != n then Outcome(Abrupt(RuntimeErr(e.paren, "Expected " + IntText(n) + " arguments but got 1")), oa.st)
          else Outcome(Callables.Invoke(oc.c.value.decl, oa.c.value), oa.st)
  }

  /** The argument loop of `visitCallExpr`: the values already pushed are `done`. */
  function EvaluateArgs(args: seq<Ast.Expr>, done: seq<Value>, st: State): (o: Outcome<seq<Value>>)
    ensures LogOnly(st, o.st)
    ensures o.c.Ok? ==> |o.c.value| == |done| + |args| && o.c.value[..|done|] == done
    decreases Ast.ExprsSize(args), 3
  {
    if args == [] then Outcome(Ok(done), st)
    else
      var o := Evaluate(args[0], st);
      if o.c.Abrupt? then Outcome(Abrupt(o.c.signal), o.st)
      else
        var rest := EvaluateArgs(args[1..], done + [o.c.value], o.st);
        assert rest.c.Ok? ==> rest.c.value[..|done|] == (done + [o.c.value])[..|done|];
        rest
  }

  /** The outcome of a visitor that returns `v` once the statement it ran completed. */
  function Then(o: Outcome<Value>, v: Value): Outcome<Value>
  {
    if o.c.Abrupt? then o else Outcome(Ok(v), o.st)
  }

  /** `execute`: the statement visitor and what it returns. Each `while` iteration spends one
      unit of `fuel`; Return and Class have no visitor in the evaluator. */
  function Execute(s: Ast.Stmt, st: State, fuel: nat): (o: Outcome<Value>)
    ensures Grows(st, o.st) && (o.c.Abrupt? ==> Escapes(o.c.signal))
    decreases fuel, Ast.StmtSize(s), 1
  {
    match s
    case Expression(e) => Evaluate(e, st)
    case Print(e) =>
      var o := Evaluate(e, st);
      if o.c.Abrupt? then o else Outcome(Ok(Undefined), o.st.(output := o.st.output + [o.c.value]))
    case Var(_, _) => ExecuteVar(s, st)
    case Function(d) =>
      Outcome(Ok(Null), st.(env := st.env[d.name.lexeme := Fn(st.nextId, d)], nextId := st.nextId + 1))
    case Block(ss) => ExecuteBlock(ss, st, fuel)
    case If(_, _, _) => ExecuteIf(s, st, fuel)
    case While(c, b) => Loop(c, b, st, fuel)
    case Return(_, _) => Outcome(Abrupt(TypeErr), st)
    case Class(_, _) => Outcome(Abrupt(TypeErr), st)
  }

  /** `visitVarStmt`: the initialiser if there is one; `undefined` and null both store null;
      then `define`, and the result is a `get` of the name just defined. */
  function ExecuteVar(s: Ast.Stmt, st: State): (o: Outcome<Value>)
    requires s.Var?
    ensures Grows(st, o.st) && (o.c.Abrupt? ==> Escapes(o.c.signal))
  {
    var o := if s.init.Some? then Evaluate(s.init.value, st) else Outcome(Ok(Null), st);
    if o.c.Abrupt? then o
    else
      var v := if o.c.value.Undefined? || o.c.value.Null? then Null else o.c.value;
      var st' := o.st.(env := o.st.env[s.name.lexeme := v]);
      Outcome(Read(st'.env, s.name), st')
  }

  /** `visitIfStmt`: the condition, then one branch or none. */
  function ExecuteIf(s: Ast.Stmt, st: State, fuel: nat): (o: Outcome<Value>)
    requires s.If?
    ensures Grows(st, o.st) && (o.c.Abrupt? ==> Escapes(o.c.signal))
    decreases fuel, Ast.StmtSize(s), 0
  {
    var o := Evaluate(s.cond, st);
    if o.c.Abrupt? then o
    else if IsTruthy(o.c.value) then Then(Execute(s.thenBranch, o.st, fuel), Null)
    else if s.elseBranch.Some? then Then(Execute(s.elseBranch.value, o.st, fuel), Null)
    else Outcome(Ok(Null), o.st)
  }

  /** `visitBlockStmt` and `executeBlock`: the statements run in a new, empty environment; the
      previous environment is put back however they end. */
  function ExecuteBlock(ss: seq<Ast.Stmt>, st: State, fuel: nat): (o: Outcome<Value>)
    ensures Grows(st, o.st) && (o.c.Abrupt? ==> Escapes(o.c.signal))
    decreases fuel, Ast.StmtsSize(ss), 3
  {
    var o := ExecuteAll(ss, st.(env := map[]), fuel);
    Then(Outcome(o.c, o.st.(env := st.env)), Null)
  }

  /** The loop of `executeBlock` and `interprete`: the statements in order, up to the first
      that throws. */
  function ExecuteAll(ss: seq<Ast.Stmt>, st: State, fuel: nat): (o: Outcome<Value>)
    ensures Grows(st, o.st) && (o.c.Abrupt? ==> Escapes(o.c.signal))
    ensures o.c.Ok? ==> o.c.value == Undefined
    decreases fuel, Ast.StmtsSize(ss), 2
  {
    if ss == [] then Outcome(Ok(Undefined), st)
    else
      var o := Execute(ss[0], st, fuel);
      if o.c.Abrupt? then o else ExecuteAll(ss[1..], o.st, fuel)
  }

  /** `visitWhileStmt` with `fuel` iterations left. */
  function Loop(cond: Ast.Expr, body: Ast.Stmt, st: State, fuel: nat): (o: Outcome<Value>)
    ensures Grows(st, o.st) && (o.c.Abrupt? ==> Escapes(o.c.signal))
    decreases fuel, 0, 0
  {
    if fuel == 0 then Outcome(Abrupt(OutOfFuel), st)
    else
      var o := Evaluate(cond, st);
      if o.c.Abrupt? then o
      else if !IsTruthy(o.c.value) then Outcome(Ok(Null), o.st)
      else
        var ob := Execute(body, o.st, fuel - 1);
        if ob.c.Abrupt? then ob else Loop(cond, body, ob.st, fuel - 1)
  }

  /** `interprete`: the statements in order; its `catch` reports a RuntimeError that escapes a
      statement and stops. A TypeError escapes it too and ends the program. */
  function Interpret(ss: seq<Ast.Stmt>, st: State, fuel: nat): (o: Outcome<Value>)
  {
    var o := ExecuteAll(ss, st, fuel);
    match o.c
    case Abrupt(RuntimeErr(t, m)) => Outcome(Ok(Undefined), o.st.(diags := o.st.diags + [RuntimeFault(t, m)]))
    case _ => o
  }
}
