/** Properties of the evaluator's visitors: scoping, short-circuiting, the checks of a call,
    what the operators do with the values the parser produces, and the role of the loop budget. */
module InterpProps {
  import opened Tokens
  import opened Wrappers
  import opened Values
  import opened Environments
  import opened InterpSpec
  import Callables
  import opened Ast

  /** The log after `evaluate` caught the RuntimeError that `get` raises for an unknown name. */
  function Unknown(st: State, t: Token): State
  {
    st.(diags := st.diags + [RuntimeFault(t, UndefinedPrefix + t.lexeme)])
  }

  /** Reading a name that is not bound is reported and gives `undefined`; a bound name gives
      its value and reports nothing. */
  lemma {:induction false} VariableLookup(t: Token, st: State)
    ensures t.lexeme in st.env ==> Evaluate(Variable(t), st) == Outcome(Ok(st.env[t.lexeme]), st)
    ensures t.lexeme !in st.env ==> Evaluate(Variable(t), st) == Outcome(Ok(Undefined), Unknown(st, t))
  {
    assert Visit(Variable(t), st) == Outcome(Read(st.env, t), st);
  }

  /** A block runs in an empty environment: printing a name bound outside it reports the name
      as undefined and prints `undefined`, and the environment is the outer one afterwards. */
  lemma {:induction false} BlockHidesOuterNames(t: Token, st: State, fuel: nat)
    ensures Execute(Block([Print(Variable(t))]), st, fuel)
         == Outcome(Ok(Null), Unknown(st, t).(output := st.output + [Undefined]))
  {
    var inner := st.(env := map[]);
    VariableLookup(t, inner);
    var printed := Unknown(inner, t).(output := st.output + [Undefined]);
    assert Execute(Print(Variable(t)), inner, fuel) == Outcome(Ok(Undefined), printed);
    assert [Print(Variable(t))][1..] == [];
    assert ExecuteAll([], printed, fuel) == Outcome(Ok(Undefined), printed);
    assert ExecuteAll([Print(Variable(t))], inner, fuel) == Outcome(Ok(Undefined), printed);
  }

  /** Whatever the statements of a block do, the environment afterwards is the one before. */
  lemma {:induction false} BlockRestoresEnvironment(ss: seq<Stmt>, st: State, fuel: nat)
    ensures Execute(Block(ss), st, fuel).st.env == st.env
  {
  }

  /** A declaration inside a block is gone once the block ends. */
  lemma {:induction false} BlockDeclarationsAreLocal(t: Token, st: State, fuel: nat)
    requires t.lexeme !in st.env
    ensures t.lexeme !in Execute(Block([Var(t, None)]), st, fuel).st.env
  {
    BlockRestoresEnvironment([Var(t, None)], st, fuel);
  }

  /** `or` yields its left operand when that is truthy in JavaScript's sense, without
      evaluating the right one; otherwise the right operand's outcome. */
  lemma {:induction false} OrShortCircuits(l: Expr, op: Token, r: Expr, st: State)
    requires op.kind == OR
    ensures var o := Evaluate(l, st);
      o.c.Ok? && ToBoolean(o.c.value) ==> Evaluate(Logical(l, op, r), st) == o
    ensures var o := Evaluate(l, st);
      o.c.Ok? && !ToBoolean(o.c.value) ==> Evaluate(Logical(l, op, r), st) == Evaluate(r, o.st)
  {
    assert Visit(Logical(l, op, r), st) == VisitLogical(Logical(l, op, r), st);
  }

  /** `and` yields its left operand when that is falsy, without evaluating the right one;
      otherwise the right operand's outcome. */
  lemma {:induction false} AndShortCircuits(l: Expr, op: Token, r: Expr, st: State)
    requires op.kind == AND
    ensures var o := Evaluate(l, st);
      o.c.Ok? && !ToBoolean(o.c.value) ==> Evaluate(Logical(l, op, r), st) == o
    ensures var o := Evaluate(l, st);
      o.c.Ok? && ToBoolean(o.c.value) ==> Evaluate(Logical(l, op, r), st) == Evaluate(r, o.st)
  {
    assert Visit(Logical(l, op, r), st) == VisitLogical(Logical(l, op, r), st);
  }

  /** The result of `or` is an operand, not a boolean: a non-empty string on the left is the
      result itself. */
  lemma {:induction false} OrYieldsOperand(s: string, op: Token, r: Expr, st: State)
    requires op.kind == OR && s != ""
    ensures Evaluate(Logical(Literal(LStr(s)), op, r), st) == Outcome(Ok(Str(s)), st)
  {
    OrShortCircuits(Literal(LStr(s)), op, r, st);
  }

  /** Negating an unknown name reports it once and gives NaN, since the failed lookup has
      already turned into `undefined` inside the operand's own `evaluate`. */
  lemma {:induction false} NegatingUnknownNameGivesNaN(op: Token, t: Token, st: State)
    requires op.kind == MINUS && t.lexeme !in st.env
    ensures Evaluate(Unary(op, Variable(t)), st) == Outcome(Ok(NaN), Unknown(st, t))
  {
    VariableLookup(t, st);
    assert Visit(Unary(op, Variable(t)), st) == VisitUnary(Unary(op, Variable(t)), st);
  }

  /** The parser stores a number's lexeme, so `+` on two number literals joins their text. */
  lemma {:induction false} NumberLiteralsConcatenate(plus: Token, a: string, b: string, st: State)
    requires plus.kind == PLUS
    ensures Evaluate(Binary(Literal(LStr(a)), plus, Literal(LStr(b))), st) == Outcome(Ok(Str(a + b)), st)
  {
    var e := Binary(Literal(LStr(a)), plus, Literal(LStr(b)));
    assert Evaluate(Literal(LStr(a)), st) == Outcome(Ok(Str(a)), st);
    assert Evaluate(Literal(LStr(b)), st) == Outcome(Ok(Str(b)), st);
    assert Visit(e, st) == VisitBinary(e, st);
  }

  /** The single `=` the parser turns into a binary node falls through the operator switch:
      once both operands are evaluated, the result is null. */
  lemma {:induction false} SingleEqualsGivesNull(l: Expr, eq: Token, r: Expr, st: State)
    requires eq.kind == EQUAL
    ensures var ol := Evaluate(l, st); var or := Evaluate(r, ol.st);
      ol.c.Ok? && or.c.Ok? ==> Evaluate(Binary(l, eq, r), st) == Outcome(Ok(Null), or.st)
  {
    assert Visit(Binary(l, eq, r), st) == VisitBinary(Binary(l, eq, r), st);
  }

  /** An assignment stores nothing: the name keeps its value and the assigned value is the
      result; an unknown name is reported and the result is `undefined`. */
  lemma {:induction false} AssignmentStoresNothing(t: Token, v: Expr, st: State)
    ensures var o := Evaluate(v, st);
      o.c.Ok? && t.lexeme in st.env ==> Evaluate(Assignment(t, Some(v)), st) == o
    ensures var o := Evaluate(v, st);
      o.c.Ok? && t.lexeme !in st.env ==> Evaluate(Assignment(t, Some(v)), st) == Outcome(Ok(Undefined), Unknown(o.st, t))
  {
    assert Visit(Assignment(t, Some(v)), st) == VisitAssignment(Assignment(t, Some(v)), st);
  }

  /** A callee that is not a LoxFunction is reported on the closing parenthesis after every
      argument has been evaluated, and the call gives `undefined`. */
  lemma {:induction false} CallOfNonFunction(callee: Expr, paren: Token, args: seq<Expr>, st: State)
    ensures var oc := Evaluate(callee, st); var oa := EvaluateArgs(args, [], oc.st);
      oc.c.Ok? && !oc.c.value.Fn? && oa.c.Ok? ==>
        Evaluate(Call(callee, paren, args), st)
          == Outcome(Ok(Undefined), oa.st.(diags := oa.st.diags + [RuntimeFault(paren, CallMessage)]))
  {
    assert Visit(Call(callee, paren, args), st) == VisitCall(Call(callee, paren, args), st);
  }

  /** Calling a LoxFunction ends the run with a TypeError once the arguments are evaluated:
      its arity reads a parameter list the declaration does not have. */
  lemma {:induction false} CallOfFunctionCrashes(callee: Expr, paren: Token, args: seq<Expr>, st: State)
    ensures var oc := Evaluate(callee, st); var oa := EvaluateArgs(args, [], oc.st);
      oc.c.Ok? && oc.c.value.Fn? && oa.c.Ok? ==>
        Evaluate(Call(callee, paren, args), st) == Outcome(Abrupt(TypeErr), oa.st)
  {
    assert Visit(Call(callee, paren, args), st) == VisitCall(Call(callee, paren, args), st);
  }

  /** The native `clock` is not a LoxFunction, so `clock()` is reported as a call of something
      that is not callable. */
  lemma {:induction false} ClockIsNotCallable(t: Token, paren: Token, st: State)
    requires t.lexeme in st.env && st.env[t.lexeme] == Native
    ensures Evaluate(Call(Variable(t), paren, []), st)
         == Outcome(Ok(Undefined), st.(diags := st.diags + [RuntimeFault(paren, CallMessage)]))
  {
    VariableLookup(t, st);
    assert EvaluateArgs([], [], st) == Outcome(Ok([]), st);
    CallOfNonFunction(Variable(t), paren, [], st);
  }

  /** Declaring a function and then calling it, as a whole program, ends with a TypeError. */
  lemma {:induction false} DeclaredFunctionCallCrashes(d: FunctionDecl, paren: Token, st: State, fuel: nat)
    ensures Interpret([Function(d), Expression(Call(Variable(d.name), paren, []))], st, fuel).c == Abrupt(TypeErr)
  {
    var ss := [Function(d), Expression(Call(Variable(d.name), paren, []))];
    var st1 := st.(env := st.env[d.name.lexeme := Fn(st.nextId, d)], nextId := st.nextId + 1);
    assert Execute(ss[0], st, fuel) == Outcome(Ok(Null), st1);
    VariableLookup(d.name, st1);
    assert EvaluateArgs([], [], st1) == Outcome(Ok([]), st1);
    CallOfFunctionCrashes(Variable(d.name), paren, [], st1);
    assert ss[1..] == [ss[1]] && [ss[1]][1..] == [];
    assert ExecuteAll(ss[1..], st1, fuel) == Outcome(Abrupt(TypeErr), st1);
  }

  /** A declaration without an initialiser binds null, and so does one whose initialiser gives
      `undefined` or null; the statement's result is the value just bound. */
  lemma {:induction false} VarDefines(t: Token, init: Option<Expr>, st: State)
    ensures var o := if init.Some? then Evaluate(init.value, st) else Outcome(Ok(Null), st);
      o.c.Ok? ==>
        var v := if o.c.value.Undefined? || o.c.value.Null? then Null else o.c.value;
        ExecuteVar(Var(t, init), st) == Outcome(Ok(v), o.st.(env := o.st.env[t.lexeme := v]))
  {
  }

  /** A loop whose condition is falsy runs no iteration and gives null. */
  lemma {:induction false} WhileFalseSkips(cond: Expr, body: Stmt, st: State, fuel: nat)
    requires fuel > 0
    ensures var o := Evaluate(cond, st);
      o.c.Ok? && !IsTruthy(o.c.value) ==> Loop(cond, body, st, fuel) == Outcome(Ok(Null), o.st)
  {
  }

  /** `while (true) <expression>;` uses up any budget: the loop does not end by itself. */
  lemma {:induction false} WhileTrueNeverEnds(body: Expr, st: State, fuel: nat)
    requires Evaluate(body, st).st == st && Evaluate(body, st).c.Ok?
    ensures Loop(Literal(LBool(true)), Expression(body), st, fuel) == Outcome(Abrupt(OutOfFuel), st)
    decreases fuel
  {
    if fuel > 0 {
      assert Evaluate(Literal(LBool(true)), st) == Outcome(Ok(Bool(true)), st);
      WhileTrueNeverEnds(body, st, fuel - 1);
    }
  }

  /** The signal a run gives when its budget of loop iterations is spent. */
  predicate Spent(c: Completion<Value>)
  {
    c.Abrupt? && c.signal.OutOfFuel?
  }

  /** The budget is only a bound: a statement that finishes within some budget finishes the
      same way with any larger one. */
  lemma {:induction false} ExecuteMoreFuel(s: Stmt, st: State, fuel: nat, more: nat)
    requires !Spent(Execute(s, st, fuel).c)
    ensures Execute(s, st, fuel + more) == Execute(s, st, fuel)
    decreases fuel, StmtSize(s), 1
  {
    match s
    case Block(ss) =>
      ExecuteAllMoreFuel(ss, st.(env := map[]), fuel, more);
    case If(_, _, _) =>
      IfMoreFuel(s, st, fuel, more);
    case While(c, b) =>
      LoopMoreFuel(c, b, st, fuel, more);
    case _ =>
  }

  lemma {:induction false} IfMoreFuel(s: Stmt, st: State, fuel: nat, more: nat)
    requires s.If? && !Spent(ExecuteIf(s, st, fuel).c)
    ensures ExecuteIf(s, st, fuel + more) == ExecuteIf(s, st, fuel)
    decreases fuel, StmtSize(s), 0
  {
    var o := Evaluate(s.cond, st);
    if o.c.Ok? {
      if IsTruthy(o.c.value) {
        ExecuteMoreFuel(s.thenBranch, o.st, fuel, more);
      } else if s.elseBranch.Some? {
        ExecuteMoreFuel(s.elseBranch.value, o.st, fuel, more);
      }
    }
  }

  lemma {:induction false} ExecuteAllMoreFuel(ss: seq<Stmt>, st: State, fuel: nat, more: nat)
    requires !Spent(ExecuteAll(ss, st, fuel).c)
    ensures ExecuteAll(ss, st, fuel + more) == ExecuteAll(ss, st, fuel)
    decreases fuel, StmtsSize(ss), 2
  {
    if ss != [] {
      StmtsSizeBound(ss, 0);
      var o := Execute(ss[0], st, fuel);
      ExecuteMoreFuel(ss[0], st, fuel, more);
      if o.c.Ok? {
        ExecuteAllMoreFuel(ss[1..], o.st, fuel, more);
      }
    }
  }

  lemma {:induction false} LoopMoreFuel(cond: Expr, body: Stmt, st: State, fuel: nat, more: nat)
    requires !Spent(Loop(cond, body, st, fuel).c)
    ensures Loop(cond, body, st, fuel + more) == Loop(cond, body, st, fuel)
    decreases fuel, 0, 0
  {
    var o := Evaluate(cond, st);
    if o.c.Ok? && IsTruthy(o.c.value) {
      var ob := Execute(body, o.st, fuel - 1);
      ExecuteMoreFuel(body, o.st, fuel - 1, more);
      if ob.c.Ok? {
        LoopMoreFuel(cond, body, ob.st, fuel - 1, more);
      }
    }
  }

  /** No RuntimeError reaches the top level: every one is caught by the `evaluate` of the
      expression that raised it, so the `catch` of `interprete` never reports anything. */
  lemma {:induction false} TopLevelCatchIsIdle(ss: seq<Stmt>, st: State, fuel: nat)
    ensures Interpret(ss, st, fuel) == ExecuteAll(ss, st, fuel)
  {
  }
}
