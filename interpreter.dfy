/** The evaluator as an object: the current environment is a field that `executeBlock` swaps
    and restores, `print` appends to the output, `runtimeError` appends to the log. Each method
    is proved to do what the matching function of InterpSpec describes. */
module Interpreting {
  import opened Tokens
  import opened Wrappers
  import opened Values
  import opened Environments
  import Callables
  import Ast
  import S = InterpSpec

  class Interpreter {
    const globals: Environment
    var env: Environment
    var output: seq<Value>
    var diags: seq<Diagnostic>
    var nextId: nat

    /** The part of the object the specification talks about. */
    ghost function Snapshot(): S.State
      reads this, env
    {
      S.State(env.vars, output, diags, nextId)
    }

    /** The globals become the current environment and receive the native `clock`. */
    constructor (g: Environment)
      modifies g
      ensures globals == g && env == g && g.vars == old(g.vars)["clock" := Native]
      ensures output == [] && diags == [] && nextId == 0
    {
      globals := g;
      env := g;
      output := [];
      diags := [];
      nextId := 0;
      new;
      g.Define("clock", Native);
    }

    method Evaluate(e: Ast.Expr) returns (c: Completion<Value>)
      modifies this
      ensures env == old(env)
      ensures S.Evaluate(e, old(Snapshot())) == S.Outcome(c, Snapshot())
      decreases Ast.ExprSize(e), 2
    {
      c := Visit(e);
      if c.Abrupt? && c.signal.RuntimeErr? {
        diags := diags + [RuntimeFault(c.signal.token, c.signal.message)];
        c := Ok(Undefined);
      }
    }

    method Visit(e: Ast.Expr) returns (c: Completion<Value>)
      modifies this
      ensures env == old(env)
      ensures S.Visit(e, old(Snapshot())) == S.Outcome(c, Snapshot())
      decreases Ast.ExprSize(e), 1
    {
      match e
      case Binary(_, _, _) => c := VisitBinary(e);
      case Grouping(x) => c := Evaluate(x);
      case Literal(lit) => c := Ok(S.LiteralValue(lit));
      case Unary(_, _) => c := VisitUnary(e);
      case Variable(t) => c := env.Get(t);
      case Assignment(_, _) => c := VisitAssignment(e);
      case Logical(_, _, _) => c := VisitLogical(e);
      case Call(_, _, _) => c := VisitCall(e);
      case Get(_, _) => c := Abrupt(TypeErr);
      case Set(_, _, _) => c := Abrupt(TypeErr);
      case This(_) => c := Abrupt(TypeErr);
    }

    method VisitBinary(e: Ast.Expr) returns (c: Completion<Value>)
      requires e.Binary?
      modifies this
      ensures env == old(env)
      ensures S.VisitBinary(e, old(Snapshot())) == S.Outcome(c, Snapshot())
      decreases Ast.ExprSize(e), 0
    {
      var left := Evaluate(e.left);
      if left.Abrupt? {
        return left;
      }
      var right := Evaluate(e.right);
      if right.Abrupt? {
        return right;
      }
      c := BinaryOp(e.op, left.value, right.value);
    }

    method VisitUnary(e: Ast.Expr) returns (c: Completion<Value>)
      requires e.Unary?
      modifies this
      ensures env == old(env)
      ensures S.VisitUnary(e, old(Snapshot())) == S.Outcome(c, Snapshot())
      decreases Ast.ExprSize(e), 0
    {
      if e.op.kind == NOT {
        var v := Evaluate(e.operand);
        c := if v.Abrupt? then v else Ok(Bool(!IsTruthy(v.value)));
      } else if e.op.kind == MINUS {
        var v := Evaluate(e.operand);
        if v.Abrupt? {
          return v;
        }
        var n := Negative(v.value);
        c := if n.Some? then Ok(n.value) else Abrupt(Unmodelled);
      } else {
        c := Ok(Null);
      }
    }

    method VisitAssignment(e: Ast.Expr) returns (c: Completion<Value>)
      requires e.Assignment?
      modifies this
      ensures env == old(env)
      ensures S.VisitAssignment(e, old(Snapshot())) == S.Outcome(c, Snapshot())
      decreases Ast.ExprSize(e), 0
    {
      if e.rhs.Some? {
        c := Evaluate(e.rhs.value);
      } else {
        c := Ok(Null);
      }
      if c.Abrupt? {
        return;
      }
      var r := env.Assign(e.name, c.value);
      if r.Abrupt? {
        c := Abrupt(r.signal);
      }
    }

    method VisitLogical(e: Ast.Expr) returns (c: Completion<Value>)
      requires e.Logical?
      modifies this
      ensures env == old(env)
      ensures S.VisitLogical(e, old(Snapshot())) == S.Outcome(c, Snapshot())
      decreases Ast.ExprSize(e), 0
    {
      if e.op.kind == OR {
        c := Evaluate(e.left);
        if c.Ok? && !ToBoolean(c.value) {
          c := Evaluate(e.right);
        }
      } else if e.op.kind == AND {
        c := Evaluate(e.left);
        if c.Ok? && ToBoolean(c.value) {
          c := Evaluate(e.right);
        }
      } else {
        c := Ok(Undefined);
      }
    }

    method VisitCall(e: Ast.Expr) returns (c: Completion<Value>)
      requires e.Call?
      modifies this
      ensures env == old(env)
      ensures S.VisitCall(e, old(Snapshot())) == S.Outcome(c, Snapshot())
      decreases Ast.ExprSize(e), 0
    {
      var callee := Evaluate(e.callee);
      if callee.Abrupt? {
        return callee;
      }
      ghost var st1 := Snapshot();
      var args: seq<Value> := [];
      var i := 0;
      while i < |e.args|
        invariant 0 <= i <= |e.args| && env == old(env)
        invariant S.EvaluateArgs(e.args, [], st1) == S.EvaluateArgs(e.args[i..], args, Snapshot())
      {
        Ast.ExprsSizeBound(e.args, i);
        assert e.args[i..][0] == e.args[i] && e.args[i..][1..] == e.args[i + 1..];
        var a := Evaluate(e.args[i]);
        if a.Abrupt? {
          return Abrupt(a.signal);
        }
        args := args + [a.value];
        i := i + 1;
      }
      if !callee.value.Fn? {
        return Abrupt(RuntimeErr(e.paren, S.CallMessage));
      }
      var decl, paren := callee.value.decl, e.paren;
      match Callables.Arity(decl)
      case Abrupt(sg) =>
        c := Abrupt(sg);
      case Ok(n) =>
        if |args| != n {
          c := Abrupt(RuntimeErr(paren, "Expected " + IntText(n) + " arguments but got 1"));
        } else {
          c := Callables.Invoke(decl, args);
        }
    }

    method Execute(s: Ast.Stmt, fuel: nat) returns (c: Completion<Value>)
      modifies this, env
      ensures env == old(env)
      ensures S.Execute(s, old(Snapshot()), fuel) == S.Outcome(c, Snapshot())
      decreases fuel, Ast.StmtSize(s), 1
    {
      match s
      case Expression(e) => c := Evaluate(e);
      case Print(e) =>
        c := Evaluate(e);
        if c.Ok? {
          output := output + [c.value];
          c := Ok(Undefined);
        }
      case Var(_, _) => c := ExecuteVar(s);
      case Function(d) =>
        var f := Fn(nextId, d);
        nextId := nextId + 1;
        env.Define(d.name.lexeme, f);
        c := Ok(Null);
      case Block(ss) =>
        var scope := new Environment();
        c := ExecuteBlock(ss, scope, fuel);
        if c.Ok? {
          c := Ok(Null);
        }
      case If(_, _, _) => c := ExecuteIf(s, fuel);
      case While(cond, body) => c := Loop(cond, body, fuel);
      case Return(_, _) => c := Abrupt(TypeErr);
      case Class(_, _) => c := Abrupt(TypeErr);
    }

    method ExecuteVar(s: Ast.Stmt) returns (c: Completion<Value>)
      requires s.Var?
      modifies this, env
      ensures env == old(env)
      ensures S.ExecuteVar(s, old(Snapshot())) == S.Outcome(c, Snapshot())
    {
      var v: Completion<Value>;
      if s.init.Some? {
        v := Evaluate(s.init.value);
      } else {
        v := Ok(Null);
      }
      if v.Abrupt? {
        return v;
      }
      var value := if v.value.Undefined? || v.value.Null? then Null else v.value;
      env.Define(s.name.lexeme, value);
      c := env.Get(s.name);
    }

    method ExecuteIf(s: Ast.Stmt, fuel: nat) returns (c: Completion<Value>)
      requires s.If?
      modifies this, env
      ensures env == old(env)
      ensures S.ExecuteIf(s, old(Snapshot()), fuel) == S.Outcome(c, Snapshot())
      decreases fuel, Ast.StmtSize(s), 0
    {
      c := Evaluate(s.cond);
      if c.Abrupt? {
        return;
      }
      if IsTruthy(c.value) {
        c := Execute(s.thenBranch, fuel);
      } else if s.elseBranch.Some? {
        c := Execute(s.elseBranch.value, fuel);
      }
      if c.Ok? {
        c := Ok(Null);
      }
    }

    /** `executeBlock`: runs the statements with `scope` as the current environment and puts
        the previous one back, however the statements end. */
    method ExecuteBlock(ss: seq<Ast.Stmt>, scope: Environment, fuel: nat) returns (c: Completion<Value>)
      modifies this, scope
      ensures env == old(env)
      ensures S.ExecuteAll(ss, old(Snapshot()).(env := old(scope.vars)), fuel) == S.Outcome(c, Snapshot().(env := scope.vars))
      decreases fuel, Ast.StmtsSize(ss), 3
    {
      var prev := env;
      env := scope;
      c := ExecuteAll(ss, fuel);
      env := prev;
    }

    /** The statement loop shared by `executeBlock` and `interprete`. */
    method ExecuteAll(ss: seq<Ast.Stmt>, fuel: nat) returns (c: Completion<Value>)
      modifies this, env
      ensures env == old(env)
      ensures S.ExecuteAll(ss, old(Snapshot()), fuel) == S.Outcome(c, Snapshot())
      decreases fuel, Ast.StmtsSize(ss), 2
    {
      ghost var st0 := Snapshot();
      c := Ok(Undefined);
      var i := 0;
      while i < |ss| && c.Ok?
        invariant 0 <= i <= |ss| && env == old(env)
        invariant c.Ok? ==> c == Ok(Undefined) && S.ExecuteAll(ss, st0, fuel) == S.ExecuteAll(ss[i..], Snapshot(), fuel)
        invariant c.Abrupt? ==> S.ExecuteAll(ss, st0, fuel) == S.Outcome(c, Snapshot())
      {
        Ast.StmtsSizeBound(ss, i);
        assert ss[i..][0] == ss[i] && ss[i..][1..] == ss[i + 1..];
        var r := Execute(ss[i], fuel);
        if r.Abrupt? {
          c := r;
        }
        i := i + 1;
      }
      if c.Ok? {
        assert ss[i..] == [];
      }
    }

    /** `visitWhileStmt`: the condition before every iteration, the body while it is truthy. */
    method Loop(cond: Ast.Expr, body: Ast.Stmt, fuel: nat) returns (c: Completion<Value>)
      modifies this, env
      ensures env == old(env)
      ensures S.Loop(cond, body, old(Snapshot()), fuel) == S.Outcome(c, Snapshot())
      decreases fuel, 0, 0
    {
      ghost var st0 := Snapshot();
      var f: nat := fuel;
      var going := true;
      c := Ok(Null);
      while going
        invariant f <= fuel && env == old(env)
        invariant going ==> S.Loop(cond, body, st0, fuel) == S.Loop(cond, body, Snapshot(), f)
        invariant !going ==> S.Loop(cond, body, st0, fuel) == S.Outcome(c, Snapshot())
        decreases f, if going then 1 else 0
      {
        if f == 0 {
          c := Abrupt(OutOfFuel);
          going := false;
        } else {
          c := Evaluate(cond);
          if c.Abrupt? {
            going := false;
          } else if !IsTruthy(c.value) {
            c := Ok(Null);
            going := false;
          } else {
            c := Execute(body, f - 1);
            if c.Abrupt? {
              going := false;
            } else {
              f := f - 1;
            }
          }
        }
      }
    }

    /** `interprete`: the statements in order. Its `catch` of a RuntimeError has no counterpart
        here: no RuntimeError escapes a statement (the contract of InterpSpec.Execute). */
    method Interpret(ss: seq<Ast.Stmt>, fuel: nat) returns (c: Completion<Value>)
      modifies this, env
      ensures env == old(env)
      ensures S.Interpret(ss, old(Snapshot()), fuel) == S.Outcome(c, Snapshot())
    {
      c := ExecuteAll(ss, fuel);
    }
  }
}
