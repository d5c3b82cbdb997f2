/** The resolver as an object: the scope stack, the function and class kinds and the record
    of `resolve` calls are fields its methods update. Each method is proved to do what the
    matching function of ResolveSpec describes. */
module Resolving {
  import opened Tokens
  import opened Ast
  import S = ResolveSpec

  class Resolver {
    var scopes: seq<map<string, bool>>
    var currentFunction: S.FunctionType
    var currentClass: S.ClassType
    /** The `resolve(expr, depth)` calls made on the interpreter, in order. */
    var resolved: seq<S.Resolution>
    var diags: seq<Diagnostic>

    ghost function Snapshot(): S.RState
      reads this
    {
      S.RState(scopes, currentFunction, currentClass, resolved, diags)
    }

    constructor ()
      ensures Snapshot() == S.Initial
    {
      scopes := [];
      currentFunction := S.NoFunction;
      currentClass := S.NoClass;
      resolved := [];
      diags := [];
    }

    method BeginScope()
      modifies this
      ensures Snapshot() == S.BeginScope(old(Snapshot()))
    {
      scopes := scopes + [map[]];
    }

    method EndScope()
      modifies this
      ensures Snapshot() == S.EndScope(old(Snapshot()))
    {
      if scopes != [] {
        scopes := scopes[..|scopes| - 1];
      }
    }

    method Declare(t: Token)
      modifies this
      ensures Snapshot() == S.Declare(old(Snapshot()), t)
    {
      if scopes == [] {
        return;
      }
      var k := |scopes| - 1;
      if t.lexeme in scopes[k] {
        diags := diags + [TokenError(t, S.DuplicateMessage)];
      }
      scopes := scopes[k := scopes[k][t.lexeme := false]];
    }

    method Define(t: Token)
      modifies this
      ensures Snapshot() == S.Define(old(Snapshot()), t)
    {
      if scopes == [] {
        return;
      }
      var k := |scopes| - 1;
      scopes := scopes[k := scopes[k][t.lexeme := true]];
    }

    /** `resolveLocal`: the index runs from the innermost scope down to the outermost and every
        scope holding the name gives a `resolve` call. */
    method ResolveLocal(e: Expr, t: Token)
      modifies this
      ensures Snapshot() == S.ResolveLocal(old(Snapshot()), e, t)
    {
      var k := |scopes|;
      while k > 0
        invariant 0 <= k <= |scopes| && scopes == old(scopes)
        invariant old(resolved) + S.Hops(scopes, e, t.lexeme, |scopes|) == resolved + S.Hops(scopes, e, t.lexeme, k)
        invariant unchanged(this`currentFunction, this`currentClass, this`diags)
      {
        if t.lexeme in scopes[k - 1] {
          resolved := resolved + [S.Resolution(e, |scopes| - k)];
        }
        k := k - 1;
      }
    }

    method ResolveExpr(e: Expr) returns (r: S.Status)
      modifies this
      ensures S.ResolveExpr(e, old(Snapshot())) == S.ROut(r, Snapshot())
      decreases ExprSize(e), 1
    {
      match e
      case Binary(l, _, rhs) =>
        r := ResolveExpr(l);
        if r.Done? {
          r := ResolveExpr(rhs);
        }
      case Grouping(x) => r := ResolveExpr(x);
      case Literal(_) => r := S.Done;
      case Unary(_, x) => r := ResolveExpr(x);
      case Variable(t) =>
        if scopes != [] && t.lexeme in scopes[|scopes| - 1] && !scopes[|scopes| - 1][t.lexeme] {
          diags := diags + [TokenError(t, S.OwnInitializerMessage)];
        }
        ResolveLocal(e, t);
        r := S.Done;
      case Assignment(t, v) =>
        if v.None? {
          r := S.Crash;
        } else {
          r := ResolveExpr(v.value);
          if r.Done? {
            ResolveLocal(e, t);
          }
        }
      case Logical(l, _, rhs) =>
        r := ResolveExpr(l);
        if r.Done? {
          r := ResolveExpr(rhs);
        }
      case Call(_, _, _) => r := ResolveCall(e);
      case Get(x, _) => r := ResolveExpr(x);
      case Set(x, _, v) =>
        r := ResolveExpr(x);
        if r.Done? {
          r := ResolveExpr(v);
        }
      case This(kw) =>
        if currentClass.NoClass? {
          diags := diags + [TokenError(kw, S.ThisOutsideMessage)];
        }
        ResolveLocal(e, kw);
        r := S.Done;
    }

    /** `visitCallExpr`: the callee, then a loop over the arguments. */
    method ResolveCall(e: Expr) returns (r: S.Status)
      requires e.Call?
      modifies this
      ensures S.ResolveExpr(e, old(Snapshot())) == S.ROut(r, Snapshot())
      decreases ExprSize(e), 0
    {
      r := ResolveExpr(e.callee);
      if !r.Done? {
        return;
      }
      ghost var st1 := Snapshot();
      var i := 0;
      while i < |e.args| && r.Done?
        invariant 0 <= i <= |e.args|
        invariant r.Done? ==> S.ResolveExprs(e.args, st1) == S.ResolveExprs(e.args[i..], Snapshot())
        invariant !r.Done? ==> S.ResolveExprs(e.args, st1) == S.ROut(r, Snapshot())
      {
        ExprsSizeBound(e.args, i);
        assert e.args[i..][0] == e.args[i] && e.args[i..][1..] == e.args[i + 1..];
        r := ResolveExpr(e.args[i]);
        i := i + 1;
      }
      if r.Done? {
        assert e.args[i..] == [];
      }
    }

    method ResolveStmt(s: Stmt, fuel: nat) returns (r: S.Status)
      modifies this
      ensures S.ResolveStmt(s, old(Snapshot()), fuel) == S.ROut(r, Snapshot())
      decreases fuel, StmtSize(s), 2
    {
      match s
      case Block(_) => r := ResolveBlock(s, fuel);
      case Var(_, _) => r := ResolveVar(s);
      case Class(_, _) => r := ResolveClass(s, fuel);
      case Function(_) => r := ResolveFunctionStmt(s, fuel);
      case Expression(x) => r := ResolveExpr(x);
      case Print(x) => r := ResolveExpr(x);
      case If(_, _, _) => r := ResolveIf(s, fuel);
      case Return(_, _) => r := ResolveReturn(s);
      case While(_, _) => r := ResolveWhile(s, fuel);
    }

    method ResolveFunctionStmt(s: Stmt, fuel: nat) returns (r: S.Status)
      requires s.Function?
      modifies this
      ensures S.ResolveFunctionStmt(s, old(Snapshot()), fuel) == S.ROut(r, Snapshot())
      decreases fuel, StmtSize(s), 1
    {
      Declare(s.decl.name);
      Define(s.decl.name);
      r := ResolveFunction(s.decl, S.InFunction, fuel);
    }

    method ResolveReturn(s: Stmt) returns (r: S.Status)
      requires s.Return?
      modifies this
      ensures S.ResolveReturn(s, old(Snapshot())) == S.ROut(r, Snapshot())
    {
      if currentFunction.NoFunction? {
        diags := diags + [TokenError(s.keyword, S.TopLevelReturnMessage)];
      }
      if s.result.Some? {
        r := ResolveExpr(s.result.value);
      } else {
        r := S.Done;
      }
    }

    method ResolveWhile(s: Stmt, fuel: nat) returns (r: S.Status)
      requires s.While?
      modifies this
      ensures S.ResolveWhile(s, old(Snapshot()), fuel) == S.ROut(r, Snapshot())
      decreases fuel, StmtSize(s), 1
    {
      r := ResolveExpr(s.cond);
      if r.Done? {
        r := ResolveStmt(s.body, fuel);
      }
    }

    /** `visitBlockStmt`: begins a scope and resolves the very same block again. */
    method ResolveBlock(s: Stmt, fuel: nat) returns (r: S.Status)
      requires s.Block?
      modifies this
      ensures S.ResolveBlock(s, old(Snapshot()), fuel) == S.ROut(r, Snapshot())
      decreases fuel, StmtSize(s), 1
    {
      if fuel == 0 {
        return S.Overflow;
      }
      BeginScope();
      r := ResolveStmt(s, fuel - 1);
      if r.Done? {
        EndScope();
      }
    }

    method ResolveVar(s: Stmt) returns (r: S.Status)
      requires s.Var?
      modifies this
      ensures S.ResolveVar(s, old(Snapshot())) == S.ROut(r, Snapshot())
    {
      Declare(s.name);
      if s.init.Some? {
        r := ResolveExpr(s.init.value);
        if !r.Done? {
          return;
        }
      }
      Define(s.name);
      r := S.Done;
    }

    method ResolveClass(s: Stmt, fuel: nat) returns (r: S.Status)
      requires s.Class?
      modifies this
      ensures S.ResolveClass(s, old(Snapshot()), fuel) == S.ROut(r, Snapshot())
      decreases fuel, StmtSize(s), 1
    {
      var enclosing := currentClass;
      OpenClass(s.name);
      r := ResolveMethods(s.methods, fuel);
      if r.Done? {
        EndScope();
        currentClass := enclosing;
      }
    }

    method OpenClass(name: Token)
      modifies this
      ensures Snapshot() == S.OpenClass(old(Snapshot()), name)
    {
      currentClass := S.InClass;
      Declare(name);
      Define(name);
      BeginScope();
      var k := |scopes| - 1;
      scopes := scopes[k := scopes[k]["this" := true]];
    }

    /** The loop of `visitClassStmt` over the methods, each resolved as a method. */
    method ResolveMethods(ms: seq<FunctionDecl>, fuel: nat) returns (r: S.Status)
      modifies this
      ensures S.ResolveMethods(ms, old(Snapshot()), fuel) == S.ROut(r, Snapshot())
      decreases fuel, DeclsSize(ms), 2
    {
      ghost var st0 := Snapshot();
      r := S.Done;
      var i := 0;
      while i < |ms| && r.Done?
        invariant 0 <= i <= |ms|
        invariant r.Done? ==> S.ResolveMethods(ms, st0, fuel) == S.ResolveMethods(ms[i..], Snapshot(), fuel)
        invariant !r.Done? ==> S.ResolveMethods(ms, st0, fuel) == S.ROut(r, Snapshot())
      {
        DeclsSizeBound(ms, i);
        assert ms[i..][0] == ms[i] && ms[i..][1..] == ms[i + 1..];
        r := ResolveFunction(ms[i], S.InMethod, fuel);
        i := i + 1;
      }
      if r.Done? {
        assert ms[i..] == [];
      }
    }

    method ResolveIf(s: Stmt, fuel: nat) returns (r: S.Status)
      requires s.If?
      modifies this
      ensures S.ResolveIf(s, old(Snapshot()), fuel) == S.ROut(r, Snapshot())
      decreases fuel, StmtSize(s), 1
    {
      r := ResolveStmt(s.thenBranch, fuel);
      if !r.Done? {
        return;
      }
      r := ResolveExpr(s.cond);
      if r.Done? && s.elseBranch.Some? {
        r := ResolveStmt(s.elseBranch.value, fuel);
      }
    }

    /** `resolveManyStmt`. */
    method ResolveAll(ss: seq<Stmt>, fuel: nat) returns (r: S.Status)
      modifies this
      ensures S.ResolveAll(ss, old(Snapshot()), fuel) == S.ROut(r, Snapshot())
      decreases fuel, StmtsSize(ss), 3
    {
      ghost var st0 := Snapshot();
      r := S.Done;
      var i := 0;
      while i < |ss| && r.Done?
        invariant 0 <= i <= |ss|
        invariant r.Done? ==> S.ResolveAll(ss, st0, fuel) == S.ResolveAll(ss[i..], Snapshot(), fuel)
        invariant !r.Done? ==> S.ResolveAll(ss, st0, fuel) == S.ROut(r, Snapshot())
      {
        StmtsSizeBound(ss, i);
        assert ss[i..][0] == ss[i] && ss[i..][1..] == ss[i + 1..];
        r := ResolveStmt(ss[i], fuel);
        i := i + 1;
      }
      if r.Done? {
        assert ss[i..] == [];
      }
    }

    /** `resolveFunction`: a scope for the parameters and the body, with the function kind set
        for the body and put back afterwards. */
    method ResolveFunction(d: FunctionDecl, kind: S.FunctionType, fuel: nat) returns (r: S.Status)
      modifies this
      ensures S.ResolveFunction(d, kind, old(Snapshot()), fuel) == S.ROut(r, Snapshot())
      decreases fuel, DeclSize(d), 0
    {
      var enclosing := currentFunction;
      currentFunction := kind;
      BeginScope();
      ghost var st1 := Snapshot();
      var i := 0;
      while i < |d.params|
        invariant 0 <= i <= |d.params| && scopes != []
        invariant S.DeclareParams(d.params, st1) == S.DeclareParams(d.params[i..], Snapshot())
      {
        assert d.params[i..][0] == d.params[i] && d.params[i..][1..] == d.params[i + 1..];
        Declare(d.params[i]);
        Define(d.params[i]);
        i := i + 1;
      }
      assert d.params[i..] == [];
      r := ResolveAll(d.body, fuel);
      if r.Done? {
        EndScope();
        currentFunction := enclosing;
      }
    }
  }
}
