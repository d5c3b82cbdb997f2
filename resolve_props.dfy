/** Properties of the resolver: blocks never finish, the depths `resolveLocal` reports, the
    errors it raises and the scope stack it leaves behind. */
module ResolveProps {
  import opened Tokens
  import opened Wrappers
  import opened Ast
  import opened ResolveSpec

  /** Whatever budget it is given, a block never finishes resolving: each level begins a new
      scope and resolves the same block again. */
  lemma {:induction false} BlockNeverEnds(ss: seq<Stmt>, st: RState, fuel: nat)
    ensures ResolveStmt(Block(ss), st, fuel).status == Overflow
    decreases fuel
  {
    if fuel > 0 {
      BlockNeverEnds(ss, BeginScope(st), fuel - 1);
    }
  }

  /** The depths reported while scanning the scopes below index `k`: each names a scope that
      holds the name, at its distance from the innermost scope; and every such scope is
      reported. */
  lemma {:induction false} HopsExact(scopes: seq<map<string, bool>>, e: Expr, name: string, k: nat)
    requires k <= |scopes|
    ensures forall j :: 0 <= j < |Hops(scopes, e, name, k)| ==>
      var h := Hops(scopes, e, name, k)[j];
      h.expr == e && |scopes| - k <= h.depth < |scopes| && name in scopes[|scopes| - 1 - h.depth]
    ensures forall idx :: 0 <= idx < k && name in scopes[idx] ==>
      Resolution(e, |scopes| - 1 - idx) in Hops(scopes, e, name, k)
    decreases k
  {
    if k > 0 {
      HopsExact(scopes, e, name, k - 1);
    }
  }

  /** The depths are reported innermost first: they strictly increase, so the outermost
      match is the last `resolve` call. */
  lemma {:induction false} HopsInnermostFirst(scopes: seq<map<string, bool>>, e: Expr, name: string, k: nat)
    requires k <= |scopes|
    ensures forall i, j :: 0 <= i < j < |Hops(scopes, e, name, k)| ==>
      Hops(scopes, e, name, k)[i].depth < Hops(scopes, e, name, k)[j].depth
    decreases k
  {
    if k > 0 {
      HopsInnermostFirst(scopes, e, name, k - 1);
      HopsExact(scopes, e, name, k - 1);
    }
  }

  /** A name no scope holds is resolved nowhere: it is left to the globals. */
  lemma {:induction false} UnboundNameNotResolved(scopes: seq<map<string, bool>>, e: Expr, name: string, k: nat)
    requires k <= |scopes|
    requires forall idx :: 0 <= idx < k ==> name !in scopes[idx]
    ensures Hops(scopes, e, name, k) == []
    decreases k
  {
    if k > 0 {
      UnboundNameNotResolved(scopes, e, name, k - 1);
    }
  }

  /** Setting the same entry of the innermost scope twice keeps the second value only. */
  lemma {:induction false} SetTopTwice(st: RState, name: string, a: bool, b: bool)
    requires st.scopes != []
    ensures SetTop(SetTop(st, name, a), name, b) == SetTop(st, name, b)
  {
    var k := |st.scopes| - 1;
    assert st.scopes[k][name := a][name := b] == st.scopes[k][name := b];
    assert st.scopes[k := st.scopes[k][name := a]][k := st.scopes[k][name := b]] == st.scopes[k := st.scopes[k][name := b]];
  }

  /** A second declaration of a name in the same local scope is reported once, at the second
      declaration; the name ends up defined. */
  lemma {:induction false} DuplicateLocalDeclaration(t: Token, u: Token, st: RState, fuel: nat)
    requires st.scopes != [] && t.lexeme == u.lexeme && t.lexeme !in st.scopes[|st.scopes| - 1]
    ensures var o := ResolveAll([Var(t, None), Var(u, None)], st, fuel);
      o == ROut(Done, SetTop(st, t.lexeme, true).(diags := st.diags + [TokenError(u, DuplicateMessage)]))
  {
    var st1 := SetTop(st, t.lexeme, true);
    SetTopTwice(st, t.lexeme, false, true);
    assert Declare(st, t) == SetTop(st, t.lexeme, false);
    assert ResolveVar(Var(t, None), st) == ROut(Done, st1);
    var rep := Report(st1, u, DuplicateMessage);
    SetTopTwice(rep, t.lexeme, false, true);
    assert Declare(st1, u) == SetTop(rep, t.lexeme, false);
    SetTopTwice(st, t.lexeme, true, true);
    var st2 := SetTop(st, t.lexeme, true).(diags := st.diags + [TokenError(u, DuplicateMessage)]);
    assert SetTop(rep, t.lexeme, true) == st2;
    assert ResolveVar(Var(u, None), st1) == ROut(Done, st2);
    var ss := [Var(t, None), Var(u, None)];
    assert ss[1..] == [Var(u, None)] && ss[1..][1..] == [];
    assert ResolveAll(ss[1..], st1, fuel) == ROut(Done, st2);
  }

  /** At global scope declarations leave no trace: no scope changes and nothing is reported. */
  lemma {:induction false} GlobalDeclarationsUntracked(t: Token, st: RState, fuel: nat)
    requires st.scopes == []
    ensures ResolveStmt(Var(t, None), st, fuel) == ROut(Done, st)
  {
  }

  /** `var a = a;` in a local scope reports the read of the variable in its own initialiser
      and resolves that read to the innermost scope. */
  lemma {:induction false} OwnInitializerReported(t: Token, u: Token, st: RState, fuel: nat)
    requires st.scopes != [] && t.lexeme == u.lexeme
    ensures var o := ResolveStmt(Var(t, Some(Variable(u))), st, fuel);
      o.status == Done && o.st.diags[|o.st.diags| - 1] == TokenError(u, OwnInitializerMessage)
      && o.st.resolved[|st.resolved|] == Resolution(Variable(u), 0)
  {
    var st1 := Declare(st, t);
    assert Uninitialised(st1, u.lexeme);
    var st2 := Report(st1, u, OwnInitializerMessage);
    var n := |st2.scopes|;
    assert Hops(st2.scopes, Variable(u), u.lexeme, n)[0] == Resolution(Variable(u), 0);
    assert ResolveExpr(Variable(u), st1) == ROut(Done, ResolveLocal(st2, Variable(u), u));
  }

  /** The same declaration at global scope is accepted and resolves nothing. */
  lemma {:induction false} OwnInitializerAtGlobalScope(t: Token, u: Token, st: RState, fuel: nat)
    requires st.scopes == []
    ensures ResolveStmt(Var(t, Some(Variable(u))), st, fuel) == ROut(Done, st)
  {
    assert Hops([], Variable(u), u.lexeme, 0) == [];
    assert ResolveExpr(Variable(u), st) == ROut(Done, st);
  }

  /** A `return` outside every function is reported and the resolution goes on; inside a
      function it is accepted. */
  lemma {:induction false} ReturnOutsideFunction(kw: Token, st: RState, fuel: nat)
    ensures st.fn == NoFunction ==> ResolveStmt(Return(kw, None), st, fuel) == ROut(Done, Report(st, kw, TopLevelReturnMessage))
    ensures st.fn != NoFunction ==> ResolveStmt(Return(kw, None), st, fuel) == ROut(Done, st)
  {
  }

  /** A parameter read in a top-level function body resolves to the function's own scope
      (depth 0), and the function leaves the stack empty and reports nothing. */
  lemma {:induction false} ParameterResolvesToFunctionScope(f: Token, p: Token, q: Token, st: RState, fuel: nat)
    requires st.scopes == [] && p.lexeme == q.lexeme
    ensures ResolveStmt(Function(FunctionDecl(f, [p], [Expression(Variable(q))])), st, fuel)
         == ROut(Done, st.(resolved := st.resolved + [Resolution(Variable(q), 0)]))
  {
    var d := FunctionDecl(f, [p], [Expression(Variable(q))]);
    assert Define(Declare(st, f), f) == st;
    ParameterBody(d, p, q, st, fuel);
    assert ResolveStmt(Function(d), st, fuel) == ResolveFunctionStmt(Function(d), st, fuel);
  }

  /** The body of the function above, resolved from an empty stack. */
  lemma {:induction false} ParameterBody(d: FunctionDecl, p: Token, q: Token, st: RState, fuel: nat)
    requires st.scopes == [] && p.lexeme == q.lexeme && d.params == [p] && d.body == [Expression(Variable(q))]
    ensures ResolveFunction(d, InFunction, st, fuel) == ROut(Done, st.(resolved := st.resolved + [Resolution(Variable(q), 0)]))
  {
    var st0 := BeginScope(st.(fn := InFunction));
    var st1 := SetTop(st0, p.lexeme, true);
    assert Declare(st0, p) == SetTop(st0, p.lexeme, false);
    SetTopTwice(st0, p.lexeme, false, true);
    assert DeclareParams([p], st0) == st1 by {
      assert [p][1..] == [];
      assert DeclareParams([], st1) == st1;
    }
    assert st1.scopes == [map[p.lexeme := true]];
    assert Hops(st1.scopes, Variable(q), q.lexeme, 1) == [Resolution(Variable(q), 0)];
    var st2 := st1.(resolved := st.resolved + [Resolution(Variable(q), 0)]);
    assert ResolveExpr(Variable(q), st1) == ROut(Done, st2);
    assert [Expression(Variable(q))][1..] == [];
    assert ResolveAll(d.body, st1, fuel) == ROut(Done, st2);
  }

  /** Inside a method `this` is accepted and resolves to the class's scope, one above the
      method's own. */
  lemma {:induction false} ThisInsideMethod(c: Token, m: Token, kw: Token, st: RState, fuel: nat)
    requires st.scopes == [] && kw.lexeme == "this"
    ensures ResolveStmt(Class(c, [FunctionDecl(m, [], [Expression(This(kw))])]), st, fuel)
         == ROut(Done, st.(resolved := st.resolved + [Resolution(This(kw), 1)]))
  {
    var s := Class(c, [FunctionDecl(m, [], [Expression(This(kw))])]);
    var st2 := OpenClassOnEmpty(st, c);
    var st5 := st2.(resolved := st.resolved + [Resolution(This(kw), 1)]);
    OneMethod(s.methods[0], kw, st2, fuel);
    assert ResolveStmt(s, st, fuel) == ResolveClass(s, st, fuel);
    assert EndScope(st5).(cls := st.cls) == st.(resolved := st.resolved + [Resolution(This(kw), 1)]);
  }

  /** Opening a class at the top level leaves one scope, holding `this`. */
  lemma {:induction false} OpenClassOnEmpty(st: RState, c: Token) returns (st2: RState)
    requires st.scopes == []
    ensures st2 == OpenClass(st, c) && st2 == st.(cls := InClass, scopes := [map["this" := true]])
  {
    st2 := OpenClass(st, c);
    assert st2 == SetTop(BeginScope(st.(cls := InClass)), "this", true);
  }

  /** A class of that one method resolves its body and nothing else. */
  lemma {:induction false} OneMethod(d: FunctionDecl, kw: Token, st: RState, fuel: nat)
    requires st.scopes == [map["this" := true]] && st.cls == InClass
    requires kw.lexeme == "this" && d.params == [] && d.body == [Expression(This(kw))]
    ensures ResolveMethods([d], st, fuel) == ROut(Done, st.(resolved := st.resolved + [Resolution(This(kw), 1)]))
  {
    var st5 := st.(resolved := st.resolved + [Resolution(This(kw), 1)]);
    MethodBody(d, kw, st, fuel);
    assert [d][1..] == [];
    assert ResolveMethods([d][1..], st5, fuel) == ROut(Done, st5);
  }

  /** The method above, resolved in the class scope that holds `this`. */
  lemma {:induction false} MethodBody(d: FunctionDecl, kw: Token, st: RState, fuel: nat)
    requires st.scopes == [map["this" := true]] && st.cls == InClass
    requires kw.lexeme == "this" && d.params == [] && d.body == [Expression(This(kw))]
    ensures ResolveFunction(d, InMethod, st, fuel) == ROut(Done, st.(resolved := st.resolved + [Resolution(This(kw), 1)]))
  {
    var st3 := BeginScope(st.(fn := InMethod));
    assert DeclareParams([], st3) == st3;
    assert st3.scopes == [map["this" := true], map[]];
    assert Hops(st3.scopes, This(kw), kw.lexeme, 2) == [Resolution(This(kw), 1)] by {
      assert Hops(st3.scopes, This(kw), kw.lexeme, 1) == [Resolution(This(kw), 1)];
    }
    var st4 := st3.(resolved := st.resolved + [Resolution(This(kw), 1)]);
    assert ResolveExpr(This(kw), st3) == ROut(Done, st4);
    assert [Expression(This(kw))][1..] == [];
    assert ResolveAll(d.body, st3, fuel) == ROut(Done, st4);
  }

  /** Outside every class `this` is reported. */
  lemma {:induction false} ThisOutsideClass(kw: Token, st: RState)
    requires st.cls == NoClass
    ensures ResolveExpr(This(kw), st).st.diags == st.diags + [TokenError(kw, ThisOutsideMessage)]
  {
  }

  /** Resolution is conservative: the branch of an `if` that can never run is resolved too. */
  lemma {:induction false} DeadBranchResolved(t: Token, st: RState, fuel: nat)
    requires |st.scopes| == 1 && t.lexeme in st.scopes[0] && st.scopes[0][t.lexeme]
    ensures ResolveStmt(If(Literal(LBool(false)), Expression(Variable(t)), None), st, fuel)
         == ROut(Done, st.(resolved := st.resolved + [Resolution(Variable(t), 0)]))
  {
    assert Hops(st.scopes, Variable(t), t.lexeme, 1) == [Resolution(Variable(t), 0)];
    var st1 := st.(resolved := st.resolved + [Resolution(Variable(t), 0)]);
    assert ResolveExpr(Variable(t), st) == ROut(Done, st1);
    assert ResolveStmt(Expression(Variable(t)), st, fuel) == ROut(Done, st1);
    assert ResolveExpr(Literal(LBool(false)), st1) == ROut(Done, st1);
  }

  /** An assignment whose value is missing crashes the resolver. */
  lemma {:induction false} AssignmentWithoutValueCrashes(t: Token, st: RState, fuel: nat)
    ensures ResolveStmt(Expression(Assignment(t, None)), st, fuel) == ROut(Crash, st)
  {
  }

  /** A whole program resolved from the initial state that finishes leaves no scope open and
      is again outside every function and class. */
  lemma {:induction false} ProgramLeavesStackEmpty(ss: seq<Stmt>, fuel: nat)
    ensures var o := ResolveAll(ss, Initial, fuel);
      o.status == Done ==> o.st.scopes == [] && o.st.fn == NoFunction && o.st.cls == NoClass
  {
  }
}
