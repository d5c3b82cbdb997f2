/** What the resolver's visitors do, as functions of the tree and the resolver's state: the
    stack of scopes (each a map from a name to "initialised"), the kind of function and class
    being resolved, the `resolve(expr, depth)` calls it makes on the interpreter, and the
    errors it reports. */
module ResolveSpec {
  import opened Tokens
  import opened Wrappers
  import opened Ast

  datatype FunctionType = NoFunction | InFunction | InMethod

  datatype ClassType = NoClass | InClass

  /** One `resolve(expr, depth)` call on the interpreter. */
  datatype Resolution = Resolution(expr: Expr, depth: nat)

  /** How a resolver call ends: normally, with a TypeError (resolving a missing node), or with
      the stack overflow of a recursion that does not end. */
  datatype Status = Done | Crash | Overflow

  datatype RState = RState(
    scopes: seq<map<string, bool>>,
    fn: FunctionType,
    cls: ClassType,
    resolved: seq<Resolution>,
    diags: seq<Diagnostic>)

  /** The status of a call and the state where it stopped. */
  datatype ROut = ROut(status: Status, st: RState)

  const DuplicateMessage := "Already a variable with this name in this scope."
  const OwnInitializerMessage := "Can't read local variable in its own initializer."
  const TopLevelReturnMessage := "Cant return from top-level code."
  const ThisOutsideMessage := "Can't use 'this' outside of a class"

  /** The state after the constructor: no scope, outside any function and class. */
  const Initial := RState([], NoFunction, NoClass, [], [])

  /** From `st` to `st'` the resolutions and the log only grew. */
  predicate Grows(st: RState, st': RState)
  {
    st.resolved <= st'.resolved && st.diags <= st'.diags
  }

  /** The two stacks have the same height and agree on every scope but the innermost. */
  predicate SameBelowTop(a: seq<map<string, bool>>, b: seq<map<string, bool>>)
  {
    |a| == |b| && (|a| > 0 ==> a[..|a| - 1] == b[..|b| - 1])
  }

  /** `error(token, message)`. */
  function Report(st: RState, t: Token, m: string): RState
  {
    st.(diags := st.diags + [TokenError(t, m)])
  }

  /** `beginScope`: push an empty map. */
  function BeginScope(st: RState): RState
  {
    st.(scopes := st.scopes + [map[]])
  }

  /** `endScope`: pop the innermost map (popping an empty stack changes nothing). */
  function EndScope(st: RState): RState
  {
    if st.scopes == [] then st else st.(scopes := st.scopes[..|st.scopes| - 1])
  }

  /** Set one entry of the innermost map. */
  function SetTop(st: RState, name: string, initialised: bool): (r: RState)
    requires st.scopes != []
    ensures SameBelowTop(r.scopes, st.scopes)
  {
    var k := |st.scopes| - 1;
    st.(scopes := st.scopes[k := st.scopes[k][name := initialised]])
  }

  /** `declare`: nothing on an empty stack; otherwise a name already in the innermost scope is
      reported, and the name is mapped to false there. */
  function Declare(st: RState, t: Token): (r: RState)
    ensures SameBelowTop(r.scopes, st.scopes) && r.fn == st.fn && r.cls == st.cls && Grows(st, r)
  {
    if st.scopes == [] then st
    else
      var st' := if t.lexeme in st.scopes[|st.scopes| - 1] then Report(st, t, DuplicateMessage) else st;
      SetTop(st', t.lexeme, false)
  }

  /** `define`: nothing on an empty stack; otherwise the name is mapped to true in the innermost
      scope. */
  function Define(st: RState, t: Token): (r: RState)
    ensures SameBelowTop(r.scopes, st.scopes) && r.fn == st.fn && r.cls == st.cls && Grows(st, r)
  {
    if st.scopes == [] then st else SetTop(st, t.lexeme, true)
  }

  /** The calls `resolveLocal` makes for `e` while its index runs from `k - 1` down to 0: one
      for every scope holding the name, with the number of scopes above it as the depth. */
  function Hops(scopes: seq<map<string, bool>>, e: Expr, name: string, k: nat): seq<Resolution>
    requires k <= |scopes|
    decreases k
  {
    if k == 0 then []
    else (if name in scopes[k - 1] then [Resolution(e, |scopes| - k)] else []) + Hops(scopes, e, name, k - 1)
  }

  /** `resolveLocal`: every scope of the stack, innermost first. */
  function ResolveLocal(st: RState, e: Expr, t: Token): RState
  {
    st.(resolved := st.resolved + Hops(st.scopes, e, t.lexeme, |st.scopes|))
  }

  /** The innermost scope maps the name to false: it is declared there and not yet defined. */
  predicate Uninitialised(st: RState, name: string)
  {
    st.scopes != [] && name in st.scopes[|st.scopes| - 1] && !st.scopes[|st.scopes| - 1][name]
  }

  /** `resolveExpr`: the expression visitors. None of them touches the scope stack; an
      assignment without a value crashes on the missing node. */
  function ResolveExpr(e: Expr, st: RState): (o: ROut)
    ensures o.st.scopes == st.scopes && o.st.fn == st.fn && o.st.cls == st.cls && Grows(st, o.st)
    ensures !o.status.Overflow?
    decreases ExprSize(e), 1
  {
    match e
    case Binary(l, _, r) =>
      var o := ResolveExpr(l, st);
      if !o.status.Done? then o else ResolveExpr(r, o.st)
    case Grouping(x) => ResolveExpr(x, st)
    case Literal(_) => ROut(Done, st)
    case Unary(_, x) => ResolveExpr(x, st)
    case Variable(t) =>
      var st' := if Uninitialised(st, t.lexeme) then Report(st, t, OwnInitializerMessage) else st;
      ROut(Done, ResolveLocal(st', e, t))
    case Assignment(t, v) =>
      if v.None? then ROut(Crash, st)
      else
        var o := ResolveExpr(v.value, st);
        if !o.status.Done? then o else ROut(Done, ResolveLocal(o.st, e, t))
    case Logical(l, _, r) =>
      var o := ResolveExpr(l, st);
      if !o.status.Done? then o else ResolveExpr(r, o.st)
    case Call(callee, _, args) =>
      var o := ResolveExpr(callee, st);
      if !o.status.Done? then o else ResolveExprs(args, o.st)
    case Get(x, _) => ResolveExpr(x, st)
    case Set(x, _, v) =>
      var o := ResolveExpr(x, st);
      if !o.status.Done? then o else ResolveExpr(v, o.st)
    case This(kw) =>
      var st' := if st.cls.NoClass? then Report(st, kw, ThisOutsideMessage) else st;
      ROut(Done, ResolveLocal(st', e, kw))
  }

  /** The loop over a call's arguments. */
  function ResolveExprs(es: seq<Expr>, st: RState): (o: ROut)
    ensures o.st.scopes == st.scopes && o.st.fn == st.fn && o.st.cls == st.cls && Grows(st, o.st)
    ensures !o.status.Overflow?
    decreases ExprsSize(es), 2
  {
    if es == [] then ROut(Done, st)
    else
      var o := ResolveExpr(es[0], st);
      if !o.status.Done? then o else ResolveExprs(es[1..], o.st)
  }

  /** `resolveStmt`: the statement visitors. A block pushes a scope and resolves the block
      itself again, so each level spends one unit of `fuel` and an empty budget stands for the
      overflow. A statement that ends normally changes at most the innermost scope. */
  function ResolveStmt(s: Stmt, st: RState, fuel: nat): (o: ROut)
    ensures Grows(st, o.st)
    ensures o.status.Done? ==> SameBelowTop(o.st.scopes, st.scopes) && o.st.fn == st.fn && o.st.cls == st.cls
    decreases fuel, StmtSize(s), 2
  {
    match s
    case Block(_) => ResolveBlock(s, st, fuel)
    case Var(_, _) => ResolveVar(s, st)
    case Class(_, _) => ResolveClass(s, st, fuel)
    case Function(_) => ResolveFunctionStmt(s, st, fuel)
    case Expression(e) => ResolveExpr(e, st)
    case Print(e) => ResolveExpr(e, st)
    case If(_, _, _) => ResolveIf(s, st, fuel)
    case Return(_, _) => ResolveReturn(s, st)
    case While(_, _) => ResolveWhile(s, st, fuel)
  }

  /** `visitFunctionStmt`: the name declared and defined, then the function resolved. */
  function ResolveFunctionStmt(s: Stmt, st: RState, fuel: nat): (o: ROut)
    requires s.Function?
    ensures Grows(st, o.st)
    ensures o.status.Done? ==> SameBelowTop(o.st.scopes, st.scopes) && o.st.fn == st.fn && o.st.cls == st.cls
    decreases fuel, StmtSize(s), 1
  {
    ResolveFunction(s.decl, InFunction, Define(Declare(st, s.decl.name), s.decl.name), fuel)
  }

  /** `visitReturnStmt`: an error outside any function, then the value if there is one. */
  function ResolveReturn(s: Stmt, st: RState): (o: ROut)
    requires s.Return?
    ensures Grows(st, o.st)
    ensures o.status.Done? ==> SameBelowTop(o.st.scopes, st.scopes) && o.st.fn == st.fn && o.st.cls == st.cls
  {
    var st' := if st.fn.NoFunction? then Report(st, s.keyword, TopLevelReturnMessage) else st;
    if s.result.Some? then ResolveExpr(s.result.value, st') else ROut(Done, st')
  }

  /** `visitWhileStmt`: the condition, then the body. */
  function ResolveWhile(s: Stmt, st: RState, fuel: nat): (o: ROut)
    requires s.While?
    ensures Grows(st, o.st)
    ensures o.status.Done? ==> SameBelowTop(o.st.scopes, st.scopes) && o.st.fn == st.fn && o.st.cls == st.cls
    decreases fuel, StmtSize(s), 1
  {
    var o := ResolveExpr(s.cond, st);
    if !o.status.Done? then o else ResolveStmt(s.body, o.st, fuel)
  }

  /** `visitBlockStmt`: a new scope, then the block itself once more. */
  function ResolveBlock(s: Stmt, st: RState, fuel: nat): (o: ROut)
    requires s.Block?
    ensures Grows(st, o.st)
    ensures o.status.Done? ==> SameBelowTop(o.st.scopes, st.scopes) && o.st.fn == st.fn && o.st.cls == st.cls
    decreases fuel, StmtSize(s), 1
  {
    if fuel == 0 then ROut(Overflow, st)
    else
      var o := ResolveStmt(s, BeginScope(st), fuel - 1);
      if !o.status.Done? then o else ROut(Done, EndScope(o.st))
  }

  /** `visitVarStmt`: declared, then the initialiser, then defined. */
  function ResolveVar(s: Stmt, st: RState): (o: ROut)
    requires s.Var?
    ensures Grows(st, o.st)
    ensures o.status.Done? ==> SameBelowTop(o.st.scopes, st.scopes) && o.st.fn == st.fn && o.st.cls == st.cls
  {
    var st1 := Declare(st, s.name);
    var o := if s.init.Some? then ResolveExpr(s.init.value, st1) else ROut(Done, st1);
    if !o.status.Done? then o else ROut(Done, Define(o.st, s.name))
  }

  /** `visitClassStmt`: the name declared and defined, then a scope holding `this` for the
      methods; the enclosing class kind is put back. */
  function ResolveClass(s: Stmt, st: RState, fuel: nat): (o: ROut)
    requires s.Class?
    ensures Grows(st, o.st)
    ensures o.status.Done? ==> SameBelowTop(o.st.scopes, st.scopes) && o.st.fn == st.fn && o.st.cls == st.cls
    decreases fuel, StmtSize(s), 1
  {
    var st2 := OpenClass(st, s.name);
    var o := ResolveMethods(s.methods, st2, fuel);
    if !o.status.Done? then o else ROut(Done, EndScope(o.st).(cls := st.cls))
  }

  /** The start of `visitClassStmt`: inside a class, the name declared and defined, and a new
      scope in which `this` is defined. */
  function OpenClass(st: RState, name: Token): (r: RState)
    ensures |r.scopes| == |st.scopes| + 1 && SameBelowTop(r.scopes[..|st.scopes|], st.scopes)
    ensures r.fn == st.fn && r.cls == InClass && Grows(st, r)
  {
    var st1 := Define(Declare(st.(cls := InClass), name), name);
    SetTop(BeginScope(st1), "this", true)
  }

  /** `visitIfStmt`: the then-branch, the condition, then the else-branch, all unconditionally. */
  function ResolveIf(s: Stmt, st: RState, fuel: nat): (o: ROut)
    requires s.If?
    ensures Grows(st, o.st)
    ensures o.status.Done? ==> SameBelowTop(o.st.scopes, st.scopes) && o.st.fn == st.fn && o.st.cls == st.cls
    decreases fuel, StmtSize(s), 1
  {
    var o1 := ResolveStmt(s.thenBranch, st, fuel);
    if !o1.status.Done? then o1
    else
      var o2 := ResolveExpr(s.cond, o1.st);
      if !o2.status.Done? || s.elseBranch.None? then o2 else ResolveStmt(s.elseBranch.value, o2.st, fuel)
  }

  /** `resolveManyStmt`: the statements in order, up to the first that does not end normally. */
  function ResolveAll(ss: seq<Stmt>, st: RState, fuel: nat): (o: ROut)
    ensures Grows(st, o.st)
    ensures o.status.Done? ==> SameBelowTop(o.st.scopes, st.scopes) && o.st.fn == st.fn && o.st.cls == st.cls
    decreases fuel, StmtsSize(ss), 3
  {
    if ss == [] then ROut(Done, st)
    else
      StmtsSizeBound(ss, 0);
      var o := ResolveStmt(ss[0], st, fuel);
      if !o.status.Done? then o else ResolveAll(ss[1..], o.st, fuel)
  }

  /** The parameter loop of `resolveFunction`: each parameter declared, then defined. */
  function DeclareParams(ps: seq<Token>, st: RState): (r: RState)
    requires st.scopes != []
    ensures SameBelowTop(r.scopes, st.scopes) && r.fn == st.fn && r.cls == st.cls && Grows(st, r)
  {
    if ps == [] then st else DeclareParams(ps[1..], Define(Declare(st, ps[0]), ps[0]))
  }

  /** `resolveFunction`: a new scope for the parameters and the body, resolved as a function
      of the given kind; the stack and the enclosing kind are as before when it ends normally. */
  function ResolveFunction(d: FunctionDecl, kind: FunctionType, st: RState, fuel: nat): (o: ROut)
    ensures Grows(st, o.st)
    ensures o.status.Done? ==> o.st.scopes == st.scopes && o.st.fn == st.fn && o.st.cls == st.cls
    decreases fuel, DeclSize(d), 0
  {
    var st1 := DeclareParams(d.params, BeginScope(st.(fn := kind)));
    var o := ResolveAll(d.body, st1, fuel);
    if !o.status.Done? then o else ROut(Done, EndScope(o.st).(fn := st.fn))
  }

  /** The method loop of `visitClassStmt`. */
  function ResolveMethods(ms: seq<FunctionDecl>, st: RState, fuel: nat): (o: ROut)
    ensures Grows(st, o.st)
    ensures o.status.Done? ==> o.st.scopes == st.scopes && o.st.fn == st.fn && o.st.cls == st.cls
    decreases fuel, DeclsSize(ms), 2
  {
    if ms == [] then ROut(Done, st)
    else
      DeclsSizeBound(ms, 0);
      var o := ResolveFunction(ms[0], InMethod, st, fuel);
      if !o.status.Done? then o else ResolveMethods(ms[1..], o.st, fuel)
  }
}
