/** LoxFunction and LoxCallable as the evaluator sees them. A LoxFunction reads the parameter
    list of its declaration from a field `args`, but a function statement stores its parameters
    in `params`; the read yields `undefined`, and taking `.length` of it throws a TypeError. */
module Callables {
  import opened Tokens
  import opened Wrappers
  import opened Values
  import Ast

  /** The `args` field of a function statement: there is none. */
  function ArgsField(decl: Ast.FunctionDecl): Option<seq<Token>>
  {
    None
  }

  /** `arity()`: the length of `declaration.args`. */
  function Arity(decl: Ast.FunctionDecl): (r: Completion<int>)
    ensures r == Abrupt(TypeErr)
  {
    match ArgsField(decl)
    case None => Abrupt(TypeErr)
    case Some(ps) => Ok(|ps|)
  }

  /** How `call` ends: its binding loop tests `i < declaration.args.length` before the first
      binding, so it throws before any parameter is bound and before the body runs. */
  function Invoke(decl: Ast.FunctionDecl, args: seq<Value>): (r: Completion<Value>)
    ensures r == Abrupt(TypeErr)
  {
    match ArgsField(decl)
    case None => Abrupt(TypeErr)
    case Some(_) => Ok(Null)
  }

  /** `toString` of a function object: `<fn name>` for a LoxFunction, `<native> fn` for a
      native callable. */
  function Describe(v: Value): (s: string)
    requires v.Fn? || v.Native?
    ensures v.Fn? ==> |s| == |v.decl.name.lexeme| + 5 && s[4..|s| - 1] == v.decl.name.lexeme
    ensures v.Fn? ==> s != "<native> fn"
  {
    if v.Fn? then "<fn " + v.decl.name.lexeme + ">" else "<native> fn"
  }

  /** The name of a LoxFunction can be read back from its text, and no LoxFunction prints like
      the native callable. */
  lemma {:induction false} DescribeNamesFunction(id: nat, decl: Ast.FunctionDecl)
    ensures var s := Describe(Fn(id, decl));
      |s| == |decl.name.lexeme| + 5 && s[4..|s| - 1] == decl.name.lexeme
    ensures Describe(Fn(id, decl)) != Describe(Native)
  {
    var s := Describe(Fn(id, decl));
    assert s[1] == 'f' && Describe(Native)[1] == 'n';
  }

  /** Neither `arity` nor `call` of any LoxFunction completes: both stop with a TypeError. */
  lemma {:induction false} FunctionsNeverRun(decl: Ast.FunctionDecl, args: seq<Value>)
    ensures Arity(decl) == Abrupt(TypeErr) && Invoke(decl, args) == Abrupt(TypeErr)
  {
  }
}
