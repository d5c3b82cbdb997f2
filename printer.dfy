/** The AST printer: a serialiser of expression trees to a parenthesised prefix string. The
    TypeScript class and its compiled JavaScript differ only in how a null literal is written. */
module AstPrinting {
  import opened Tokens
  import opened Wrappers
  import opened Ast

  /** Which of the two printer files: the TypeScript one writes `null`, the compiled one `nil`. */
  datatype Variant = TypeScript | CompiledJs

  function NullText(v: Variant): string
  {
    if v == TypeScript then "null" else "nil"
  }

  /** The children of a parenthesised form, each preceded by a space. */
  function Spaced(parts: seq<string>): string
  {
    if parts == [] then "" else Spaced(parts[..|parts| - 1]) + " " + parts[|parts| - 1]
  }

  /** `parenthesize(name, ...)` once its children are printed. */
  function Wrap(name: string, parts: seq<string>): string
  {
    "(" + name + Spaced(parts) + ")"
  }

  /** The trees the printer can walk: it has visit methods for Binary, Grouping, Literal and
      Unary only. */
  predicate Printable(e: Expr)
  {
    match e
    case Binary(l, _, r) => Printable(l) && Printable(r)
    case Grouping(x) => Printable(x)
    case Literal(_) => true
    case Unary(_, x) => Printable(x)
    case _ => false
  }

  /** `print(expr)`: the text, or None where the walk reaches a node without a visit method
      (the `accept` call then fails with a TypeError). */
  function Show(e: Expr, v: Variant): (r: Option<string>)
    ensures r.Some? <==> Printable(e)
    ensures r.Some? ==> r.value != ""
  {
    match e
    case Binary(l, op, r) =>
      var a := Show(l, v);
      var b := Show(r, v);
      if a.Some? && b.Some? then Some(Wrap(op.lexeme, [a.value, b.value])) else None
    case Grouping(x) =>
      var a := Show(x, v);
      if a.Some? then Some(Wrap("group", [a.value])) else None
    case Literal(LNull) => Some(NullText(v))
    case Literal(LStr(s)) => Some("\"" + s + "\"")
    case Literal(LBool(b)) => Some(Wrap(if b then "true" else "false", []))
    case Literal(LNum(n)) => Some(Wrap(IntText(n), []))
    case Unary(op, x) =>
      var a := Show(x, v);
      if a.Some? then Some(Wrap(op.lexeme, [a.value])) else None
    case _ => None
  }

  /** `parenthesize(name, e1, ..., ek)`: the accumulating loop of the source, proved to build
      the open parenthesis and the name, every child printed after a space, and the closing
      parenthesis; it fails as soon as a child cannot be printed. */
  method Parenthesize(name: string, exprs: seq<Expr>, v: Variant) returns (r: Option<string>)
    ensures r.Some? <==> forall i :: 0 <= i < |exprs| ==> Show(exprs[i], v).Some?
    ensures r.Some? ==> exists parts: seq<string> ::
      |parts| == |exprs| && (forall i :: 0 <= i < |exprs| ==> Show(exprs[i], v) == Some(parts[i]))
      && r.value == Wrap(name, parts)
  {
    var result := "(" + name;
    ghost var parts: seq<string> := [];
    var i := 0;
    while i < |exprs|
      invariant 0 <= i <= |exprs| && |parts| == i
      invariant forall j :: 0 <= j < i ==> Show(exprs[j], v) == Some(parts[j])
      invariant result == "(" + name + Spaced(parts)
    {
      var text := Show(exprs[i], v);
      if text.None? {
        return None;
      }
      assert (parts + [text.value])[..i] == parts;
      result := result + " " + text.value;
      parts := parts + [text.value];
      i := i + 1;
    }
    result := result + ")";
    r := Some(result);
  }

  /** The printer succeeds exactly on the trees it has visit methods for. */
  lemma {:induction false} ShowDefinedIffPrintable(e: Expr, v: Variant)
    ensures Show(e, v).Some? <==> Printable(e)
  {
    match e
    case Binary(l, _, r) =>
      ShowDefinedIffPrintable(l, v);
      ShowDefinedIffPrintable(r, v);
    case Grouping(x) => ShowDefinedIffPrintable(x, v);
    case Unary(_, x) => ShowDefinedIffPrintable(x, v);
    case _ =>
  }

  /** The tree has a null literal somewhere. */
  predicate HasNull(e: Expr)
  {
    match e
    case Binary(l, _, r) => HasNull(l) || HasNull(r)
    case Grouping(x) => HasNull(x)
    case Literal(l) => l == LNull
    case Unary(_, x) => HasNull(x)
    case _ => false
  }

  /** The two printers agree on every tree without a null literal ... */
  lemma {:induction false} VariantsAgreeWithoutNull(e: Expr)
    requires !HasNull(e)
    ensures Show(e, TypeScript) == Show(e, CompiledJs)
  {
    match e
    case Binary(l, _, r) =>
      VariantsAgreeWithoutNull(l);
      VariantsAgreeWithoutNull(r);
    case Grouping(x) => VariantsAgreeWithoutNull(x);
    case Unary(_, x) => VariantsAgreeWithoutNull(x);
    case _ =>
  }

  /** ... and differ on the null literal itself. */
  lemma NullLiteralDiffers()
    ensures Show(Literal(LNull), TypeScript) == Some("null")
    ensures Show(Literal(LNull), CompiledJs) == Some("nil")
  {
  }

  /** How often a character occurs in a text. */
  function Count(c: char, s: string): nat
  {
    if s == [] then 0 else Count(c, s[..|s| - 1]) + (if s[|s| - 1] == c then 1 else 0)
  }

  lemma {:induction false} CountConcat(c: char, a: string, b: string)
    ensures Count(c, a + b) == Count(c, a) + Count(c, b)
    decreases |b|
  {
    if b == [] {
      assert a + b == a;
    } else {
      assert (a + b)[..|a + b| - 1] == a + b[..|b| - 1];
      CountConcat(c, a, b[..|b| - 1]);
    }
  }

  /** Neither parenthesis occurs in a text. */
  predicate NoParens(s: string)
  {
    forall i :: 0 <= i < |s| ==> s[i] != '(' && s[i] != ')'
  }

  lemma {:induction false} NoParensCount(s: string)
    requires NoParens(s)
    ensures Count('(', s) == 0 && Count(')', s) == 0
    decreases |s|
  {
    if s != [] {
      NoParensCount(s[..|s| - 1]);
    }
  }

  /** Every operator lexeme and every string literal of the tree is free of parentheses. */
  predicate PlainText(e: Expr)
  {
    match e
    case Binary(l, op, r) => NoParens(op.lexeme) && PlainText(l) && PlainText(r)
    case Grouping(x) => PlainText(x)
    case Literal(l) => l.LStr? ==> NoParens(l.s)
    case Unary(op, x) => NoParens(op.lexeme) && PlainText(x)
    case _ => true
  }

  lemma {:induction false} IntTextNoParens(n: int)
    ensures NoParens(IntText(n))
    decreases if n < 0 then -n + 1 else n
  {
    if n < 0 {
      IntTextNoParens(-n);
    } else if n >= 10 {
      IntTextNoParens(n / 10);
    }
  }

  /** A text with as many opening as closing parentheses. */
  predicate Balanced(s: string)
  {
    Count('(', s) == Count(')', s)
  }

  lemma BalancedConcat(a: string, b: string)
    requires Balanced(a) && Balanced(b)
    ensures Balanced(a + b)
  {
    CountConcat('(', a, b);
    CountConcat(')', a, b);
  }

  lemma {:induction false} SpacedBalanced(parts: seq<string>)
    requires forall i :: 0 <= i < |parts| ==> Balanced(parts[i])
    ensures Balanced(Spaced(parts))
    decreases |parts|
  {
    if parts != [] {
      var init := parts[..|parts| - 1];
      SpacedBalanced(init);
      NoParensCount(" ");
      BalancedConcat(Spaced(init), " ");
      BalancedConcat(Spaced(init) + " ", parts[|parts| - 1]);
    }
  }

  /** A parenthesised form with a name free of parentheses and balanced children is balanced. */
  lemma WrapBalanced(name: string, parts: seq<string>)
    requires NoParens(name)
    requires forall i :: 0 <= i < |parts| ==> Balanced(parts[i])
    ensures Balanced(Wrap(name, parts))
  {
    SpacedBalanced(parts);
    NoParensCount(name);
    var open, close := "(", ")";
    assert Count('(', open) == 1 && Count(')', open) == 0 by {
      assert open[..0] == [];
    }
    assert Count('(', close) == 0 && Count(')', close) == 1 by {
      assert close[..0] == [];
    }
    CountConcat('(', open, name);
    CountConcat(')', open, name);
    CountConcat('(', open + name, Spaced(parts));
    CountConcat(')', open + name, Spaced(parts));
    CountConcat('(', open + name + Spaced(parts), close);
    CountConcat(')', open + name + Spaced(parts), close);
  }

  /** The printed text of such a tree is balanced: it has as many opening as closing
      parentheses. */
  lemma {:induction false} ShowIsBalanced(e: Expr, v: Variant)
    requires PlainText(e) && Show(e, v).Some?
    ensures Balanced(Show(e, v).value)
  {
    match e
    case Binary(l, op, r) =>
      ShowIsBalanced(l, v);
      ShowIsBalanced(r, v);
      WrapBalanced(op.lexeme, [Show(l, v).value, Show(r, v).value]);
    case Grouping(x) =>
      ShowIsBalanced(x, v);
      WrapBalanced("group", [Show(x, v).value]);
    case Unary(op, x) =>
      ShowIsBalanced(x, v);
      WrapBalanced(op.lexeme, [Show(x, v).value]);
    case Literal(LNull) =>
      NoParensCount(NullText(v));
    case Literal(LStr(s)) =>
      NoParensCount(s);
      NoParensCount("\"");
      BalancedConcat("\"", s);
      BalancedConcat("\"" + s, "\"");
    case Literal(LBool(b)) =>
      WrapBalanced(if b then "true" else "false", []);
    case Literal(LNum(n)) =>
      IntTextNoParens(n);
      WrapBalanced(IntText(n), []);
  }

  lemma SpacedOne(a: string)
    ensures Spaced([a]) == " " + a
  {
    assert [a][..0] == [];
  }

  lemma SpacedTwo(a: string, b: string)
    ensures Spaced([a, b]) == " " + a + " " + b
  {
    assert [a, b][..1] == [a];
    SpacedOne(a);
  }

  lemma ShowQuoted(s: string, v: Variant)
    ensures Show(Literal(LStr(s)), v) == Some("\"" + s + "\"")
  {
  }

  lemma ShowUnary(op: Token, x: Expr, v: Variant, a: string)
    requires Show(x, v) == Some(a)
    ensures Show(Unary(op, x), v) == Some("(" + op.lexeme + " " + a + ")")
  {
    SpacedOne(a);
    assert "(" + op.lexeme + (" " + a) + ")" == "(" + op.lexeme + " " + a + ")";
  }

  lemma ShowGrouping(x: Expr, v: Variant, a: string)
    requires Show(x, v) == Some(a)
    ensures Show(Grouping(x), v) == Some("(" + "group" + " " + a + ")")
  {
    SpacedOne(a);
    assert "(" + "group" + (" " + a) + ")" == "(" + "group" + " " + a + ")";
  }

  lemma ShowBinary(l: Expr, op: Token, r: Expr, v: Variant, a: string, b: string)
    requires Show(l, v) == Some(a) && Show(r, v) == Some(b)
    ensures Show(Binary(l, op, r), v) == Some("(" + op.lexeme + " " + a + " " + b + ")")
  {
    SpacedTwo(a, b);
    assert "(" + op.lexeme + (" " + a + " " + b) + ")" == "(" + op.lexeme + " " + a + " " + b + ")";
  }

  lemma TextOfMinus()
    ensures "(" + "-" + " " + "(123)" + ")" == "(- (123))"
  {
  }

  lemma TextOfPlus()
    ensures "(" + "+" + " " + ("\"" + "Hello " + "\"") + " " + ("\"" + "World!" + "\"") + ")"
      == "(+ \"Hello \" \"World!\")"
  {
  }

  lemma TextOfGroup()
    ensures "(" + "group" + " " + "(+ \"Hello \" \"World!\")" + ")" == "(group (+ \"Hello \" \"World!\"))"
  {
  }

  lemma TextOfTest()
    ensures "(" + "*" + " " + "(- (123))" + " " + "(group (+ \"Hello \" \"World!\"))" + ")"
      == "(* (- (123)) (group (+ \"Hello \" \"World!\")))"
  {
  }

  lemma MinusRendering(v: Variant)
    ensures Show(Unary(Token(MINUS, "-", NoLiteral, 1), Literal(LNum(123))), v) == Some("(- (123))")
  {
    assert IntText(123) == "123" by {
      assert IntText(1) == "1";
      assert IntText(12) == "12";
    }
    assert Show(Literal(LNum(123)), v) == Some(Wrap(IntText(123), []));
    assert Spaced([]) == "";
    assert Wrap("123", []) == "(123)";
    ShowUnary(Token(MINUS, "-", NoLiteral, 1), Literal(LNum(123)), v, "(123)");
    TextOfMinus();
  }

  lemma GroupRendering(v: Variant)
    ensures Show(Grouping(Binary(Literal(LStr("Hello ")), Token(PLUS, "+", NoLiteral, 2), Literal(LStr("World!")))), v)
      == Some("(group (+ \"Hello \" \"World!\"))")
  {
    ShowQuoted("Hello ", v);
    ShowQuoted("World!", v);
    ShowBinary(Literal(LStr("Hello ")), Token(PLUS, "+", NoLiteral, 2), Literal(LStr("World!")), v,
      "\"" + "Hello " + "\"", "\"" + "World!" + "\"");
    TextOfPlus();
    ShowGrouping(Binary(Literal(LStr("Hello ")), Token(PLUS, "+", NoLiteral, 2), Literal(LStr("World!"))), v,
      "(+ \"Hello \" \"World!\")");
    TextOfGroup();
  }

  /** The expression of the printer's test file renders as the test expects. */
  lemma TestExpressionRendering(v: Variant)
    ensures Show(Binary(Unary(Token(MINUS, "-", NoLiteral, 1), Literal(LNum(123))),
                        Token(STAR, "*", NoLiteral, 1),
                        Grouping(Binary(Literal(LStr("Hello ")), Token(PLUS, "+", NoLiteral, 2), Literal(LStr("World!"))))), v)
      == Some("(* (- (123)) (group (+ \"Hello \" \"World!\")))")
  {
    MinusRendering(v);
    GroupRendering(v);
    ShowBinary(Unary(Token(MINUS, "-", NoLiteral, 1), Literal(LNum(123))), Token(STAR, "*", NoLiteral, 1),
      Grouping(Binary(Literal(LStr("Hello ")), Token(PLUS, "+", NoLiteral, 2), Literal(LStr("World!")))), v,
      "(- (123))", "(group (+ \"Hello \" \"World!\"))");
    TextOfTest();
  }
}
