/** What the grammar functions do with inputs the round trip does not cover: the operators the
    levels take or leave, and how errors are reported and skipped. */
module ParseQuirks {
  import opened Tokens
  import opened Wrappers
  import Ast
  import opened ParseSpec
  import opened ParseProps

  /** `==` is not an operator of `equality` (it loops on EQUAL): `a == b` stops after `a`, and as
      a statement it fails on the `==` for want of a semicolon. */
  lemma {:induction false} DoubleEqualsEndsExpression(toks: seq<Token>, c: nat)
    requires Terminated(toks) && c + 1 < |toks| && toks[c].kind == IDENTIFIER && toks[c + 1].kind == EQUAL_EQUAL
    ensures Expression(toks, c) == POk(Ast.Variable(toks[c]), c + 1)
    ensures Declaration(toks, c) == PFail(c + 1, SemicolonMessage)
  {
    assert Unary(toks, c) == POk(Ast.Variable(toks[c]), c + 1);
    UnaryToFactor(toks, c, Ast.Variable(toks[c]), c + 1);
    ClosedAboveFactor(toks, c, Ast.Variable(toks[c]), c + 1);
    assert ExpressionStatement(toks, c) == PFail(c + 1, SemicolonMessage);
  }

  /** A single `=` between two names is an equality expression. */
  lemma {:induction false} SingleEqualsIsEquality(toks: seq<Token>, c: nat)
    requires Terminated(toks) && c + 3 < |toks| && toks[c].kind == IDENTIFIER && toks[c + 1].kind == EQUAL
    requires toks[c + 2].kind == IDENTIFIER && Closer(toks[c + 3].kind)
    ensures Expression(toks, c) == POk(Ast.Binary(Ast.Variable(toks[c]), toks[c + 1], Ast.Variable(toks[c + 2])), c + 3)
  {
    assert Unary(toks, c) == POk(Ast.Variable(toks[c]), c + 1);
    assert Unary(toks, c + 2) == POk(Ast.Variable(toks[c + 2]), c + 3);
    BinaryFromOperands(Ast.Variable(toks[c]), toks[c + 1], Ast.Variable(toks[c + 2]), toks, c, c + 1, c + 3);
  }

  /** `term` reads a name and stops before any token that is not MINUS or PLUS. */
  lemma {:induction false} NameAtTerm(toks: seq<Token>, c: nat)
    requires Terminated(toks) && c + 1 < |toks| && toks[c].kind == IDENTIFIER
    requires !FactorOp(toks[c + 1].kind) && !TermOp(toks[c + 1].kind)
    ensures Term(toks, c) == POk(Ast.Variable(toks[c]), c + 1)
  {
    assert Unary(toks, c) == POk(Ast.Variable(toks[c]), c + 1);
    UnaryToFactor(toks, c, Ast.Variable(toks[c]), c + 1);
    FactorToTerm(toks, c, Ast.Variable(toks[c]), c + 1);
  }

  /** `comparison` returns inside its loop: in `a < b < c` it takes only `a < b` and leaves the
      second operator to whatever comes next. */
  lemma {:induction false} ComparisonTakesOne(toks: seq<Token>, c: nat)
    requires Terminated(toks) && c + 4 < |toks|
    requires toks[c].kind == IDENTIFIER && toks[c + 2].kind == IDENTIFIER && toks[c + 4].kind == IDENTIFIER
    requires ComparisonOp(toks[c + 1].kind) && ComparisonOp(toks[c + 3].kind)
    ensures Expression(toks, c) == POk(Ast.Binary(Ast.Variable(toks[c]), toks[c + 1], Ast.Variable(toks[c + 2])), c + 3)
    ensures Declaration(toks, c) == PFail(c + 3, SemicolonMessage)
  {
    var e := Ast.Binary(Ast.Variable(toks[c]), toks[c + 1], Ast.Variable(toks[c + 2]));
    NameAtTerm(toks, c);
    NameAtTerm(toks, c + 2);
    assert Comparison(toks, c) == POk(e, c + 3);
    assert EqualityTail(toks, e, c + 3) == POk(e, c + 3);
    assert Equality(toks, c) == POk(e, c + 3);
    assert ExpressionStatement(toks, c) == PFail(c + 3, SemicolonMessage);
  }

  /** `factor` uses `if`, not `while`: in `a * b * c` it takes only `a * b`. */
  lemma {:induction false} FactorTakesOne(toks: seq<Token>, c: nat)
    requires Terminated(toks) && c + 4 < |toks|
    requires toks[c].kind == IDENTIFIER && toks[c + 2].kind == IDENTIFIER && toks[c + 4].kind == IDENTIFIER
    requires FactorOp(toks[c + 1].kind) && FactorOp(toks[c + 3].kind)
    ensures Expression(toks, c) == POk(Ast.Binary(Ast.Variable(toks[c]), toks[c + 1], Ast.Variable(toks[c + 2])), c + 3)
    ensures Declaration(toks, c) == PFail(c + 3, SemicolonMessage)
  {
    var e := Ast.Binary(Ast.Variable(toks[c]), toks[c + 1], Ast.Variable(toks[c + 2]));
    assert Unary(toks, c) == POk(Ast.Variable(toks[c]), c + 1);
    assert Unary(toks, c + 2) == POk(Ast.Variable(toks[c + 2]), c + 3);
    assert Factor(toks, c) == POk(e, c + 3);
    FactorToTerm(toks, c, e, c + 3);
    TermToComparison(toks, c, e, c + 3);
    assert EqualityTail(toks, e, c + 3) == POk(e, c + 3);
    assert Equality(toks, c) == POk(e, c + 3);
    assert ExpressionStatement(toks, c) == PFail(c + 3, SemicolonMessage);
  }

  /** The two levels whose loops read any number of operators. */
  datatype Level = TermLevel | EqualityLevel

  predicate LevelOp(lv: Level, k: TokenKind)
  {
    if lv == TermLevel then TermOp(k) else EqualityOp(k)
  }

  /** `m` pairs of an operator of level `lv` and a name, from position `q` on. */
  predicate OpNameRun(toks: seq<Token>, q: nat, m: nat, lv: Level)
    decreases m
  {
    q + 2 * m <= |toks|
    && (m > 0 ==> LevelOp(lv, toks[q].kind) && toks[q + 1].kind == IDENTIFIER && OpNameRun(toks, q + 2, m - 1, lv))
  }

  /** A name followed by `k` operator-name pairs of level `lv`, then a closing token. */
  predicate NameChain(toks: seq<Token>, c: nat, k: nat, lv: Level)
  {
    c + 2 * k + 1 < |toks| && toks[c].kind == IDENTIFIER && OpNameRun(toks, c + 1, k, lv)
    && Closer(toks[c + 2 * k + 1].kind)
  }

  /** Folds `m` operator-name pairs from position `q` onto `acc`, to the left. */
  function FoldFrom(toks: seq<Token>, acc: Ast.Expr, q: nat, m: nat): Ast.Expr
    requires q + 2 * m <= |toks|
    decreases m
  {
    if m == 0 then acc
    else FoldFrom(toks, Ast.Binary(acc, toks[q], Ast.Variable(toks[q + 1])), q + 2, m - 1)
  }

  /** The left fold `((n0 op1 n1) op2 n2) ... opk nk` of a chain. */
  function LeftChain(toks: seq<Token>, c: nat, k: nat): Ast.Expr
    requires c + 2 * k + 1 <= |toks|
  {
    FoldFrom(toks, Ast.Variable(toks[c]), c + 1, k)
  }

  /** One turn of the `term` loop over a name: the operator and the name are folded in. */
  lemma {:induction false} TermTailName(toks: seq<Token>, l: Ast.Expr, q: nat)
    requires Terminated(toks) && q + 2 < |toks| && TermOp(toks[q].kind)
    requires toks[q + 1].kind == IDENTIFIER && (TermOp(toks[q + 2].kind) || Closer(toks[q + 2].kind))
    ensures TermTail(toks, l, q) == TermTail(toks, Ast.Binary(l, toks[q], Ast.Variable(toks[q + 1])), q + 2)
  {
    assert Unary(toks, q + 1) == POk(Ast.Variable(toks[q + 1]), q + 2);
    UnaryToFactor(toks, q + 1, Ast.Variable(toks[q + 1]), q + 2);
  }

  /** One turn of the `equality` loop over a name. */
  lemma {:induction false} EqualityTailName(toks: seq<Token>, l: Ast.Expr, q: nat)
    requires Terminated(toks) && q + 2 < |toks| && EqualityOp(toks[q].kind)
    requires toks[q + 1].kind == IDENTIFIER && (EqualityOp(toks[q + 2].kind) || Closer(toks[q + 2].kind))
    ensures EqualityTail(toks, l, q) == EqualityTail(toks, Ast.Binary(l, toks[q], Ast.Variable(toks[q + 1])), q + 2)
  {
    NameAtTerm(toks, q + 1);
    TermToComparison(toks, q + 1, Ast.Variable(toks[q + 1]), q + 2);
  }

  /** The token after a run is an operator of its level when more pairs follow, or the closer. */
  lemma {:induction false} RunNext(toks: seq<Token>, q: nat, m: nat, lv: Level)
    requires OpNameRun(toks, q, m, lv) && m > 0 && q + 2 * m < |toks| && Closer(toks[q + 2 * m].kind)
    ensures q + 2 < |toks| && (LevelOp(lv, toks[q + 2].kind) || Closer(toks[q + 2].kind))
  {
  }

  /** The `term` loop folds a run of `+`/`-` and names onto what it holds, to the left. */
  lemma {:induction false} TermTailFolds(toks: seq<Token>, l: Ast.Expr, q: nat, m: nat)
    requires Terminated(toks) && OpNameRun(toks, q, m, TermLevel)
    requires q + 2 * m < |toks| && Closer(toks[q + 2 * m].kind)
    ensures TermTail(toks, l, q) == POk(FoldFrom(toks, l, q, m), q + 2 * m)
    decreases m
  {
    if m > 0 {
      RunNext(toks, q, m, TermLevel);
      TermTailName(toks, l, q);
      TermTailFolds(toks, Ast.Binary(l, toks[q], Ast.Variable(toks[q + 1])), q + 2, m - 1);
    }
  }

  /** The `equality` loop folds a run of `=`/`!=` and names onto what it holds, to the left. */
  lemma {:induction false} EqualityTailFolds(toks: seq<Token>, l: Ast.Expr, q: nat, m: nat)
    requires Terminated(toks) && OpNameRun(toks, q, m, EqualityLevel)
    requires q + 2 * m < |toks| && Closer(toks[q + 2 * m].kind)
    ensures EqualityTail(toks, l, q) == POk(FoldFrom(toks, l, q, m), q + 2 * m)
    decreases m
  {
    if m > 0 {
      RunNext(toks, q, m, EqualityLevel);
      EqualityTailName(toks, l, q);
      EqualityTailFolds(toks, Ast.Binary(l, toks[q], Ast.Variable(toks[q + 1])), q + 2, m - 1);
    }
  }

  /** The loop of `term` builds to the left: a chain of names joined by `+` and `-` is read as
      the left fold of its operands, `a - b + c` as `(a - b) + c`. */
  lemma {:induction false} TermIsLeftAssociative(toks: seq<Token>, c: nat, k: nat)
    requires Terminated(toks) && NameChain(toks, c, k, TermLevel)
    ensures Expression(toks, c) == POk(LeftChain(toks, c, k), c + 2 * k + 1)
  {
    if k > 0 {
      RunNext(toks, c + 1, k, TermLevel);
    }
    assert Unary(toks, c) == POk(Ast.Variable(toks[c]), c + 1);
    UnaryToFactor(toks, c, Ast.Variable(toks[c]), c + 1);
    TermTailFolds(toks, Ast.Variable(toks[c]), c + 1, k);
    ClosedAboveTerm(toks, c, LeftChain(toks, c, k), c + 2 * k + 1);
  }

  /** The loop of `equality` builds to the left as well: a chain of names joined by `=` and
      `!=` is read as the left fold of its operands. */
  lemma {:induction false} EqualityIsLeftAssociative(toks: seq<Token>, c: nat, k: nat)
    requires Terminated(toks) && NameChain(toks, c, k, EqualityLevel)
    ensures Expression(toks, c) == POk(LeftChain(toks, c, k), c + 2 * k + 1)
  {
    if k > 0 {
      RunNext(toks, c + 1, k, EqualityLevel);
    }
    NameAtTerm(toks, c);
    TermToComparison(toks, c, Ast.Variable(toks[c]), c + 1);
    EqualityTailFolds(toks, Ast.Variable(toks[c]), c + 1, k);
  }

  /** A position where the loop of `synchronize` stops: the end, just after a semicolon, or
      before a keyword that starts a statement. */
  predicate Boundary(toks: seq<Token>, j: nat)
    requires 0 < j < |toks|
  {
    toks[j].kind == EOF || toks[j - 1].kind == SEMICOLON || StartsStatement(toks[j].kind)
  }

  lemma {:induction false} SyncFromFirstBoundary(toks: seq<Token>, c: nat)
    requires Terminated(toks) && 0 < c < |toks|
    ensures var n := SyncFrom(toks, c);
      Boundary(toks, n) && forall j :: c <= j < n ==> !Boundary(toks, j)
    decreases |toks| - c
  {
    if !Boundary(toks, c) {
      SyncFromFirstBoundary(toks, c + 1);
    }
  }

  /** `synchronize` skips the token in error and stops at the first boundary after it; it fails
      only when the error was at the final EOF. */
  lemma {:induction false} SynchronizeStopsAtFirstBoundary(toks: seq<Token>, c: nat)
    requires Terminated(toks) && c < |toks|
    ensures Synchronize(toks, c).None? <==> c + 1 == |toks|
    ensures Synchronize(toks, c).Some? ==> var n := Synchronize(toks, c).value;
      c < n < |toks| && Boundary(toks, n) && forall j :: c < j < n ==> !Boundary(toks, j)
  {
    if c + 1 < |toks| {
      SyncFromFirstBoundary(toks, c + 1);
    }
  }

  /** The number of declarations that failed and were skipped. */
  function Skipped(ss: seq<Option<Ast.Stmt>>): nat
  {
    if ss == [] then 0 else (if ss[0].None? then 1 else 0) + Skipped(ss[1..])
  }

  /** Each declaration that fails reports exactly one error and leaves one None in the list;
      a declaration read without error reports nothing. */
  lemma {:induction false} OneErrorPerSkippedDeclaration(toks: seq<Token>, c: nat)
    requires Terminated(toks) && c < |toks|
    ensures var p := ParseFrom(toks, c); p.statements.Some? ==> |p.diags| == Skipped(p.statements.value)
    decreases |toks| - c
  {
    if toks[c].kind != EOF {
      var d := DeclarationStep(toks, c);
      if d.next.Some? {
        OneErrorPerSkippedDeclaration(toks, d.next.value);
        var rest := ParseFrom(toks, d.next.value);
        if rest.statements.Some? {
          assert ([d.stmt] + rest.statements.value)[1..] == rest.statements.value;
        }
      }
    }
  }

  /** Every statement present is a print, expression or variable statement built from the
      grammar's expression forms. */
  predicate FormsOnly(ss: seq<Option<Ast.Stmt>>)
  {
    forall i :: 0 <= i < |ss| && ss[i].Some? ==> StatementForm(ss[i].value)
  }

  /** Every statement `parse` returns is one of the forms the grammar functions build. */
  lemma {:induction false} ParsedStatementForms(toks: seq<Token>, c: nat)
    requires Terminated(toks) && c < |toks|
    ensures ParseFrom(toks, c).statements.Some? ==> FormsOnly(ParseFrom(toks, c).statements.value)
    decreases |toks| - c
  {
    if toks[c].kind != EOF {
      var d := DeclarationStep(toks, c);
      if d.next.Some? {
        ParsedStatementForms(toks, d.next.value);
        var rest := ParseFrom(toks, d.next.value);
        if rest.statements.Some? {
          var all := [d.stmt] + rest.statements.value;
          assert ParseFrom(toks, c).statements.value == all;
          assert d.stmt.Some? ==> Declaration(toks, c).POk? && d.stmt.value == Declaration(toks, c).value;
          forall i | 0 <= i < |all| && all[i].Some?
            ensures StatementForm(all[i].value)
          {
            if i > 0 {
              assert all[i] == rest.statements.value[i - 1];
            }
          }
        }
      }
    }
  }

  /** A missing semicolon at the very end: the error is at EOF, so `synchronize` runs past the
      end and `parse` returns nothing, after reporting the error. */
  lemma {:induction false} MissingFinalSemicolon(toks: seq<Token>)
    requires |toks| == 2 && toks[0].kind == IDENTIFIER && toks[1].kind == EOF
    ensures Terminated(toks) && Parse(toks) == ParseResult(None, [TokenError(toks[1], SemicolonMessage)])
  {
    LoneNameLacksSemicolon(toks);
  }

  lemma {:induction false} LoneNameLacksSemicolon(toks: seq<Token>)
    requires |toks| == 2 && toks[0].kind == IDENTIFIER && toks[1].kind == EOF
    ensures Terminated(toks) && Declaration(toks, 0) == PFail(1, SemicolonMessage)
  {
    NameAtTerm(toks, 0);
    assert Comparison(toks, 0) == POk(Ast.Variable(toks[0]), 1);
    ClosedAboveComparison(toks, 0, Ast.Variable(toks[0]), 1);
    assert ExpressionStatement(toks, 0) == PFail(1, SemicolonMessage);
  }

  /** In `; print a;` the stray semicolon cannot start an expression: "Expect expression." is
      reported on it and recovery resumes just after it. */
  lemma {:induction false} StraySemicolonSkipped(toks: seq<Token>)
    requires |toks| == 5 && toks[0].kind == SEMICOLON && toks[4].kind == EOF
    requires forall i :: 0 <= i < 4 ==> toks[i].kind != EOF
    ensures Terminated(toks)
    ensures DeclarationStep(toks, 0) == DeclOutcome(None, [TokenError(toks[0], ExpressionMessage)], Some(1))
  {
    assert Unary(toks, 0) == PFail(0, ExpressionMessage);
    assert Factor(toks, 0) == PFail(0, ExpressionMessage);
    assert Term(toks, 0) == PFail(0, ExpressionMessage);
    assert Comparison(toks, 0) == PFail(0, ExpressionMessage);
    assert Expression(toks, 0) == PFail(0, ExpressionMessage);
    assert Declaration(toks, 0) == PFail(0, ExpressionMessage);
    assert Synchronize(toks, 0) == Some(1);
  }

  /** `print a;` is one declaration. */
  lemma {:induction false} PrintNameParses(toks: seq<Token>, c: nat)
    requires Terminated(toks) && c + 3 < |toks| && toks[c].kind == PRINT && toks[c + 1].kind == IDENTIFIER
    requires toks[c + 2].kind == SEMICOLON
    ensures DeclarationStep(toks, c) == DeclOutcome(Some(Ast.Print(Ast.Variable(toks[c + 1]))), [], Some(c + 3))
  {
    NameAtTerm(toks, c + 1);
    assert Comparison(toks, c + 1) == POk(Ast.Variable(toks[c + 1]), c + 2);
    ClosedAboveComparison(toks, c + 1, Ast.Variable(toks[c + 1]), c + 2);
    StatementFromParts(toks, c, c + 1, Ast.Variable(toks[c + 1]), c + 2, Ast.Print(Ast.Variable(toks[c + 1])));
  }

  lemma {:induction false} PrintAfterStraySemicolon(toks: seq<Token>)
    requires |toks| == 5 && toks[1].kind == PRINT && toks[2].kind == IDENTIFIER
    requires toks[3].kind == SEMICOLON && toks[4].kind == EOF && toks[0].kind != EOF
    ensures Terminated(toks)
    ensures ParseFrom(toks, 1) == ParseResult(Some([Some(Ast.Print(Ast.Variable(toks[2])))]), [])
  {
    PrintNameParses(toks, 1);
    var p := Some(Ast.Print(Ast.Variable(toks[2])));
    var noStmts: seq<Option<Ast.Stmt>> := [];
    var none: seq<Diagnostic> := [];
    assert ParseFrom(toks, 4) == ParseResult(Some(noStmts), none);
    assert [p] + noStmts == [p] && none + none == none;
    assert ParseFrom(toks, 1) == Prepend(p, none, ParseFrom(toks, 4));
  }

  /** Recovery: in `; print a;` the declaration of the stray semicolon becomes None, one error
      is reported, and the print statement after it is still parsed. */
  lemma {:induction false} RecoveryAfterStraySemicolon(toks: seq<Token>)
    requires |toks| == 5 && toks[0].kind == SEMICOLON && toks[1].kind == PRINT && toks[2].kind == IDENTIFIER
    requires toks[3].kind == SEMICOLON && toks[4].kind == EOF
    ensures Terminated(toks)
    ensures Parse(toks) == ParseResult(Some([None, Some(Ast.Print(Ast.Variable(toks[2])))]), [TokenError(toks[0], ExpressionMessage)])
  {
    StraySemicolonSkipped(toks);
    PrintAfterStraySemicolon(toks);
    var err := [TokenError(toks[0], ExpressionMessage)];
    var p := Some(Ast.Print(Ast.Variable(toks[2])));
    var none: seq<Diagnostic> := [];
    assert err + none == err;
    assert [None] + [p] == [None, p];
    assert ParseFrom(toks, 0) == Prepend(None, err, ParseFrom(toks, 1));
  }
}
