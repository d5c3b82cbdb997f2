/** The parser object: a cursor over a token array, moved by recursive-descent methods that
    return a value or throw a parse error, each proved to agree with its grammar function. */
module Parsing {
  import opened Tokens
  import opened Wrappers
  import opened Ast
  import ParseSpec

  lemma AppendAssoc<T>(a: seq<T>, b: seq<T>, c: seq<T>)
    ensures a + (b + c) == (a + b) + c
  {
  }

  class Parser {
    const tokens: seq<Token>
    var cursor: nat
    /** The errors reported through `error(token, message)` during this parse. */
    var diags: seq<Diagnostic>

    ghost predicate Valid()
      reads this
    {
      ParseSpec.Terminated(tokens) && cursor < |tokens|
    }

    /** The cursor is where a rule left it, and a thrown error was reported once, at the token
        the cursor is on. */
    ghost predicate Reported<T>(d0: seq<Diagnostic>, r: ParseSpec.PResult<T>)
      reads this
    {
      cursor == r.Pos() && cursor < |tokens|
      && diags == d0 + (if r.PFail? then [TokenError(tokens[r.at], r.message)] else [])
    }

    constructor (tokens: seq<Token>)
      requires ParseSpec.Terminated(tokens)
      ensures Valid() && this.tokens == tokens && cursor == 0 && diags == []
    {
      this.tokens := tokens;
      cursor := 0;
      diags := [];
    }

    method Peek() returns (t: Token)
      requires Valid()
      ensures t == tokens[cursor]
    {
      t := tokens[cursor];
    }

    method Previous() returns (t: Token)
      requires Valid() && cursor > 0
      ensures t == tokens[cursor - 1]
    {
      t := tokens[cursor - 1];
    }

    method IsAtEnd() returns (b: bool)
      requires Valid()
      ensures b == (tokens[cursor].kind == EOF)
    {
      b := tokens[cursor].kind == EOF;
    }

    method Advance()
      requires cursor < |tokens|
      modifies this
      ensures cursor == old(cursor) + 1 && diags == old(diags)
    {
      cursor := cursor + 1;
    }

    method Check(k: TokenKind) returns (b: bool)
      requires Valid()
      ensures b == ParseSpec.Sees(tokens, cursor, k)
    {
      var atEnd := IsAtEnd();
      if atEnd {
        return false;
      }
      b := tokens[cursor].kind == k;
    }

    /** `match`: consumes the token when it is of kind `k` (never EOF). */
    method Match(k: TokenKind) returns (b: bool)
      requires Valid()
      modifies this
      ensures Valid() && diags == old(diags)
      ensures b == ParseSpec.Sees(tokens, old(cursor), k)
      ensures cursor == if b then old(cursor) + 1 else old(cursor)
    {
      var atEnd := IsAtEnd();
      if atEnd {
        return false;
      }
      b := Check(k);
      if b {
        Advance();
      }
    }

    /** `matchMany`: tries each kind in turn, consuming at most one token. */
    method MatchMany(kinds: seq<TokenKind>) returns (b: bool)
      requires Valid()
      modifies this
      ensures Valid() && diags == old(diags)
      ensures b == (tokens[old(cursor)].kind != EOF && tokens[old(cursor)].kind in kinds)
      ensures cursor == if b then old(cursor) + 1 else old(cursor)
    {
      var atEnd := IsAtEnd();
      if atEnd {
        return false;
      }
      var i := 0;
      while i < |kinds|
        invariant 0 <= i <= |kinds| && cursor == old(cursor) && diags == old(diags)
        invariant forall j :: 0 <= j < i ==> kinds[j] != tokens[cursor].kind
      {
        var m := Match(kinds[i]);
        if m {
          return true;
        }
        i := i + 1;
      }
      return false;
    }

    /** `error(token, message)`: the report goes to the diagnostics log. */
    method Error(t: Token, message: string)
      modifies this
      ensures cursor == old(cursor) && diags == old(diags) + [TokenError(t, message)]
    {
      diags := diags + [TokenError(t, message)];
    }

    /** `consume`: the expected token, or a reported error at the current token. */
    method Consume(k: TokenKind, message: string) returns (r: ParseSpec.PResult<Token>)
      requires Valid()
      modifies this
      ensures Valid() && Reported(old(diags), r)
      ensures if ParseSpec.Sees(tokens, old(cursor), k)
        then r == ParseSpec.POk(tokens[old(cursor)], old(cursor) + 1)
        else r == ParseSpec.PFail(old(cursor), message)
    {
      var b := Check(k);
      if b {
        Advance();
        var t := Previous();
        return ParseSpec.POk(t, cursor);
      }
      var t := Peek();
      Error(t, message);
      return ParseSpec.PFail(cursor, message);
    }

    method Expression() returns (r: ParseSpec.PResult<Expr>)
      requires Valid()
      modifies this
      ensures Valid() && Reported(old(diags), r) && r == ParseSpec.Expression(tokens, old(cursor))
      decreases |tokens| - cursor, 6
    {
      r := Equality();
    }

    method Equality() returns (r: ParseSpec.PResult<Expr>)
      requires Valid()
      modifies this
      ensures Valid() && Reported(old(diags), r) && r == ParseSpec.Equality(tokens, old(cursor))
      decreases |tokens| - cursor, 5
    {
      var left := Comparison();
      if left.PFail? {
        return left;
      }
      r := EqualityTail(left.value);
    }

    /** The loop of `equality`, from the left operand. */
    method EqualityTail(left: Expr) returns (r: ParseSpec.PResult<Expr>)
      requires Valid()
      modifies this
      ensures Valid() && Reported(old(diags), r) && r == ParseSpec.EqualityTail(tokens, left, old(cursor))
      decreases |tokens| - cursor, 5
    {
      var expr := left;
      while true
        invariant Valid() && diags == old(diags) && old(cursor) <= cursor
        invariant ParseSpec.EqualityTail(tokens, left, old(cursor)) == ParseSpec.EqualityTail(tokens, expr, cursor)
        decreases |tokens| - cursor
      {
        var matched := MatchMany([EQUAL, NOT_EQUAL]);
        if !matched {
          return ParseSpec.POk(expr, cursor);
        }
        var op := Previous();
        var right := Comparison();
        if right.PFail? {
          return ParseSpec.PFail(right.at, right.message);
        }
        expr := Binary(expr, op, right.value);
      }
    }

    method Comparison() returns (r: ParseSpec.PResult<Expr>)
      requires Valid()
      modifies this
      ensures Valid() && Reported(old(diags), r) && r == ParseSpec.Comparison(tokens, old(cursor))
      decreases |tokens| - cursor, 4
    {
      var left := Term();
      if left.PFail? {
        return left;
      }
      r := ComparisonRest(left.value);
    }

    /** The source's `while` in `comparison` returns from its first iteration. */
    method ComparisonRest(left: Expr) returns (r: ParseSpec.PResult<Expr>)
      requires Valid()
      modifies this
      ensures Valid() && Reported(old(diags), r) && r == ParseSpec.ComparisonRest(tokens, left, old(cursor))
      decreases |tokens| - cursor, 4
    {
      var matched := MatchMany([LESS, GREATER, GREATER_EQUAL, LESS_EQUAL]);
      if !matched {
        return ParseSpec.POk(left, cursor);
      }
      var op := Previous();
      var right := Term();
      if right.PFail? {
        return ParseSpec.PFail(right.at, right.message);
      }
      return ParseSpec.POk(Binary(left, op, right.value), cursor);
    }

    method Term() returns (r: ParseSpec.PResult<Expr>)
      requires Valid()
      modifies this
      ensures Valid() && Reported(old(diags), r) && r == ParseSpec.Term(tokens, old(cursor))
      decreases |tokens| - cursor, 3
    {
      var left := Factor();
      if left.PFail? {
        return left;
      }
      r := TermTail(left.value);
    }

    /** The loop of `term`, from the left operand. */
    method TermTail(left: Expr) returns (r: ParseSpec.PResult<Expr>)
      requires Valid()
      modifies this
      ensures Valid() && Reported(old(diags), r) && r == ParseSpec.TermTail(tokens, left, old(cursor))
      decreases |tokens| - cursor, 3
    {
      var expr := left;
      while true
        invariant Valid() && diags == old(diags) && old(cursor) <= cursor
        invariant ParseSpec.TermTail(tokens, left, old(cursor)) == ParseSpec.TermTail(tokens, expr, cursor)
        decreases |tokens| - cursor
      {
        var matched := MatchMany([MINUS, PLUS]);
        if !matched {
          return ParseSpec.POk(expr, cursor);
        }
        var op := Previous();
        var right := Factor();
        if right.PFail? {
          return ParseSpec.PFail(right.at, right.message);
        }
        expr := Binary(expr, op, right.value);
      }
    }

    method Factor() returns (r: ParseSpec.PResult<Expr>)
      requires Valid()
      modifies this
      ensures Valid() && Reported(old(diags), r) && r == ParseSpec.Factor(tokens, old(cursor))
      decreases |tokens| - cursor, 2
    {
      var left := Unary();
      if left.PFail? {
        return left;
      }
      r := FactorRest(left.value);
    }

    /** The `if` of `factor`: one SLASH or STAR and its right operand. */
    method FactorRest(left: Expr) returns (r: ParseSpec.PResult<Expr>)
      requires Valid()
      modifies this
      ensures Valid() && Reported(old(diags), r) && r == ParseSpec.FactorRest(tokens, left, old(cursor))
      decreases |tokens| - cursor, 2
    {
      var matched := MatchMany([SLASH, STAR]);
      if !matched {
        return ParseSpec.POk(left, cursor);
      }
      var op := Previous();
      var right := Unary();
      if right.PFail? {
        return ParseSpec.PFail(right.at, right.message);
      }
      return ParseSpec.POk(Binary(left, op, right.value), cursor);
    }

    method Unary() returns (r: ParseSpec.PResult<Expr>)
      requires Valid()
      modifies this
      ensures Valid() && Reported(old(diags), r) && r == ParseSpec.Unary(tokens, old(cursor))
      decreases |tokens| - cursor, 1
    {
      var matched := MatchMany([NOT, MINUS]);
      if matched {
        var op := Previous();
        var operand := Unary();
        if operand.PFail? {
          return ParseSpec.PFail(operand.at, operand.message);
        }
        return ParseSpec.POk(Ast.Unary(op, operand.value), cursor);
      }
      r := Primary();
    }

    method Primary() returns (r: ParseSpec.PResult<Expr>)
      requires Valid()
      modifies this
      ensures Valid() && Reported(old(diags), r) && r == ParseSpec.Primary(tokens, old(cursor))
      decreases |tokens| - cursor, 0
    {
      var atom := MatchAtom();
      if atom.Some? {
        return ParseSpec.POk(atom.value, cursor);
      }
      var m := Match(LEFT_PAREN);
      if m {
        r := Group();
        return;
      }
      var t := Peek();
      Error(t, ParseSpec.ExpressionMessage);
      return ParseSpec.PFail(cursor, ParseSpec.ExpressionMessage);
    }

    /** The `match` tests of `primary` for its one-token forms, in the source's order. */
    method MatchAtom() returns (e: Option<Expr>)
      requires Valid()
      modifies this
      ensures Valid() && diags == old(diags) && e == ParseSpec.Atom(tokens[old(cursor)])
      ensures cursor == if e.Some? then old(cursor) + 1 else old(cursor)
    {
      var m := Match(FALSE);
      if m {
        return Some(Literal(LBool(false)));
      }
      m := Match(TRUE);
      if m {
        return Some(Literal(LBool(true)));
      }
      m := Match(NULL);
      if m {
        return Some(Literal(LNull));
      }
      e := MatchOperand();
    }

    /** The remaining tests of `primary`: a name, then a number or a string. */
    method MatchOperand() returns (e: Option<Expr>)
      requires Valid() && tokens[cursor].kind !in {FALSE, TRUE, NULL}
      modifies this
      ensures Valid() && diags == old(diags) && e == ParseSpec.Atom(tokens[old(cursor)])
      ensures cursor == if e.Some? then old(cursor) + 1 else old(cursor)
    {
      var m := Match(IDENTIFIER);
      if m {
        var t := Previous();
        return Some(Variable(t));
      }
      m := Match(NUMBER);
      if !m {
        m := Match(STRING);
      }
      if m {
        var t := Previous();
        return Some(Literal(LStr(t.lexeme)));
      }
      return None;
    }

    /** The group branch of `primary`, after its left parenthesis. */
    method Group() returns (r: ParseSpec.PResult<Expr>)
      requires Valid() && cursor > 0
      modifies this
      ensures Valid() && Reported(old(diags), r) && r == ParseSpec.Group(tokens, old(cursor))
      decreases |tokens| - cursor, 7
    {
      var inner := Expression();
      if inner.PFail? {
        return ParseSpec.PFail(inner.at, inner.message);
      }
      var close := Consume(RIGHT_PAREN, ParseSpec.GroupingMessage);
      if close.PFail? {
        return ParseSpec.PFail(close.at, close.message);
      }
      return ParseSpec.POk(Grouping(inner.value), cursor);
    }

    method VarDeclaration() returns (r: ParseSpec.PResult<Stmt>)
      requires Valid()
      modifies this
      ensures Valid() && Reported(old(diags), r) && r == ParseSpec.VarDeclaration(tokens, old(cursor))
    {
      var name := Consume(IDENTIFIER, ParseSpec.NameMessage);
      if name.PFail? {
        return ParseSpec.PFail(name.at, name.message);
      }
      r := VarRest(name.value);
    }

    /** `varDeclaration` after the name. */
    method VarRest(name: Token) returns (r: ParseSpec.PResult<Stmt>)
      requires Valid()
      modifies this
      ensures Valid() && Reported(old(diags), r) && r == ParseSpec.VarRest(tokens, name, old(cursor))
    {
      var init: Option<Expr> := None;
      var m := Match(EQUAL);
      if m {
        var e := Expression();
        if e.PFail? {
          return ParseSpec.PFail(e.at, e.message);
        }
        init := Some(e.value);
      }
      var semi := Consume(SEMICOLON, ParseSpec.SemicolonMessage);
      if semi.PFail? {
        return ParseSpec.PFail(semi.at, semi.message);
      }
      return ParseSpec.POk(Var(name, init), cursor);
    }

    method PrintStatement() returns (r: ParseSpec.PResult<Stmt>)
      requires Valid()
      modifies this
      ensures Valid() && Reported(old(diags), r) && r == ParseSpec.PrintStatement(tokens, old(cursor))
    {
      var e := Expression();
      if e.PFail? {
        return ParseSpec.PFail(e.at, e.message);
      }
      var semi := Consume(SEMICOLON, ParseSpec.SemicolonMessage);
      if semi.PFail? {
        return ParseSpec.PFail(semi.at, semi.message);
      }
      return ParseSpec.POk(Print(e.value), cursor);
    }

    method ExpressionStatement() returns (r: ParseSpec.PResult<Stmt>)
      requires Valid()
      modifies this
      ensures Valid() && Reported(old(diags), r) && r == ParseSpec.ExpressionStatement(tokens, old(cursor))
    {
      var e := Expression();
      if e.PFail? {
        return ParseSpec.PFail(e.at, e.message);
      }
      var semi := Consume(SEMICOLON, ParseSpec.SemicolonMessage);
      if semi.PFail? {
        return ParseSpec.PFail(semi.at, semi.message);
      }
      return ParseSpec.POk(Ast.Expression(e.value), cursor);
    }

    method Statement() returns (r: ParseSpec.PResult<Stmt>)
      requires Valid()
      modifies this
      ensures Valid() && Reported(old(diags), r) && r == ParseSpec.Statement(tokens, old(cursor))
    {
      var m := Match(PRINT);
      if m {
        r := PrintStatement();
      } else {
        r := ExpressionStatement();
      }
    }

    /** `synchronize`: false when it runs past the final EOF and the TypeError of reading the
        type of an undefined token escapes. */
    method Synchronize() returns (ok: bool)
      requires Valid()
      modifies this
      ensures diags == old(diags)
      ensures var n := ParseSpec.Synchronize(tokens, old(cursor));
        ok == n.Some? && (ok ==> Valid() && cursor == n.value)
    {
      Advance();
      if cursor == |tokens| {
        return false;
      }
      var atEnd := IsAtEnd();
      while !atEnd
        invariant Valid() && diags == old(diags) && old(cursor) < cursor
        invariant atEnd == (tokens[cursor].kind == EOF)
        invariant ParseSpec.SyncFrom(tokens, old(cursor) + 1) == ParseSpec.SyncFrom(tokens, cursor)
        decreases |tokens| - cursor
      {
        var prev := Previous();
        if prev.kind == SEMICOLON {
          return true;
        }
        var next := Peek();
        // the `switch` over the keywords that begin a statement
        if ParseSpec.StartsStatement(next.kind) {
          return true;
        }
        Advance();
        atEnd := IsAtEnd();
      }
      return true;
    }

    /** `declaration`: a statement, or None after a reported error and recovery; `ok` is false
        when the recovery itself throws. */
    method Declaration() returns (s: Option<Stmt>, ok: bool, ghost added: seq<Diagnostic>)
      requires Valid() && tokens[cursor].kind != EOF
      modifies this
      ensures var d := ParseSpec.DeclarationStep(tokens, old(cursor));
        ok == d.next.Some? && added == d.diags && diags == old(diags) + added
        && (ok ==> s == d.stmt && Valid() && cursor == d.next.value)
      ensures var before := ParseSpec.ParseFrom(tokens, old(cursor));
        if ok then before == ParseSpec.Prepend(s, added, ParseSpec.ParseFrom(tokens, cursor))
        else before == ParseSpec.ParseResult(None, added)
    {
      var isVar := Match(VAR);
      var r;
      if isVar {
        r := VarDeclaration();
      } else {
        r := Statement();
      }
      if r.POk? {
        return Some(r.value), true, [];
      }
      ok := Synchronize();
      s := None;
      added := [TokenError(tokens[r.at], r.message)];
    }

    /** `parse`: declarations until EOF; None when an error escapes to its `catch`. */
    method Parse() returns (statements: Option<seq<Option<Stmt>>>)
      requires Valid()
      modifies this
      ensures var p := ParseSpec.ParseFrom(tokens, old(cursor));
        statements == p.statements && diags == old(diags) + p.diags
    {
      var acc: seq<Option<Stmt>> := [];
      ghost var reported: seq<Diagnostic> := [];
      ghost var p0 := ParseSpec.ParseFrom(tokens, cursor);
      ParseSpec.PrependAllNothing(p0);
      var atEnd := IsAtEnd();
      while !atEnd
        invariant Valid() && atEnd == (tokens[cursor].kind == EOF)
        invariant diags == old(diags) + reported
        invariant p0 == ParseSpec.PrependAll(acc, reported, ParseSpec.ParseFrom(tokens, cursor))
        decreases |tokens| - cursor
      {
        var s, ok, added := Declaration();
        AppendAssoc(old(diags), reported, added);
        if !ok {
          return None;
        }
        ParseSpec.PrependAllStep(acc, reported, s, added, ParseSpec.ParseFrom(tokens, cursor));
        acc := acc + [s];
        reported := reported + added;
        atEnd := IsAtEnd();
      }
      assert acc + [] == acc && reported + [] == reported;
      return Some(acc);
    }
  }
}
