/** The scanner as the source has it: an object whose cursor, token-start marker and line
    counter move step by step while tokens and diagnostics are appended. Every method is
    proved to do what the functions of ScanSpec say. */
module Scanning {
  import opened Tokens
  import opened Wrappers
  import opened ScanSpec
  import Keywords

  class Scanner {
    const source: string
    var start: nat
    var cursor: nat
    var line: int
    var tokens: seq<Token>
    /** The diagnostics the scanner reports through the shared error sink. */
    var diags: seq<Diagnostic>

    ghost predicate Valid()
      reads this
    {
      start <= cursor <= |source|
    }

    constructor (sourceCode: string)
      ensures Valid()
      ensures source == sourceCode && start == 0 && cursor == 0 && line == 1
      ensures tokens == [] && diags == []
    {
      source := sourceCode;
      start, cursor, line := 0, 0, 1;
      tokens, diags := [], [];
    }

    predicate IsAtEnd()
      reads this
    {
      cursor == |source|
    }

    /** `peek({offset})`. */
    function Peek(offset: nat): char
      reads this
    {
      PeekAt(source, cursor + offset)
    }

    /** `peekMatch(symbol, {offset})`. */
    predicate PeekMatch(symbol: char, offset: nat)
      reads this
    {
      Peek(offset) == symbol
    }

    /** `match(symbol)`: the text at the cursor starts with `symbol`. */
    predicate Matches(symbol: string)
      reads this
    {
      cursor + |symbol| <= |source| && source[cursor..cursor + |symbol|] == symbol
    }

    /** `eat(symbol)`: consume `symbol` when it is next; otherwise report it and stay put. */
    method Eat(symbol: string) returns (ok: bool)
      requires Valid()
      modifies this`cursor, this`diags
      ensures Valid()
      ensures ok == old(Matches(symbol))
      ensures ok ==> cursor == old(cursor) + |symbol| && diags == old(diags)
      ensures !ok ==> cursor == old(cursor) && diags == old(diags) + [LexError(line, "Unexpected token: " + symbol)]
    {
      ok := Matches(symbol);
      if ok {
        cursor := cursor + |symbol|;
      } else {
        diags := diags + [LexError(line, "Unexpected token: " + symbol)];
      }
    }

    /** `addToken(type, literal)`: the lexeme is the text from `start` to the cursor, empty for EOF. */
    method AddToken(kind: TokenKind, literal: TokenLiteral)
      requires Valid()
      modifies this`tokens
      ensures tokens == old(tokens) + [Token(kind, if kind == EOF then "" else source[start..cursor], literal, line)]
    {
      var lexeme := if kind == EOF then "" else source[start..cursor];
      tokens := tokens + [Token(kind, lexeme, literal, line)];
    }

    /** `readWhileMatching(pattern)`: advance while the pattern holds, bumping the line counter
        whenever the cursor lands on a newline; answer the text skipped. */
    method ReadWhileMatching(kind: RunKind) returns (text: string)
      requires Valid() && Stops(kind, source, cursor)
      modifies this`cursor, this`line
      ensures Valid()
      ensures cursor == RunEnd(kind, source, old(cursor))
      ensures line == old(line) + LinesAdded(source, old(cursor), cursor)
      ensures text == source[old(cursor)..cursor]
    {
      var from := cursor;
      while Continues(kind, source, cursor)
        invariant from <= cursor <= |source| && start <= cursor
        invariant Stops(kind, source, cursor)
        invariant RunEnd(kind, source, cursor) == RunEnd(kind, source, from)
        invariant line == old(line) + LinesAdded(source, from, cursor)
        decreases |source| - cursor
      {
        StopsStep(kind, source, cursor);
        cursor := cursor + 1;
        if PeekMatch('\n', 0) {
          line := line + 1;
        }
      }
      text := source[from..cursor];
    }

    /** `skipInlineComment`: eat one slash, then move to the next newline or the end. */
    method SkipInlineComment()
      requires Valid() && Matches("/")
      modifies this`cursor, this`diags
      ensures Valid() && diags == old(diags)
      ensures cursor == RunEnd(LineRest, source, old(cursor) + 1)
    {
      var ok := Eat("/");
      var from := cursor;
      while !PeekMatch('\n', 0) && !IsAtEnd()
        invariant from <= cursor <= |source| && start <= cursor
        invariant RunEnd(LineRest, source, cursor) == RunEnd(LineRest, source, from)
        invariant diags == old(diags)
        decreases |source| - cursor
      {
        cursor := cursor + 1;
      }
    }

    /** `skipCStyleComments`: eat the opening star-slash pair, skip to the closing one and eat it.
        Answers true, leaving tokens and diagnostics alone, when no closing pair follows: the
        source's loop then runs past the end forever. */
    method SkipCStyleComments() returns (unending: bool)
      requires Valid() && Matches("/*")
      modifies this`cursor, this`line, this`diags
      ensures Valid() && diags == old(diags)
      ensures unending == !Closes(source, old(cursor) + 2)
      ensures !unending ==>
        var e := RunEnd(CommentBody, source, old(cursor) + 2);
        cursor == e + 2 && line == old(line) + LinesAdded(source, old(cursor) + 2, e)
    {
      assert source[old(cursor)..old(cursor) + 2] == "/*";
      assert source[old(cursor)] == '/' && source[old(cursor) + 1] == '*';
      var ok := Eat("/");
      assert Matches("*");
      ok := Eat("*");
      if !Closes(source, cursor) {
        return true;
      }
      var skipped := ReadWhileMatching(CommentBody);
      ghost var e := cursor;
      assert source[cursor] == '*' && source[cursor + 1] == '/';
      assert Matches("*");
      ok := Eat("*");
      assert Matches("/");
      ok := Eat("/");
      assert cursor == e + 2;
      unending := false;
    }

    /** `parseString(quote)`: the literal is the text between the quotes; reaching the end
        reports an unterminated string (and the failed eat of the closing quote). */
    method ParseString(quote: char)
      requires Valid() && start == cursor < |source| && source[cursor] == quote
      requires quote == '"' || quote == '\''
      modifies this`cursor, this`line, this`diags, this`tokens
      ensures Valid()
      ensures var s := StringStep(source, old(cursor), old(line));
        tokens == old(tokens) + s.emitted && diags == old(diags) + s.diags
        && cursor == s.cursor && line == s.line
    {
      ghost var c0, l0 := cursor, line;
      var content := ReadStringBody(quote);
      assert StringStep(source, c0, l0) == StringClose(source, c0, cursor, line);
      CloseString(quote, content);
    }

    /** The end of `parseString`: an unterminated string is reported (and so is the failed eat
        of the closing quote); then the token. */
    method CloseString(quote: char, content: string)
      requires Valid() && start < cursor && source[start] == quote && content == source[start + 1..cursor]
      requires cursor < |source| ==> source[cursor] == quote
      modifies this`cursor, this`diags, this`tokens
      ensures Valid()
      ensures var s := StringClose(source, start, old(cursor), line);
        tokens == old(tokens) + s.emitted && diags == old(diags) + s.diags && cursor == s.cursor
    {
      if IsAtEnd() {
        CloseUnterminated(quote, content);
      } else {
        EatClosingQuote(quote, content);
      }
    }

    /** The end of an unterminated string: both reports, then the token. */
    method CloseUnterminated(quote: char, content: string)
      requires Valid() && cursor == |source|
      modifies this`cursor, this`diags, this`tokens
      ensures Valid() && cursor == |source|
      ensures tokens == old(tokens) + [Token(STRING, source[start..cursor], StrLit(content), line)]
      ensures diags == old(diags) + [LexError(line, "Unterminated string."), LexError(line, "Unexpected token: " + [quote])]
    {
      diags := diags + [LexError(line, "Unterminated string.")];
      var ok := Eat([quote]);
      AddToken(STRING, StrLit(content));
    }

    /** The closing quote of a string, then the token. */
    method EatClosingQuote(quote: char, content: string)
      requires Valid() && cursor < |source| && source[cursor] == quote
      modifies this`cursor, this`diags, this`tokens
      ensures Valid() && cursor == old(cursor) + 1 && diags == old(diags)
      ensures tokens == old(tokens) + [Token(STRING, source[start..cursor], StrLit(content), line)]
    {
      assert Matches([quote]);
      var ok := Eat([quote]);
      AddToken(STRING, StrLit(content));
    }

    /** The opening quote of a string and the text up to the closing one or the end. */
    method ReadStringBody(quote: char) returns (content: string)
      requires Valid() && cursor < |source| && source[cursor] == quote
      modifies this`cursor, this`line
      ensures Valid()
      ensures var e := RunEnd(StringBody(quote), source, old(cursor) + 1);
        cursor == e && line == old(line) + LinesAdded(source, old(cursor) + 1, e)
        && content == source[old(cursor) + 1..e] && (e < |source| ==> source[e] == quote)
    {
      cursor := cursor + 1;
      content := ReadWhileMatching(StringBody(quote));
    }

    /** `parseNumber`: a maximal digit run. The fraction test looks for a '.' followed by a
        digit, but then reads digits starting on the '.', which is not one: nothing more is read. */
    method ParseNumber()
      requires Valid() && start == cursor < |source| && IsDigit(source[cursor])
      modifies this`cursor, this`line, this`tokens
      ensures Valid()
      ensures var s := NumberStep(source, old(cursor), old(line));
        tokens == old(tokens) + s.emitted && cursor == s.cursor && line == s.line
    {
      ghost var c0, l0 := cursor, line;
      ReadNumber();
      AllDigits(source, c0);
      assert NumberStep(source, c0, l0).emitted == [Token(NUMBER, source[c0..cursor], NumLit(DigitsValue(source[c0..cursor])), line)];
      AddToken(NUMBER, NumLit(DigitsValue(source[start..cursor])));
    }

    /** The digit loop of `parseNumber`, and the fraction test that reads nothing. */
    method ReadNumber()
      requires Valid() && cursor < |source|
      modifies this`cursor, this`line
      ensures Valid()
      ensures cursor == RunEnd(Digits, source, old(cursor)) && line == old(line) + LinesAdded(source, old(cursor), cursor)
    {
      var digits := ReadWhileMatching(Digits);
      if PeekMatch('.', 0) && IsDigit(Peek(1)) {
        digits := ReadWhileMatching(Digits);
      }
    }

    /** `parseIdentifier`: a maximal letter, digit and underscore run, classified by the keyword table. */
    method ParseIdentifier()
      requires Valid() && start == cursor < |source| && IsAlpha(source[cursor]) && !IsDigit(source[cursor])
      modifies this`cursor, this`line, this`tokens
      ensures Valid()
      ensures var s := WordStep(source, old(cursor), old(line));
        tokens == old(tokens) + s.emitted && cursor == s.cursor && line == s.line
    {
      var name := ReadWhileMatching(Word);
      match Keywords.Lookup(name)
      case Some(kind) => AddToken(kind, StrLit(name));
      case None => AddToken(IDENTIFIER, StrLit(name));
    }

    /** The branch of `recognizeToken` for `!`. */
    method RecognizeBang()
      requires Valid() && start == cursor < |source| && source[cursor] == '!'
      modifies this`cursor, this`diags, this`tokens
      ensures Valid()
      ensures var s := BangStep(source, old(cursor), line);
        tokens == old(tokens) + s.emitted && diags == old(diags) + s.diags && cursor == s.cursor
    {
      if PeekMatch('=', 1) {
        assert !Matches("=") by {
          assert source[cursor..cursor + 1][0] == '!';
        }
        var ok := Eat("=");
        assert "Unexpected token: " + "=" == "Unexpected token: =";
        AddToken(NOT_EQUAL, NoLiteral);
      } else {
        assert Matches("!");
        var ok := Eat("!");
        AddToken(NOT, NoLiteral);
      }
    }

    /** The branches of `recognizeToken` for `=`, `<` and `>`. */
    method RecognizeComparison()
      requires Valid() && start == cursor < |source| && OperatorKinds(source[cursor]).Some?
      modifies this`cursor, this`diags, this`tokens
      ensures Valid()
      ensures var s := OperatorStep(source, old(cursor), line);
        tokens == old(tokens) + s.emitted && diags == old(diags) + s.diags && cursor == s.cursor
    {
      var ch := source[cursor];
      var (one, two) := OperatorKinds(ch).value;
      if PeekMatch('=', 1) {
        assert source[cursor..cursor + 2] == [ch, '='];
        var ok := Eat([ch, '=']);
        AddToken(two, NoLiteral);
      } else {
        assert Matches([ch]);
        var ok := Eat([ch]);
        AddToken(one, NoLiteral);
      }
    }

    /** The branch of `recognizeToken` for a slash. */
    method RecognizeSlash() returns (unending: bool)
      requires Valid() && start == cursor < |source| && source[cursor] == '/'
      modifies this`cursor, this`line, this`diags, this`tokens
      ensures Valid()
      ensures var s := SlashStep(source, old(cursor), old(line));
        if s.Unending? then unending && tokens == old(tokens) && diags == old(diags)
        else !unending && tokens == old(tokens) + s.emitted && diags == old(diags) + s.diags
             && cursor == s.cursor && line == s.line
    {
      unending := false;
      if PeekMatch('/', 0) && (PeekMatch('/', 1) || PeekMatch('*', 1)) {
        if PeekMatch('*', 1) {
          assert source[cursor..cursor + 2] == "/*";
          unending := SkipCStyleComments();
        } else {
          assert Matches("/");
          SkipInlineComment();
        }
      } else {
        AddToken(SLASH, NoLiteral);
        assert Matches("/");
        var ok := Eat("/");
      }
    }

    /** `recognizeToken`: dispatch on the character at the cursor. Answers true when the call
        would never return. */
    method RecognizeToken() returns (unending: bool)
      requires Valid() && start == cursor < |source|
      modifies this`cursor, this`line, this`diags, this`tokens
      ensures Valid()
      ensures var s := Step(source, old(cursor), old(line));
        if s.Unending? then unending && tokens == old(tokens) && diags == old(diags)
        else !unending && tokens == old(tokens) + s.emitted && diags == old(diags) + s.diags
             && cursor == s.cursor && line == s.line
    {
      var ch := source[cursor];
      unending := false;
      if SingleCharKind(ch).Some? {
        assert Matches([ch]);
        var ok := Eat([ch]);
        AddToken(SingleCharKind(ch).value, NoLiteral);
      } else if ch == '!' {
        RecognizeBang();
      } else if OperatorKinds(ch).Some? {
        RecognizeComparison();
      } else if ch == '/' {
        unending := RecognizeSlash();
      } else if ch == ' ' || ch == '\r' || ch == '\t' {
        cursor := cursor + 1;
      } else if ch == '\n' {
        cursor := cursor + 1;
        line := line + 1;
      } else if ch == '"' || ch == '\'' {
        ParseString(ch);
      } else if IsDigit(ch) {
        ParseNumber();
      } else if IsAlpha(ch) {
        ParseIdentifier();
      } else {
        assert Matches([ch]);
        var ok := Eat([ch]);
        diags := diags + [LexError(line, "Unexpected token: " + [ch])];
      }
    }

    /** One turn of the loop of `scanTokens`: mark the token start and recognise a token.
        Answers true when the loop would run forever from here (the step never returns, or it
        leaves the cursor where it was); what is appended is then everything the run appends. */
    method ScanOne() returns (stuck: bool)
      requires Valid() && !IsAtEnd()
      modifies this`start, this`cursor, this`line, this`diags, this`tokens
      ensures Valid()
      ensures Turn(source, old(cursor), old(line), old(tokens), old(diags), stuck, cursor, line, tokens, diags)
    {
      ghost var t0, d0, l0 := tokens, diags, line;
      start := cursor;
      var unending := RecognizeToken();
      TurnByStep(source, start, l0, t0, d0, cursor, line, tokens, diags);
      stuck := unending || cursor == start;
    }

    /** `scanTokens`: recognise tokens until the cursor reaches the end, then append EOF.
        Answers whether the source's loop ends; when it does not, the run stops at the first
        step that would repeat forever. */
    method ScanTokens() returns (ends: bool)
      requires Valid()
      modifies this`start, this`cursor, this`line, this`diags, this`tokens
      ensures var r := ScanFrom(source, old(cursor), old(line));
        ends == r.ends && tokens == old(tokens) + r.tokens && diags == old(diags) + r.diags
    {
      while !IsAtEnd()
        invariant Valid()
        invariant var r0 := ScanFrom(source, old(cursor), old(line));
          var r := ScanFrom(source, cursor, line);
          old(tokens) + r0.tokens == tokens + r.tokens && old(diags) + r0.diags == diags + r.diags
          && r0.ends == r.ends
        decreases |source| - cursor
      {
        ghost var t0, d0 := tokens, diags;
        ghost var r1 := ScanFrom(source, cursor, line);
        var stuck := ScanOne();
        if stuck {
          return false;
        }
      }
      start := cursor;
      AddToken(EOF, NoLiteral);
      ends := true;
    }
  }
}
