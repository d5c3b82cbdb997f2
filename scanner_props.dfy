/** What a scan produces: the EOF token, the lexemes, the divergent inputs, the number,
    string and identifier tokens, and the double-counted lines. */
module ScanProps {
  import opened Tokens
  import opened Wrappers
  import opened ScanSpec
  import Keywords

  /** A scan that ends appends exactly one EOF token, last, with an empty lexeme; a scan that
      does not end appends none. */
  lemma {:induction false} EofExactlyOnceAtEnd(src: string, c: nat, ln: int)
    requires c <= |src|
    ensures var r := ScanFrom(src, c, ln);
      (r.ends ==> |r.tokens| >= 1 && r.tokens[|r.tokens| - 1].kind == EOF
                  && r.tokens[|r.tokens| - 1].lexeme == "")
      && forall i :: 0 <= i < |r.tokens| && (!r.ends || i < |r.tokens| - 1) ==> r.tokens[i].kind != EOF
    decreases |src| - c
  {
    if c < |src| {
      var s := Step(src, c, ln);
      if s.StepOut? && s.cursor != c {
        EofExactlyOnceAtEnd(src, s.cursor, s.line);
        var rest := ScanFrom(src, s.cursor, s.line);
        assert ScanFrom(src, c, ln).tokens == s.emitted + rest.tokens;
      }
    }
  }

  /** Every token a step appends has as lexeme the text the step consumed, except SLASH and
      NOT_EQUAL, whose lexeme is empty (the first is added before its slash is eaten, the second
      is added after a failed eat). */
  lemma {:induction false} LexemeIsConsumedText(src: string, c: nat, ln: int, t: Token)
    requires c < |src|
    requires Step(src, c, ln).StepOut? && t in Step(src, c, ln).emitted
    ensures t.kind == SLASH || t.kind == NOT_EQUAL ==> t.lexeme == ""
    ensures t.kind != SLASH && t.kind != NOT_EQUAL ==> t.lexeme == src[c..Step(src, c, ln).cursor]
  {
    var ch := src[c];
    if SingleCharKind(ch).Some? || ch == '!' {
    } else if OperatorKinds(ch).Some? {
    } else if ch == '/' {
    } else if ch == '"' || ch == '\'' {
    } else if IsDigit(ch) {
    } else {
      assert IsAlpha(ch);
      var e := RunEnd(Word, src, c);
      var k := Keywords.Lookup(src[c..e]);
      assert k.Some? ==> k.value != SLASH && k.value != NOT_EQUAL by {
        if k.Some? {
          assert src[c..e] in Keywords.Reserved;
        }
      }
    }
  }

  /** `!=` leaves the cursor on the `!`: the step appends NOT_EQUAL with an empty lexeme and an
      "Unexpected token: =" report, and the scan never ends. */
  lemma {:induction false} BangEqualNeverEnds(src: string, c: nat, ln: int)
    requires c + 1 < |src| && src[c] == '!' && src[c + 1] == '='
    ensures Step(src, c, ln) == StepOut([Token(NOT_EQUAL, "", NoLiteral, ln)], [LexError(ln, "Unexpected token: =")], c, ln)
    ensures !ScanFrom(src, c, ln).ends
  {
  }

  /** A step never returns exactly when it starts a block comment that has no closing
      star-slash after the opening pair. */
  lemma {:induction false} UnendingIffUnclosedComment(src: string, c: nat, ln: int)
    requires c < |src|
    ensures Step(src, c, ln).Unending? <==> (src[c] == '/' && PeekAt(src, c + 1) == '*' && !Closes(src, c + 2))
  {
  }

  /** A scan that reaches an unclosed block comment never ends. */
  lemma {:induction false} UnclosedCommentNeverEnds(src: string, c: nat, ln: int)
    requires c + 1 < |src| && src[c] == '/' && src[c + 1] == '*' && !Closes(src, c + 2)
    ensures !ScanFrom(src, c, ln).ends && ScanFrom(src, c, ln).tokens == []
  {
    UnendingIffUnclosedComment(src, c, ln);
  }

  /** The ten characters that are a token on their own, each with the kind `scanToken` gives it. */
  const SingleCharacters: map<char, TokenKind> :=
    map['(' := LEFT_PAREN, ')' := RIGHT_PAREN, '{' := LEFT_BRACE, '}' := RIGHT_BRACE, ',' := COMMA,
        '.' := DOT, '-' := MINUS, '+' := PLUS, ';' := SEMICOLON, '*' := STAR]

  /** Each single-character token is emitted alone, with its fixed kind and the character as
      its lexeme, reports nothing and moves the cursor by one on the same line. */
  lemma {:induction false} SingleCharacterToken(src: string, c: nat, ln: int)
    requires c < |src| && src[c] in SingleCharacters
    ensures Step(src, c, ln) == StepOut([Token(SingleCharacters[src[c]], [src[c]], NoLiteral, ln)], [], c + 1, ln)
  {
  }

  /** A slash followed by anything but a slash or a star is SLASH with an empty lexeme. */
  lemma {:induction false} LoneSlash(src: string, c: nat, ln: int)
    requires c < |src| && src[c] == '/' && PeekAt(src, c + 1) != '/' && PeekAt(src, c + 1) != '*'
    ensures Step(src, c, ln) == StepOut([Token(SLASH, "", NoLiteral, ln)], [], c + 1, ln)
  {
  }

  /** Blanks, newlines and comments append no token and report nothing; only a newline
      advances the line counter by itself. */
  lemma {:induction false} LayoutIsSilent(src: string, c: nat, ln: int)
    requires c < |src|
    requires src[c] in {' ', '\r', '\t', '\n'} || (src[c] == '/' && PeekAt(src, c + 1) in {'/', '*'})
    ensures var s := Step(src, c, ln);
      s.StepOut? ==> s.emitted == [] && s.diags == [] && c < s.cursor
    ensures src[c] in {' ', '\r', '\t'} ==> Step(src, c, ln).line == ln
    ensures src[c] == '\n' ==> Step(src, c, ln).line == ln + 1
  {
  }

  /** A line comment runs to the next newline, which it leaves for the next step, or to the end. */
  lemma {:induction false} LineCommentStopsAtNewline(src: string, c: nat, ln: int)
    requires c + 1 < |src| && src[c] == '/' && src[c + 1] == '/'
    ensures var s := Step(src, c, ln);
      s.StepOut? && (s.cursor == |src| || src[s.cursor] == '\n')
      && forall i :: c + 1 <= i < s.cursor ==> src[i] != '\n'
  {
    assert Step(src, c, ln) == SlashStep(src, c, ln);
    var e := RunEnd(LineRest, src, c + 1);
    RunEndSkips(LineRest, src, c + 1);
    assert forall i :: c + 1 <= i < e ==> Continues(LineRest, src, i) && PeekAt(src, i) == src[i];
  }

  /** A string token: the literal is the text after the opening quote up to the first quote of
      the same kind, which closes the lexeme; without such a quote the token runs to the end of
      the text and two reports are made. */
  lemma {:induction false} StringToken(src: string, c: nat, ln: int)
    requires c < |src| && (src[c] == '"' || src[c] == '\'')
    ensures var s := Step(src, c, ln);
      s.StepOut? && |s.emitted| == 1 && s.emitted[0].kind == STRING && s.emitted[0].literal.StrLit?
    ensures var s := Step(src, c, ln);
      var t := s.emitted[0];
      var body := t.literal.s;
      (forall i :: 0 <= i < |body| ==> body[i] != src[c])
      && if s.diags == [] then
        t.lexeme == [src[c]] + body + [src[c]] && s.cursor == c + |body| + 2
      else
        s.cursor == |src| && t.lexeme == [src[c]] + body && t.lexeme == src[c..]
        && s.diags == [LexError(s.line, "Unterminated string."), LexError(s.line, "Unexpected token: " + [src[c]])]
  {
    assert Step(src, c, ln) == StringStep(src, c, ln);
    StringStepShape(src, c, ln);
  }

  lemma {:induction false} StringStepShape(src: string, c: nat, ln: int)
    requires c < |src|
    ensures var s := StringStep(src, c, ln);
      var t := s.emitted[0];
      var body := t.literal.s;
      t.kind == STRING && t.literal.StrLit?
      && (forall i :: 0 <= i < |body| ==> body[i] != src[c])
      && if s.diags == [] then
        t.lexeme == [src[c]] + body + [src[c]] && s.cursor == c + |body| + 2
      else
        s.cursor == |src| && t.lexeme == [src[c]] + body && t.lexeme == src[c..]
        && s.diags == [LexError(s.line, "Unterminated string."), LexError(s.line, "Unexpected token: " + [src[c]])]
  {
    var q := src[c];
    var e := RunEnd(StringBody(q), src, c + 1);
    var body := src[c + 1..e];
    RunEndSkips(StringBody(q), src, c + 1);
    assert forall i :: 0 <= i < |body| ==> body[i] == src[c + 1 + i] && Continues(StringBody(q), src, c + 1 + i);
    if e < |src| {
      assert src[c..e + 1] == [q] + body + [q];
    } else {
      assert src[c..e] == [q] + body;
    }
  }

  /** A number token is the maximal run of digits at the cursor; the literal is its decimal
      value, and a dot is never part of it. */
  lemma {:induction false} NumberToken(src: string, c: nat, ln: int)
    requires c < |src| && IsDigit(src[c])
    ensures var s := Step(src, c, ln);
      s.StepOut? && s.diags == [] && |s.emitted| == 1 && c < s.cursor
      && var t := s.emitted[0];
      t.kind == NUMBER && t.lexeme == src[c..s.cursor]
      && (forall i :: 0 <= i < |t.lexeme| ==> IsDigit(t.lexeme[i]))
      && t.literal == NumLit(DigitsValue(t.lexeme))
      && !IsDigit(PeekAt(src, s.cursor))
  {
    assert Step(src, c, ln) == NumberStep(src, c, ln);
    var e := RunEnd(Digits, src, c);
    RunEndSkips(Digits, src, c);
    assert forall i :: c <= i < e ==> Continues(Digits, src, i) && PeekAt(src, i) == src[i];
    assert forall i :: 0 <= i < e - c ==> src[c..e][i] == src[c + i];
  }

  /** A digit, a dot and a digit scan as NUMBER, DOT and NUMBER: the fraction is never read. */
  lemma {:induction false} FractionIsNotScanned(src: string, c: nat, ln: int)
    requires c + 2 < |src| && IsDigit(src[c]) && src[c + 1] == '.' && IsDigit(src[c + 2])
    ensures var s0 := Step(src, c, ln);
      s0.StepOut? && s0.emitted == [Token(NUMBER, [src[c]], NumLit(src[c] as int - '0' as int), ln)]
      && s0.cursor == c + 1 && s0.line == ln
    ensures Step(src, c + 1, ln) == StepOut([Token(DOT, ".", NoLiteral, ln)], [], c + 2, ln)
    ensures var s2 := Step(src, c + 2, ln);
      s2.StepOut? && |s2.emitted| == 1 && s2.emitted[0].kind == NUMBER
  {
    assert Step(src, c, ln) == NumberStep(src, c, ln);
    assert RunEnd(Digits, src, c + 1) == c + 1;
    assert RunEnd(Digits, src, c) == c + 1;
    assert LinesAdded(src, c, c + 1) == 0;
    assert src[c..c + 1] == [src[c]];
    assert DigitsValue([src[c]]) == src[c] as int - '0' as int by {
      assert [src[c]][..0] == [];
    }
    assert Step(src, c + 1, ln) == StepOut([Token(DOT, [src[c + 1]], NoLiteral, ln)], [], c + 2, ln);
    NumberToken(src, c + 2, ln);
  }

  /** A newline right after a number is counted twice: once by the digit loop, which looks at
      the character it lands on, and once more when the newline itself is stepped over. */
  lemma {:induction false} NewlineAfterNumberCountsTwice(src: string, c: nat, ln: int)
    requires c < |src| && IsDigit(src[c])
    requires RunEnd(Digits, src, c) < |src| && src[RunEnd(Digits, src, c)] == '\n'
    ensures var s1 := Step(src, c, ln);
      s1.StepOut? && s1.cursor == RunEnd(Digits, src, c) && s1.line == ln + 1
      && Step(src, s1.cursor, s1.line) == StepOut([], [], s1.cursor + 1, ln + 2)
  {
    assert Step(src, c, ln) == NumberStep(src, c, ln);
    var e := RunEnd(Digits, src, c);
    RunEndSkips(Digits, src, c);
    LinesAddedDigits(src, c, e);
  }

  /** Over a digit run only its last landing position can be a newline. */
  lemma {:induction false} LinesAddedDigits(src: string, c: nat, e: nat)
    requires c <= e <= |src|
    requires forall i :: c <= i < e ==> Continues(Digits, src, i)
    ensures LinesAdded(src, c, e) == (if c < e && PeekAt(src, e) == '\n' then 1 else 0)
    decreases e - c
  {
    if c < e {
      LinesAddedDigits(src, c, e - 1);
      assert Continues(Digits, src, e - 1);
    }
  }

  /** A word is the maximal run of letters, digits and underscores; it is the keyword the table
      names, or an IDENTIFIER; either way its literal is its own text. */
  lemma {:induction false} WordToken(src: string, c: nat, ln: int)
    requires c < |src| && IsAlpha(src[c])
    ensures var s := Step(src, c, ln);
      s.StepOut? && s.diags == [] && |s.emitted| == 1 && c < s.cursor
      && var t := s.emitted[0];
      t.lexeme == src[c..s.cursor] && t.literal == StrLit(t.lexeme)
      && (Keywords.Lookup(t.lexeme).Some? ==> t.kind == Keywords.Lookup(t.lexeme).value)
      && (Keywords.Lookup(t.lexeme).None? ==> t.kind == IDENTIFIER)
      && !IsAlphaNumeric(PeekAt(src, s.cursor))
  {
  }

  /** A character the scanner does not know is consumed and reported, and makes no token. */
  lemma {:induction false} UnknownCharacter(src: string, c: nat, ln: int)
    requires c < |src|
    requires var ch := src[c];
      SingleCharKind(ch).None? && OperatorKinds(ch).None? && !IsAlphaNumeric(ch)
      && ch !in {'!', '/', ' ', '\r', '\t', '\n', '"', '\''}
    ensures Step(src, c, ln) == StepOut([], [LexError(ln, "Unexpected token: " + [src[c]])], c + 1, ln)
  {
  }

  /** `=`, `<` and `>` take a following `=` into a two-character token. */
  lemma {:induction false} ComparisonOperators(src: string, c: nat, ln: int)
    requires c < |src| && OperatorKinds(src[c]).Some?
    ensures var s := Step(src, c, ln);
      var (one, two) := OperatorKinds(src[c]).value;
      s.StepOut? && s.diags == [] && |s.emitted| == 1
      && (PeekAt(src, c + 1) == '=' ==> s.cursor == c + 2 && s.emitted[0].kind == two)
      && (PeekAt(src, c + 1) != '=' ==> s.cursor == c + 1 && s.emitted[0].kind == one)
  {
  }
}
