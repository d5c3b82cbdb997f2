/** Tokens produced by the scanner and the diagnostics every stage appends to its log. */
module Tokens {

  /** The token categories the scanner, the keyword table and the parser use. */
  datatype TokenKind =
    | LEFT_PAREN | RIGHT_PAREN | LEFT_BRACE | RIGHT_BRACE
    | COMMA | DOT | MINUS | PLUS | SEMICOLON | SLASH | STAR
    | NOT | NOT_EQUAL | EQUAL | EQUAL_EQUAL
    | GREATER | GREATER_EQUAL | LESS | LESS_EQUAL
    | IDENTIFIER | STRING | NUMBER
    | AND | CLASS | ELSE | FALSE | FUNCTION | FOR | IF | NULL | OR
    | PRINT | RETURN | SUPER | THIS | TRUE | VAR | WHILE
    | EOF

  /** The decoded literal a token carries: JavaScript `null`, a number or a string. */
  datatype TokenLiteral = NoLiteral | NumLit(n: nat) | StrLit(s: string)

  /** An immutable token record: kind, exact lexeme, decoded literal and source line. */
  datatype Token = Token(kind: TokenKind, lexeme: string, literal: TokenLiteral, line: int)

  /** One entry of a stage's diagnostics log.
      LexError is the scanner's `signalError(line, message)`; TokenError is `error(token, message)`
      as the parser and the resolver call it; RuntimeFault is `runtimeError(token, message)`. */
  datatype Diagnostic =
    | LexError(line: int, message: string)
    | TokenError(token: Token, message: string)
    | RuntimeFault(token: Token, message: string)

  /** Decimal value of a run of ASCII digits, as JavaScript's `Number` reads it. */
  function DigitsValue(s: string): (v: nat)
    requires forall i :: 0 <= i < |s| ==> '0' <= s[i] <= '9'
    decreases |s|
  {
    if s == [] then 0 else 10 * DigitsValue(s[..|s| - 1]) + (s[|s| - 1] as int - '0' as int)
  }

  /** Decimal text of an integer, as JavaScript prints an integral number. */
  function IntText(n: int): (s: string)
    ensures |s| >= 1
    decreases if n < 0 then -n + 1 else n
  {
    if n < 0 then "-" + IntText(-n)
    else if n < 10 then [(('0' as int) + n) as char]
    else IntText(n / 10) + [(('0' as int) + n % 10) as char]
  }

  /** Reading back the decimal text of a natural number gives the number. */
  lemma {:induction false} DigitsRoundTrip(n: nat)
    ensures forall i :: 0 <= i < |IntText(n)| ==> '0' <= IntText(n)[i] <= '9'
    ensures DigitsValue(IntText(n)) == n
    decreases n
  {
    if n >= 10 {
      DigitsRoundTrip(n / 10);
      var s := IntText(n / 10);
      var d := (('0' as int) + n % 10) as char;
      assert IntText(n) == s + [d];
      assert (s + [d])[..|s + [d]| - 1] == s;
    }
  }
}
