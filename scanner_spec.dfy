/** What one call of the scanner's `recognizeToken` does, and what a whole `scanTokens` run
    produces, as functions of the source text, the cursor and the line counter. */
module ScanSpec {
  import opened Tokens
  import opened Wrappers
  import Keywords

  /** `peek`: the character at a position, or '\0' at and past the end. */
  function PeekAt(src: string, p: nat): char
  {
    if p < |src| then src[p] else '\0'
  }

  /** `isDigit` on a single character: its `Number`-based test admits exactly the ten ASCII digits. */
  predicate IsDigit(c: char) { '0' <= c <= '9' }

  /** `isAlpha`: an ASCII letter or an underscore. */
  predicate IsAlpha(c: char) { 'a' <= c <= 'z' || 'A' <= c <= 'Z' || c == '_' }

  predicate IsAlphaNumeric(c: char) { IsAlpha(c) || IsDigit(c) }

  /** The loop conditions the scanner hands to `readWhileMatching` (and the loop of
      `skipInlineComment`, LineRest), as data instead of closures. */
  datatype RunKind = Digits | Word | StringBody(quote: char) | CommentBody | LineRest

  /** The loop condition of each kind, evaluated with the cursor at `p`. */
  predicate Continues(kind: RunKind, src: string, p: nat)
  {
    match kind
    case Digits => IsDigit(PeekAt(src, p))
    case Word => IsAlphaNumeric(PeekAt(src, p))
    case StringBody(q) => PeekAt(src, p) != q && p != |src|
    case CommentBody => !(PeekAt(src, p) == '*' && PeekAt(src, p + 1) == '/')
    case LineRest => PeekAt(src, p) != '\n' && p != |src|
  }

  /** A closing star-slash starts at or after `p`. */
  predicate Closes(src: string, p: nat)
  {
    exists k :: p <= k && k + 1 < |src| && src[k] == '*' && src[k + 1] == '/'
  }

  /** The loops of every kind but CommentBody stop by the end of the text; CommentBody
      stops only where a closing star-slash exists. */
  predicate Stops(kind: RunKind, src: string, p: nat)
  {
    p <= |src| && (kind.CommentBody? ==> Closes(src, p))
  }

  lemma {:induction false} StopsStep(kind: RunKind, src: string, p: nat)
    requires Stops(kind, src, p) && Continues(kind, src, p)
    ensures p < |src| && Stops(kind, src, p + 1)
  {
    if kind.CommentBody? {
      var k :| p <= k && k + 1 < |src| && src[k] == '*' && src[k + 1] == '/';
      assert k != p;
    }
  }

  /** Where the loop that starts with the cursor at `p` stops: the run it skips is maximal. */
  function RunEnd(kind: RunKind, src: string, p: nat): (e: nat)
    requires Stops(kind, src, p)
    ensures p <= e <= |src| && !Continues(kind, src, e)
    decreases |src| - p
  {
    if !Continues(kind, src, p) then p
    else
      StopsStep(kind, src, p);
      RunEnd(kind, src, p + 1)
  }

  /** The run is maximal: the pattern holds at every position the loop skips. */
  lemma {:induction false} RunEndSkips(kind: RunKind, src: string, p: nat)
    requires Stops(kind, src, p)
    ensures forall i :: p <= i < RunEnd(kind, src, p) ==> Continues(kind, src, i)
    decreases |src| - p
  {
    if Continues(kind, src, p) {
      StopsStep(kind, src, p);
      RunEndSkips(kind, src, p + 1);
    }
  }

  /** The lines `readWhileMatching` adds while moving the cursor from `p` to `e`: after every
      step it looks at the character it landed on, so the newlines at positions p+1 .. e count. */
  function LinesAdded(src: string, p: nat, e: nat): nat
    requires p <= e
    decreases e - p
  {
    if e == p then 0 else LinesAdded(src, p, e - 1) + (if PeekAt(src, e) == '\n' then 1 else 0)
  }

  /** Kinds of the ten characters that always form a token on their own. */
  function SingleCharKind(ch: char): Option<TokenKind>
  {
    match ch
    case '(' => Some(LEFT_PAREN)
    case ')' => Some(RIGHT_PAREN)
    case '{' => Some(LEFT_BRACE)
    case '}' => Some(RIGHT_BRACE)
    case ',' => Some(COMMA)
    case '.' => Some(DOT)
    case '-' => Some(MINUS)
    case '+' => Some(PLUS)
    case ';' => Some(SEMICOLON)
    case '*' => Some(STAR)
    case _ => None
  }

  /** The one- and two-character kinds of `=`, `<` and `>`. */
  function OperatorKinds(ch: char): (r: Option<(TokenKind, TokenKind)>)
  {
    match ch
    case '=' => Some((EQUAL, EQUAL_EQUAL))
    case '<' => Some((LESS, LESS_EQUAL))
    case '>' => Some((GREATER, GREATER_EQUAL))
    case _ => None
  }

  /** The effect of one `recognizeToken` call: what it appends to the token list and to the
      diagnostics log, and the new cursor and line; or Unending when the call never returns
      (a block comment with no closing star-slash: `peek` answers '\0' past the end forever). */
  datatype StepOut =
    | StepOut(emitted: seq<Token>, diags: seq<Diagnostic>, cursor: nat, line: int)
    | Unending

  /** The output of a step is well formed: the cursor stays within the text and moves
      forward (or stays), and at most one token, never EOF, is appended. */
  ghost predicate Sane(src: string, c: nat, s: StepOut)
  {
    s.StepOut? ==>
      (c <= s.cursor <= |src| && |s.emitted| <= 1
       && forall i :: 0 <= i < |s.emitted| ==> s.emitted[i].kind != EOF)
  }

  /** A slash: a line comment, a block comment, or SLASH. */
  function SlashStep(src: string, c: nat, ln: int): (s: StepOut)
    requires c < |src| && src[c] == '/'
    ensures Sane(src, c, s)
  {
    if PeekAt(src, c + 1) == '/' then
      StepOut([], [], RunEnd(LineRest, src, c + 1), ln)
    else if PeekAt(src, c + 1) == '*' then
      if Closes(src, c + 2) then
        var e := RunEnd(CommentBody, src, c + 2);
        StepOut([], [], e + 2, ln + LinesAdded(src, c + 2, e))
      else Unending
    else
      // the token is added before the slash is eaten, so its lexeme is empty
      StepOut([Token(SLASH, "", NoLiteral, ln)], [], c + 1, ln)
  }

  /** A string delimited by the quote at `c`. */
  function StringStep(src: string, c: nat, ln: int): (s: StepOut)
    requires c < |src|
    ensures Sane(src, c, s) && s.StepOut?
  {
    var e := RunEnd(StringBody(src[c]), src, c + 1);
    StringClose(src, c, e, ln + LinesAdded(src, c + 1, e))
  }

  /** The end of a string whose body stops at `e`: the closing quote, or the end of the text. */
  function StringClose(src: string, c: nat, e: nat, ln: int): (s: StepOut)
    requires c < e <= |src|
    ensures Sane(src, c, s) && s.StepOut?
  {
    if e == |src| then
      StepOut([Token(STRING, src[c..e], StrLit(src[c + 1..e]), ln)],
              [LexError(ln, "Unterminated string."), LexError(ln, "Unexpected token: " + [src[c]])], e, ln)
    else
      StepOut([Token(STRING, src[c..e + 1], StrLit(src[c + 1..e]), ln)], [], e + 1, ln)
  }

  /** The digit run from `c` is all digits. */
  lemma AllDigits(src: string, c: nat)
    requires c <= |src|
    ensures forall i :: 0 <= i < |src[c..RunEnd(Digits, src, c)]| ==> '0' <= src[c..RunEnd(Digits, src, c)][i] <= '9'
  {
    var e := RunEnd(Digits, src, c);
    RunEndSkips(Digits, src, c);
    assert forall i :: 0 <= i < e - c ==> Continues(Digits, src, c + i) && src[c..e][i] == src[c + i];
  }

  /** A number: the maximal digit run from `c`. */
  function NumberStep(src: string, c: nat, ln: int): (s: StepOut)
    requires c < |src| && IsDigit(src[c])
    ensures Sane(src, c, s) && s.StepOut?
  {
    var e := RunEnd(Digits, src, c);
    var ln' := ln + LinesAdded(src, c, e);
    AllDigits(src, c);
    StepOut([Token(NUMBER, src[c..e], NumLit(DigitsValue(src[c..e])), ln')], [], e, ln')
  }

  /** An identifier or keyword: the maximal letter, digit and underscore run from `c`. */
  function WordStep(src: string, c: nat, ln: int): (s: StepOut)
    requires c < |src| && IsAlpha(src[c])
    ensures Sane(src, c, s) && s.StepOut?
  {
    var e := RunEnd(Word, src, c);
    var ln' := ln + LinesAdded(src, c, e);
    var name := src[c..e];
    var kind := match Keywords.Lookup(name) case Some(k) => k case None => IDENTIFIER;
    StepOut([Token(kind, name, StrLit(name), ln')], [], e, ln')
  }

  /** A `!`, alone or before `=`. */
  function BangStep(src: string, c: nat, ln: int): (s: StepOut)
    requires c < |src| && src[c] == '!'
    ensures Sane(src, c, s) && s.StepOut?
  {
    if PeekAt(src, c + 1) == '=' then
      // eat('=') is asked to match while the cursor is still on '!': it fails and leaves the cursor
      StepOut([Token(NOT_EQUAL, "", NoLiteral, ln)], [LexError(ln, "Unexpected token: =")], c, ln)
    else
      StepOut([Token(NOT, "!", NoLiteral, ln)], [], c + 1, ln)
  }

  /** `=`, `<` or `>`, alone or before `=`. */
  function OperatorStep(src: string, c: nat, ln: int): (s: StepOut)
    requires c < |src| && OperatorKinds(src[c]).Some?
    ensures Sane(src, c, s) && s.StepOut?
  {
    var (one, two) := OperatorKinds(src[c]).value;
    if PeekAt(src, c + 1) == '=' then StepOut([Token(two, src[c..c + 2], NoLiteral, ln)], [], c + 2, ln)
    else StepOut([Token(one, [src[c]], NoLiteral, ln)], [], c + 1, ln)
  }

  function Step(src: string, c: nat, ln: int): (s: StepOut)
    requires c < |src|
    ensures Sane(src, c, s)
  {
    var ch := src[c];
    if SingleCharKind(ch).Some? then
      StepOut([Token(SingleCharKind(ch).value, [ch], NoLiteral, ln)], [], c + 1, ln)
    else if ch == '!' then BangStep(src, c, ln)
    else if OperatorKinds(ch).Some? then OperatorStep(src, c, ln)
    else if ch == '/' then SlashStep(src, c, ln)
    else if ch == ' ' || ch == '\r' || ch == '\t' then StepOut([], [], c + 1, ln)
    else if ch == '\n' then StepOut([], [], c + 1, ln + 1)
    else if ch == '"' || ch == '\'' then StringStep(src, c, ln)
    else if IsDigit(ch) then NumberStep(src, c, ln)
    else if IsAlpha(ch) then WordStep(src, c, ln)
    else StepOut([], [LexError(ln, "Unexpected token: " + [ch])], c + 1, ln)
  }

  /** The outcome of `scanTokens` from a cursor and line: the tokens and diagnostics it appends,
      and whether its loop ends. When a step leaves the cursor where it was, the same step
      repeats forever; the tokens then hold what was appended before the repetition began. */
  datatype ScanResult = ScanResult(tokens: seq<Token>, diags: seq<Diagnostic>, ends: bool)

  function ScanFrom(src: string, c: nat, ln: int): ScanResult
    requires c <= |src|
    decreases |src| - c
  {
    if c == |src| then ScanResult([Token(EOF, "", NoLiteral, ln)], [], true)
    else
      match Step(src, c, ln)
      case Unending => ScanResult([], [], false)
      case StepOut(toks, ds, c', ln') =>
        if c' == c then ScanResult(toks, ds, false)
        else
          var rest := ScanFrom(src, c', ln');
          ScanResult(toks + rest.tokens, ds + rest.diags, rest.ends)
  }

  /** One turn of the scanning loop, from a cursor `c` and line `ln`, seen from the whole scan:
      `stuck` when the first step never returns or leaves the cursor in place. */
  ghost predicate Turn(src: string, c: nat, ln: int, t0: seq<Token>, d0: seq<Diagnostic>,
                       stuck: bool, c': nat, ln': int, t: seq<Token>, d: seq<Diagnostic>)
    requires c <= |src| && c' <= |src|
  {
    var before := ScanFrom(src, c, ln);
    if stuck then
      !before.ends && t == t0 + before.tokens && d == d0 + before.diags
    else
      var after := ScanFrom(src, c', ln');
      c < c' && t0 + before.tokens == t + after.tokens && d0 + before.diags == d + after.diags
      && before.ends == after.ends
  }

  /** The first step decides the turn. */
  lemma TurnByStep(src: string, c: nat, ln: int, t0: seq<Token>, d0: seq<Diagnostic>,
                   c': nat, ln': int, t: seq<Token>, d: seq<Diagnostic>)
    requires c < |src| && c' <= |src|
    requires var s := Step(src, c, ln);
      s.StepOut? ==> t == t0 + s.emitted && d == d0 + s.diags && c' == s.cursor && ln' == s.line
    ensures var s := Step(src, c, ln);
      Turn(src, c, ln, t0, d0, s.Unending? || c' == c, c', ln', if s.Unending? then t0 else t, if s.Unending? then d0 else d)
  {
    var s := Step(src, c, ln);
    if s.StepOut? && c' != c {
      var rest := ScanFrom(src, c', ln');
      assert ScanFrom(src, c, ln) == ScanResult(s.emitted + rest.tokens, s.diags + rest.diags, rest.ends);
      assert t0 + (s.emitted + rest.tokens) == t + rest.tokens;
      assert d0 + (s.diags + rest.diags) == d + rest.diags;
    }
  }

  /** The whole scan of a text, from cursor 0 on line 1. */
  function Scan(src: string): ScanResult
  {
    ScanFrom(src, 0, 1)
  }
}
