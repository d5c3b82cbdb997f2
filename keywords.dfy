/** The reserved-word table of the scanner, used as a lookup function. */
module Keywords {
  import opened Tokens
  import opened Wrappers

  /** The table, as the object literal maps each spelling to its kind. */
  const Reserved: map<string, TokenKind> := map[
    "and" := AND, "class" := CLASS, "else" := ELSE, "if" := IF, "for" := FOR,
    "false" := FALSE, "true" := TRUE, "function" := FUNCTION, "null" := NULL,
    "or" := OR, "pring" := PRINT, "return" := RETURN, "super" := SUPER,
    "this" := THIS, "var" := VAR, "while" := WHILE, "print" := PRINT
  ]

  /** Exact, case-sensitive lookup of a spelling in the table (the scanner's
      `Boolean(RESERVED_TOKEN_KEYWORDS[name])` test followed by the read). */
  function Lookup(name: string): (r: Option<TokenKind>)
    ensures r.Some? ==> forall k :: 0 <= k < |name| ==> 'a' <= name[k] <= 'z'
    ensures r == Some(PRINT) <==> name == "print" || name == "pring"
  {
    if name in Reserved then Some(Reserved[name]) else None
  }

  /** Every reserved spelling is made of lower-case letters only. */
  lemma {:induction false} ReservedAreLowerCase(name: string, k: nat)
    requires Lookup(name).Some? && k < |name|
    ensures 'a' <= name[k] <= 'z'
  {
  }

  /** Both `print` and the misspelling `pring` are PRINT; the function keyword is `function`,
      so `fun` is an ordinary name; `null`, `super` and `this` are reserved. */
  lemma {:induction false} NotableSpellings()
    ensures Lookup("print") == Some(PRINT) && Lookup("pring") == Some(PRINT)
    ensures Lookup("function") == Some(FUNCTION) && Lookup("fun") == None
    ensures Lookup("null") == Some(NULL) && Lookup("nil") == None
    ensures Lookup("super") == Some(SUPER) && Lookup("this") == Some(THIS)
  {
  }

  /** Lookup is case-sensitive: an upper-case letter anywhere makes a spelling unreserved. */
  lemma {:induction false} CaseSensitive(name: string, k: nat)
    requires k < |name| && 'A' <= name[k] <= 'Z'
    ensures Lookup(name) == None
  {
    if Lookup(name).Some? {
      ReservedAreLowerCase(name, k);
    }
  }
}
