/** The variable store: one map from names to values, with no link to an enclosing store
    (the constructor ignores the environment it is given). `assign` is the version that
    returns the current value without storing the new one. */
module Environments {
  import opened Tokens
  import opened Values

  const UndefinedPrefix := "Undefined variable "

  /** What `get` (and `assign`) answers for a token: the stored value, or the RuntimeError
      naming the variable. */
  function Read(vars: map<string, Value>, t: Token): Completion<Value>
  {
    if t.lexeme in vars then Ok(vars[t.lexeme]) else Abrupt(RuntimeErr(t, UndefinedPrefix + t.lexeme))
  }

  class Environment {
    var vars: map<string, Value>

    /** A new environment is empty, whatever environment the caller meant to enclose it. */
    constructor ()
      ensures vars == map[]
    {
      vars := map[];
    }

    /** `define`: insert or overwrite one name. */
    method Define(name: string, v: Value)
      modifies this
      ensures vars == old(vars)[name := v]
    {
      vars := vars[name := v];
    }

    /** `delete`: remove one name. */
    method Delete(name: string)
      modifies this
      ensures vars == old(vars) - {name}
    {
      vars := vars - {name};
    }

    method Get(t: Token) returns (r: Completion<Value>)
      ensures r == Read(vars, t)
    {
      if t.lexeme in vars {
        r := Ok(vars[t.lexeme]);
      } else {
        r := Abrupt(RuntimeErr(t, UndefinedPrefix + t.lexeme));
      }
    }

    /** `assign`: looks the name up like `get` and stores nothing; the value passed is unused. */
    method Assign(t: Token, v: Value) returns (r: Completion<Value>)
      ensures r == Read(vars, t)
    {
      r := Get(t);
    }
  }

  /** After `define(n, v)`, reading `n` gives `v` and every other name reads as before. */
  lemma {:induction false} ReadAfterDefine(vars: map<string, Value>, name: string, v: Value, t: Token)
    ensures t.lexeme == name ==> Read(vars[name := v], t) == Ok(v)
    ensures t.lexeme != name ==> Read(vars[name := v], t) == Read(vars, t)
  {
  }

  /** After `delete(n)`, reading `n` fails and every other name reads as before. */
  lemma {:induction false} ReadAfterDelete(vars: map<string, Value>, name: string, t: Token)
    ensures t.lexeme == name ==> Read(vars - {name}, t) == Abrupt(RuntimeErr(t, UndefinedPrefix + name))
    ensures t.lexeme != name ==> Read(vars - {name}, t) == Read(vars, t)
  {
  }

  /** Reading fails exactly for the names that are not stored, and a fresh environment stores
      no name at all. */
  lemma {:induction false} ReadFailsIffAbsent(vars: map<string, Value>, t: Token)
    ensures Read(vars, t).Abrupt? <==> t.lexeme !in vars
    ensures Read(map[], t) == Abrupt(RuntimeErr(t, UndefinedPrefix + t.lexeme))
  {
  }

  /** Defining a name and deleting it again leaves the names other than it as they were, and
      removes it if it was there before. */
  lemma {:induction false} DeleteUndoesDefine(vars: map<string, Value>, name: string, v: Value)
    ensures vars[name := v] - {name} == vars - {name}
    ensures name !in vars ==> vars[name := v] - {name} == vars
  {
  }
}
