/** Runtime values of the evaluator and the operator rules of `visitBinaryExpr` and
    `visitUnaryExpr` once the operands are evaluated, with JavaScript's truthiness and strict
    equality. Numbers are exact reals; NaN is kept apart because the operators can produce it. */
module Values {
  import opened Tokens
  import opened Wrappers
  import Ast

  /** A JavaScript value the evaluator handles: `undefined`, `null`, a boolean, a number, NaN,
      a string, a LoxFunction object (its identity and declaration) or the native `clock`. */
  datatype Value =
    | Undefined
    | Null
    | Bool(b: bool)
    | Num(r: real)
    | NaN
    | Str(s: string)
    | Fn(id: nat, decl: Ast.FunctionDecl)
    | Native

  /** What a visitor returns: a value, or the exception that escapes it. RuntimeErr is the
      source's RuntimeError; TypeErr is a JavaScript TypeError (a missing method or a read of a
      property of `undefined`); OutOfFuel and Unmodelled mark where the model stops following
      the source (a loop past its iteration budget, number text this model does not produce). */
  datatype Signal = RuntimeErr(token: Token, message: string) | TypeErr | OutOfFuel | Unmodelled

  datatype Completion<T> = Ok(value: T) | Abrupt(signal: Signal)

  const OperandMessage := "Operand must be a number."
  const DivisionMessage := "Division operand cannot be 0"
  const PlusMessage := "Operands of '+' operator must be numbers or strings."

  /** `typeof v === 'number'`: NaN is a number too. */
  predicate IsNumber(v: Value) { v.Num? || v.NaN? }

  /** JavaScript's `Boolean(v)`. */
  predicate ToBoolean(v: Value)
  {
    match v
    case Undefined => false
    case Null => false
    case Bool(b) => b
    case Num(r) => r != 0.0
    case NaN => false
    case Str(s) => s != ""
    case Fn(_, _) => true
    case Native => true
  }

  /** `isTruthy`: null is false, every other value is `Boolean(v)`. */
  function IsTruthy(v: Value): (b: bool)
    ensures b <==> v !in {Undefined, Null, Bool(false), Num(0.0), NaN, Str("")}
  {
    if v.Null? then false else ToBoolean(v)
  }

  /** The `typeof` category of a value, `null` counted apart. */
  function TypeTag(v: Value): nat
  {
    match v
    case Undefined => 0
    case Null => 1
    case Bool(_) => 2
    case Num(_) => 3
    case NaN => 3
    case Str(_) => 4
    case Fn(_, _) => 5
    case Native => 5
  }

  /** JavaScript's `===`: values of different types differ; numbers compare by value and NaN
      equals nothing; everything else compares by content or by object identity. */
  predicate StrictEquals(a: Value, b: Value)
  {
    TypeTag(a) == TypeTag(b) && (if IsNumber(a) then a.Num? && b.Num? && a.r == b.r else a == b)
  }

  /** `isEqual`: two nulls are equal, otherwise strict equality with no coercion. */
  function IsEqual(a: Value, b: Value): (eq: bool)
    ensures eq <==> a == b && !a.NaN?
  {
    if a.Null? && b.Null? then true else StrictEquals(a, b)
  }

  /** The digit strings JavaScript's `Number` reads as their decimal value; the empty string
      is one of them and reads as 0. */
  predicate AllDigits(s: string)
  {
    forall i :: 0 <= i < |s| ==> '0' <= s[i] <= '9'
  }

  /** JavaScript's `Number(v)`, as far as this model follows it. A string holding a quote
      character is NaN, since no numeric spelling contains one; None for any other string
      that is not a run of digits (signs, fractions, exponents, blanks and the other
      spellings `Number` accepts are not modelled). */
  function ToNumber(v: Value): (r: Option<Value>)
    ensures r.Some? ==> IsNumber(r.value)
  {
    match v
    case Undefined => Some(NaN)
    case Null => Some(Num(0.0))
    case Bool(b) => Some(Num(if b then 1.0 else 0.0))
    case Num(_) => Some(v)
    case NaN => Some(NaN)
    case Str(s) =>
      if AllDigits(s) then Some(Num(DigitsValue(s) as real))
      else if '"' in s || '\'' in s then Some(NaN)
      else None
    case Fn(_, _) => Some(NaN)
    case Native => Some(NaN)
  }

  /** The arithmetic negation of a number. */
  function Negate(v: Value): Value
    requires IsNumber(v)
  {
    if v.NaN? then NaN else Num(-v.r)
  }

  /** The operand of unary minus: `-(Number(v))`. */
  function Negative(v: Value): (r: Option<Value>)
    ensures r.Some? ==> IsNumber(r.value)
  {
    match ToNumber(v)
    case None => None
    case Some(n) => Some(Negate(n))
  }

  /** `String(n)` for a number: the decimal text of an integer below 10^21 in size, or "NaN".
      Fractions and larger numbers are printed in forms this model does not produce. */
  function NumText(v: Value): Option<string>
    requires IsNumber(v)
  {
    if v.NaN? then Some("NaN")
    else if v.r.Floor as real == v.r && -1000000000000000000000.0 < v.r < 1000000000000000000000.0 then
      Some(IntText(v.r.Floor))
    else None
  }

  /** `String(v)` for a string or a number. */
  function Text(v: Value): Option<string>
    requires v.Str? || IsNumber(v)
  {
    if v.Str? then Some(v.s) else NumText(v)
  }

  /** Arithmetic on two numbers; any NaN operand gives NaN. */
  function Arith(op: TokenKind, x: Value, y: Value): Value
    requires IsNumber(x) && IsNumber(y) && op in {STAR, MINUS, PLUS, SLASH}
    requires op == SLASH ==> y != Num(0.0)
  {
    if x.NaN? || y.NaN? then NaN
    else match op
      case STAR => Num(x.r * y.r)
      case MINUS => Num(x.r - y.r)
      case PLUS => Num(x.r + y.r)
      case SLASH => Num(x.r / y.r)
  }

  /** The four ordering comparisons; any comparison with NaN is false. */
  predicate Compare(op: TokenKind, x: Value, y: Value)
    requires IsNumber(x) && IsNumber(y) && op in {LESS, LESS_EQUAL, GREATER, GREATER_EQUAL}
  {
    if x.NaN? || y.NaN? then false
    else match op
      case LESS => x.r < y.r
      case LESS_EQUAL => x.r <= y.r
      case GREATER => x.r > y.r
      case GREATER_EQUAL => x.r >= y.r
  }

  /** The operator switch of `visitBinaryExpr` applied to the evaluated operands. */
  function BinaryOp(op: Token, l: Value, r: Value): (res: Completion<Value>)
    ensures res.Abrupt? ==> res.signal.Unmodelled? || res.signal.RuntimeErr?
  {
    var numbers := IsNumber(l) && IsNumber(r);
    match op.kind
    case STAR =>
      if !numbers then Abrupt(RuntimeErr(op, OperandMessage)) else Ok(Arith(STAR, l, r))
    case MINUS =>
      if !numbers then Abrupt(RuntimeErr(op, OperandMessage)) else Ok(Arith(MINUS, l, r))
    case SLASH =>
      if r == Num(0.0) then Abrupt(RuntimeErr(op, DivisionMessage))
      else if !numbers then Abrupt(RuntimeErr(op, OperandMessage))
      else if l == Num(0.0) then Ok(Num(0.0))
      else Ok(Arith(SLASH, l, r))
    case EQUAL_EQUAL => Ok(Bool(IsEqual(l, r)))
    case NOT_EQUAL => Ok(Bool(!IsEqual(l, r)))
    case LESS_EQUAL =>
      if !numbers then Abrupt(RuntimeErr(op, OperandMessage)) else Ok(Bool(Compare(LESS_EQUAL, l, r)))
    case GREATER_EQUAL =>
      if !numbers then Abrupt(RuntimeErr(op, OperandMessage)) else Ok(Bool(Compare(GREATER_EQUAL, l, r)))
    case LESS =>
      if !numbers then Abrupt(RuntimeErr(op, OperandMessage)) else Ok(Bool(Compare(LESS, l, r)))
    case GREATER =>
      if !numbers then Abrupt(RuntimeErr(op, OperandMessage)) else Ok(Bool(Compare(GREATER, l, r)))
    case PLUS =>
      if (l.Str? && IsNumber(r)) || (IsNumber(l) && r.Str?) then
        match (Text(l), Text(r))
        case (Some(a), Some(b)) => Ok(Str(a + b))
        case _ => Abrupt(Unmodelled)
      else if l.Str? && r.Str? then Ok(Str(l.s + r.s))
      else if numbers then Ok(Arith(PLUS, l, r))
      else Abrupt(RuntimeErr(op, PlusMessage))
    case _ => Ok(Null)
  }

  /** The falsy values are exactly `undefined`, `null`, `false`, 0, NaN and the empty string. */
  lemma {:induction false} TruthinessTable(v: Value)
    ensures !IsTruthy(v) <==> v in {Undefined, Null, Bool(false), Num(0.0), NaN, Str("")}
  {
  }

  /** `isEqual` holds exactly between identical values other than NaN: no coercion between
      types, and `null` and `undefined` differ. */
  lemma {:induction false} IsEqualIffIdentical(a: Value, b: Value)
    ensures IsEqual(a, b) <==> a == b && !a.NaN?
  {
    if a.Num? && b.Num? && a.r == b.r {
      assert a == b;
    }
  }

  /** `!=` is the negation of `==` on every pair of values. */
  lemma {:induction false} NotEqualNegatesEqual(eq: Token, ne: Token, l: Value, r: Value)
    requires eq.kind == EQUAL_EQUAL && ne.kind == NOT_EQUAL
    ensures BinaryOp(eq, l, r).Ok? && BinaryOp(ne, l, r).Ok?
    ensures BinaryOp(ne, l, r).value == Bool(!BinaryOp(eq, l, r).value.b)
  {
  }

  /** `*`, `-`, `<`, `<=`, `>` and `>=` fail, with "Operand must be a number." on the operator,
      exactly when an operand is not a number, and never fail otherwise. */
  lemma {:induction false} NumericOperatorsNeedNumbers(op: Token, l: Value, r: Value)
    requires op.kind in {STAR, MINUS, LESS, LESS_EQUAL, GREATER, GREATER_EQUAL}
    ensures BinaryOp(op, l, r).Abrupt? <==> !(IsNumber(l) && IsNumber(r))
    ensures BinaryOp(op, l, r).Abrupt? ==> BinaryOp(op, l, r).signal == RuntimeErr(op, OperandMessage)
  {
  }

  /** A zero divisor is reported before the operand types are looked at: even a string divided
      by zero gives "Division operand cannot be 0". */
  lemma {:induction false} ZeroDivisorCheckedFirst(op: Token, l: Value)
    requires op.kind == SLASH
    ensures BinaryOp(op, l, Num(0.0)) == Abrupt(RuntimeErr(op, DivisionMessage))
  {
  }

  /** A zero dividend gives 0 for any number divisor other than 0, NaN included. */
  lemma {:induction false} ZeroDividendGivesZero(op: Token, r: Value)
    requires op.kind == SLASH && IsNumber(r) && r != Num(0.0)
    ensures BinaryOp(op, Num(0.0), r) == Ok(Num(0.0))
  {
  }

  /** Division of numbers inverts multiplication. */
  lemma {:induction false} DivisionInvertsMultiplication(op: Token, times: Token, x: real, y: real)
    requires op.kind == SLASH && times.kind == STAR && y != 0.0
    ensures BinaryOp(op, Num(x), Num(y)).Ok?
    ensures BinaryOp(times, BinaryOp(op, Num(x), Num(y)).value, Num(y)) == Ok(Num(x))
  {
    if x != 0.0 {
      var q := x / y;
      assert BinaryOp(op, Num(x), Num(y)) == Ok(Num(q));
      assert q * y == x;
      assert Arith(STAR, Num(q), Num(y)) == Num(q * y);
      assert BinaryOp(times, Num(q), Num(y)) == Ok(Arith(STAR, Num(q), Num(y)));
    } else {
      assert BinaryOp(op, Num(x), Num(y)) == Ok(Num(0.0));
      assert Arith(STAR, Num(0.0), Num(y)) == Num(0.0 * y);
    }
  }

  /** Subtraction undoes the addition of two numbers. */
  lemma {:induction false} SubtractionInvertsAddition(plus: Token, minus: Token, x: real, y: real)
    requires plus.kind == PLUS && minus.kind == MINUS
    ensures BinaryOp(plus, Num(x), Num(y)) == Ok(Num(x + y))
    ensures BinaryOp(minus, BinaryOp(plus, Num(x), Num(y)).value, Num(y)) == Ok(Num(x))
  {
  }

  /** `+` fails with its RuntimeError exactly when an operand is neither a number nor a string. */
  lemma {:induction false} PlusOperandTypes(op: Token, l: Value, r: Value)
    requires op.kind == PLUS
    ensures (BinaryOp(op, l, r).Abrupt? && BinaryOp(op, l, r).signal.RuntimeErr?)
      <==> !((l.Str? || IsNumber(l)) && (r.Str? || IsNumber(r)))
    ensures BinaryOp(op, l, r).Abrupt? && BinaryOp(op, l, r).signal.RuntimeErr? ==>
      BinaryOp(op, l, r).signal == RuntimeErr(op, PlusMessage)
  {
  }

  /** `+` on two strings concatenates them; on a string and an integer it appends or prepends
      the integer's decimal text. */
  lemma {:induction false} PlusOnText(op: Token, a: string, b: string, n: int)
    requires op.kind == PLUS && -1000000000000000000000 < n < 1000000000000000000000
    ensures BinaryOp(op, Str(a), Str(b)) == Ok(Str(a + b))
    ensures BinaryOp(op, Str(a), Num(n as real)) == Ok(Str(a + IntText(n)))
    ensures BinaryOp(op, Num(n as real), Str(b)) == Ok(Str(IntText(n) + b))
  {
    assert (n as real).Floor == n;
  }

  /** Number and text round trip: reading back the text `+` gives a natural number yields that
      number. */
  lemma {:induction false} NumTextRoundTrip(n: nat)
    requires n < 1000000000000000000000
    ensures NumText(Num(n as real)) == Some(IntText(n))
    ensures ToNumber(Str(IntText(n))) == Some(Num(n as real))
  {
    assert (n as real).Floor == n;
    DigitsRoundTrip(n);
  }

  /** Text holding a quote character, such as the lexeme of a string literal, is not a
      number: `Number` of it and its negation are NaN. */
  lemma {:induction false} QuotedTextIsNaN(s: string)
    requires '"' in s || '\'' in s
    ensures ToNumber(Str(s)) == Some(NaN) && Negative(Str(s)) == Some(NaN)
  {
  }

  /** `a < b` is `b > a` and `a <= b` is `b >= a`; two numbers other than NaN are either
      ordered one way or equal. */
  lemma {:induction false} ComparisonsMirror(lt: Token, le: Token, gt: Token, ge: Token, eq: Token, x: real, y: real)
    requires lt.kind == LESS && le.kind == LESS_EQUAL && gt.kind == GREATER && ge.kind == GREATER_EQUAL
    requires eq.kind == EQUAL_EQUAL
    ensures BinaryOp(lt, Num(x), Num(y)) == BinaryOp(gt, Num(y), Num(x))
    ensures BinaryOp(le, Num(x), Num(y)) == BinaryOp(ge, Num(y), Num(x))
    ensures BinaryOp(lt, Num(x), Num(y)) == Ok(Bool(true)) || BinaryOp(gt, Num(x), Num(y)) == Ok(Bool(true))
      || BinaryOp(eq, Num(x), Num(y)) == Ok(Bool(true))
  {
  }

  /** NaN is unordered and unequal, even to itself. */
  lemma {:induction false} NaNIsUnordered(op: Token, v: Value)
    requires op.kind in {LESS, LESS_EQUAL, GREATER, GREATER_EQUAL, EQUAL_EQUAL} && IsNumber(v)
    ensures BinaryOp(op, NaN, v) == Ok(Bool(false)) && BinaryOp(op, v, NaN) == Ok(Bool(false))
  {
  }

  /** Unary minus applied twice gives back `Number(v)`. */
  lemma {:induction false} NegationInvolutive(v: Value)
    requires Negative(v).Some?
    ensures Negative(Negative(v).value) == ToNumber(v)
  {
  }

  /** Operators without a case in the switch, `=` among them, give null. */
  lemma {:induction false} OtherOperatorsGiveNull(op: Token, l: Value, r: Value)
    requires op.kind !in {STAR, MINUS, SLASH, EQUAL_EQUAL, NOT_EQUAL, LESS_EQUAL, GREATER_EQUAL, LESS, GREATER, PLUS}
    ensures BinaryOp(op, l, r) == Ok(Null)
  {
  }
}
