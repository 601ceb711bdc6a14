/** The calculator's expression tree: the closed set of token classes
    (Number, Addition, Subtraction, Multiplication, Division, ParentToken,
    Tree), their evaluation and their JSON serialisation. */
module Tokens {

  /** One node of the tree. `ParentToken` is a parenthesised group and `Tree`
      the root wrapper that `Tokenize` returns. */
  datatype Token =
    | Number(value: int)
    | Addition(left: Token, right: Token)
    | Subtraction(left: Token, right: Token)
    | Multiplication(left: Token, right: Token)
    | Division(left: Token, right: Token)
    | ParentToken(entry: Token)
    | Tree(entry: Token)
  {
    predicate IsBinary() {
      Addition? || Subtraction? || Multiplication? || Division?
    }
  }

  /** The only exception evaluation can raise. */
  datatype EvalError = DivideByZero

  datatype EvalResult = Value(n: int) | Failed(error: EvalError)

  function Abs(x: int): nat {
    if x >= 0 then x else -x
  }

  /** C#'s `/` on `int`: the quotient truncated toward zero (Dafny's own `/`
      is Euclidean). */
  function TruncDiv(a: int, b: int): int
    requires b != 0
  {
    var m := Abs(a) / Abs(b);
    if (a >= 0) == (b > 0) then m else -m
  }

  lemma DivOfNat(x: nat, y: nat)
    requires y > 0
    ensures x == (x / y) * y + x % y && 0 <= x % y < y && x / y >= 0
    ensures x / y == 0 <==> x < y
  {
  }

  /** The quotient is the truncated one: it is zero or has the sign of
      `a * b`, and the remainder it leaves is smaller than the divisor in
      magnitude and never has the opposite sign of the dividend. */
  lemma TruncDivRemainder(a: int, b: int)
    requires b != 0
    ensures var q := TruncDiv(a, b); q == 0 || ((q > 0) <==> ((a > 0) == (b > 0)))
    ensures Abs(a - TruncDiv(a, b) * b) < Abs(b)
    ensures a - TruncDiv(a, b) * b == 0 || ((a - TruncDiv(a, b) * b > 0) <==> (a > 0))
  {
    var x: int, y: int := Abs(a), Abs(b);
    var m: int, rm: int := x / y, x % y;
    DivOfNat(x, y);
    var q := TruncDiv(a, b);
    var p := m * y;
    NegatedProducts(m, y);
    if a >= 0 && b > 0 {
      assert q == m && b == y && q * b == p;
      assert a - q * b == rm;
    } else if a >= 0 {
      assert q == -m && b == -y && q * b == p;
      assert a - q * b == rm;
    } else if b > 0 {
      assert q == -m && b == y && q * b == -p;
      assert a - q * b == -rm;
    } else {
      assert q == m && b == -y && q * b == -p;
      assert a - q * b == -rm;
    }
  }

  lemma NegatedProducts(m: int, y: int)
    ensures (-m) * (-y) == m * y && (-m) * y == -(m * y) && m * (-y) == -(m * y)
  {
  }

  /** Structural evaluation; the right operand of a division is evaluated
      first and a zero divisor raises DivideByZero, which no node catches. */
  function Eval(t: Token): (r: EvalResult)
    ensures t.Number? ==> r == Value(t.value)
    ensures (t.ParentToken? || t.Tree?) ==> r == Eval(t.entry)
  {
    match t
    case Number(v) => Value(v)
    case Addition(l, r) => Combine(Eval(l), Eval(r), (x, y) => x + y)
    case Subtraction(l, r) => Combine(Eval(l), Eval(r), (x, y) => x - y)
    case Multiplication(l, r) => Combine(Eval(l), Eval(r), (x, y) => x * y)
    case Division(l, r) =>
      var divisor := Eval(r);
      if divisor.Failed? then divisor
      else if divisor.n == 0 then Failed(DivideByZero)
      else
        var dividend := Eval(l);
        if dividend.Failed? then dividend else Value(TruncDiv(dividend.n, divisor.n))
    case ParentToken(e) => Eval(e)
    case Tree(e) => Eval(e)
  }

  function Combine(a: EvalResult, b: EvalResult, op: (int, int) -> int): EvalResult {
    if a.Failed? then a else if b.Failed? then b else Value(op(a.n, b.n))
  }

  /** Independent description of when evaluation fails: some division in the
      tree has a right operand that evaluates to zero. */
  predicate HasZeroDivisor(t: Token) {
    match t
    case Number(_) => false
    case Addition(l, r) => HasZeroDivisor(l) || HasZeroDivisor(r)
    case Subtraction(l, r) => HasZeroDivisor(l) || HasZeroDivisor(r)
    case Multiplication(l, r) => HasZeroDivisor(l) || HasZeroDivisor(r)
    case Division(l, r) => HasZeroDivisor(l) || HasZeroDivisor(r) || Eval(r) == Value(0)
    case ParentToken(e) => HasZeroDivisor(e)
    case Tree(e) => HasZeroDivisor(e)
  }

  /** A zero divisor anywhere in the tree propagates out of the root, and it
      is the only way evaluation fails. */
  lemma {:induction false} EvalFailsIffZeroDivisor(t: Token)
    ensures Eval(t).Failed? <==> HasZeroDivisor(t)
  {
    match t
    case Number(_) =>
    case Addition(l, r) => EvalFailsIffZeroDivisor(l); EvalFailsIffZeroDivisor(r);
    case Subtraction(l, r) => EvalFailsIffZeroDivisor(l); EvalFailsIffZeroDivisor(r);
    case Multiplication(l, r) => EvalFailsIffZeroDivisor(l); EvalFailsIffZeroDivisor(r);
    case Division(l, r) => EvalFailsIffZeroDivisor(l); EvalFailsIffZeroDivisor(r);
    case ParentToken(e) => EvalFailsIffZeroDivisor(e);
    case Tree(e) => EvalFailsIffZeroDivisor(e);
  }

  /** The arithmetic of each binary node on successful operands. */
  lemma BinaryEval(t: Token, x: int, y: int)
    requires t.IsBinary() && Eval(t.left) == Value(x) && Eval(t.right) == Value(y)
    ensures t.Addition? ==> Eval(t) == Value(x + y)
    ensures t.Subtraction? ==> Eval(t) == Value(x - y)
    ensures t.Multiplication? ==> Eval(t) == Value(x * y)
    ensures t.Division? ==> Eval(t) == if y == 0 then Failed(DivideByZero) else Value(TruncDiv(x, y))
  {
  }

  // ---------------------------------------------------------------------
  // Decimal text and JSON

  function DigitChar(d: nat): (c: char)
    requires d < 10
    ensures '0' <= c <= '9'
  {
    ('0' as int + d) as char
  }

  /** `$"{n}"` for a non-negative `int`: decimal digits, most significant first. */
  function NatText(n: nat): (s: string)
    ensures |s| >= 1
    ensures forall i :: 0 <= i < |s| ==> '0' <= s[i] <= '9'
    decreases n
  {
    if n < 10 then [DigitChar(n)] else NatText(n / 10) + [DigitChar(n % 10)]
  }

  /** `$"{n}"` for any `int`: a leading '-' for negatives. */
  function IntText(n: int): string {
    if n >= 0 then NatText(n) else "-" + NatText(-n)
  }

  function Symbol(t: Token): char
    requires t.IsBinary()
  {
    match t
    case Addition(_, _) => '+'
    case Subtraction(_, _) => '-'
    case Multiplication(_, _) => '*'
    case Division(_, _) => '/'
  }

  /** `ToJSON` of every node class. */
  function ToJSON(t: Token): (s: string)
    ensures t.Tree? ==> s == ToJSON(t.entry)
  {
    match t
    case Number(v) => IntText(v)
    case ParentToken(e) => JSONObject("\"Parent\": " + ToJSON(e))
    case Tree(e) => ToJSON(e)
    case _ =>
      JSONObject(OperationField(Symbol(t)) + ", \"Left\": " + ToJSON(t.left) + ", \"Right\": " + ToJSON(t.right))
  }

  function JSONObject(fields: string): string {
    "{" + fields + "}"
  }

  function OperationField(sym: char): string {
    "\"Operation\": \"" + [sym] + "\""
  }

  /** Occurrences of `c` in `s`. */
  function Count(s: string, c: char): nat {
    if s == [] then 0 else Count(s[..|s| - 1], c) + (if s[|s| - 1] == c then 1 else 0)
  }

  lemma {:induction false} CountConcat(a: string, b: string, c: char)
    ensures Count(a + b, c) == Count(a, c) + Count(b, c)
    decreases |b|
  {
    if b == [] {
      assert a + b == a;
    } else {
      assert (a + b)[..|a + b| - 1] == a + b[..|b| - 1];
      CountConcat(a, b[..|b| - 1], c);
    }
  }

  lemma {:induction false} CountAbsent(s: string, c: char)
    requires c !in s
    ensures Count(s, c) == 0
    decreases |s|
  {
    if s != [] {
      CountAbsent(s[..|s| - 1], c);
    }
  }

  /** Number of nodes that `ToJSON` writes as an object. */
  function ObjectNodes(t: Token): nat {
    match t
    case Number(_) => 0
    case ParentToken(e) => 1 + ObjectNodes(e)
    case Tree(e) => ObjectNodes(e)
    case _ => 1 + ObjectNodes(t.left) + ObjectNodes(t.right)
  }

  /** The serialisation is brace-balanced: every object node opens and closes
      exactly one brace, and numbers and `Tree` add none. */
  lemma {:induction false} JSONBracesBalanced(t: Token)
    ensures Count(ToJSON(t), '{') == ObjectNodes(t) == Count(ToJSON(t), '}')
  {
    match t
    case Number(v) =>
      NumberBraces(v);
    case ParentToken(e) =>
      JSONBracesBalanced(e);
      ParentBraces(e);
    case Tree(e) =>
      JSONBracesBalanced(e);
    case _ =>
      JSONBracesBalanced(t.left);
      JSONBracesBalanced(t.right);
      BinaryBraces(t);
  }

  lemma ParentBraces(e: Token)
    ensures Count(ToJSON(ParentToken(e)), '{') == Count(ToJSON(e), '{') + 1
    ensures Count(ToJSON(ParentToken(e)), '}') == Count(ToJSON(e), '}') + 1
  {
    var key := "\"Parent\": ";
    CountAbsent(key, '{');
    CountAbsent(key, '}');
    CountConcat(key, ToJSON(e), '{');
    CountConcat(key, ToJSON(e), '}');
    ObjectBraces(key + ToJSON(e));
  }

  lemma BinaryBraces(t: Token)
    requires t.IsBinary()
    ensures Count(ToJSON(t), '{') == Count(ToJSON(t.left), '{') + Count(ToJSON(t.right), '{') + 1
    ensures Count(ToJSON(t), '}') == Count(ToJSON(t.left), '}') + Count(ToJSON(t.right), '}') + 1
  {
    var op := OperationField(Symbol(t));
    assert '{' !in op && '}' !in op;
    FieldsBraces(op, ", \"Left\": ", ToJSON(t.left), ", \"Right\": ", ToJSON(t.right));
    ObjectBraces(op + ", \"Left\": " + ToJSON(t.left) + ", \"Right\": " + ToJSON(t.right));
  }

  lemma NumberBraces(v: int)
    ensures Count(IntText(v), '{') == 0 && Count(IntText(v), '}') == 0
  {
    assert '{' !in IntText(v) && '}' !in IntText(v);
    CountAbsent(IntText(v), '{');
    CountAbsent(IntText(v), '}');
  }

  /** An object adds exactly one brace of each kind around its fields. */
  lemma ObjectBraces(fields: string)
    ensures Count(JSONObject(fields), '{') == Count(fields, '{') + 1
    ensures Count(JSONObject(fields), '}') == Count(fields, '}') + 1
  {
    assert "{"[..0] == [] && "}"[..0] == [];
    CountConcat("{", fields, '{');
    CountConcat("{", fields, '}');
    CountConcat("{" + fields, "}", '{');
    CountConcat("{" + fields, "}", '}');
  }

  /** Brace counts of `a + b + l + c + r` when the fixed texts `a`, `b`, `c`
      hold no brace. */
  lemma FieldsBraces(a: string, b: string, l: string, c: string, r: string)
    requires '{' !in a && '}' !in a && '{' !in b && '}' !in b && '{' !in c && '}' !in c
    ensures Count(a + b + l + c + r, '{') == Count(l, '{') + Count(r, '{')
    ensures Count(a + b + l + c + r, '}') == Count(l, '}') + Count(r, '}')
  {
    CountAbsent(a + b, '{');
    CountAbsent(a + b, '}');
    CountAbsent(c, '{');
    CountAbsent(c, '}');
    CountConcat(a + b, l, '{');
    CountConcat(a + b, l, '}');
    CountConcat(a + b + l, c, '{');
    CountConcat(a + b + l, c, '}');
    CountConcat(a + b + l + c, r, '{');
    CountConcat(a + b + l + c, r, '}');
  }
}
