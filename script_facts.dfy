/**
 * What the evaluator promises: integer literals read back their decimal
 * value, `/` rounds toward zero, an expression evaluates to its
 * mathematical value exactly when no step leaves 32 bits or divides by
 * zero (and never touches the variables), declarations and assignments
 * bind, and a program is the sequence of its statements.
 */
module ScriptFacts {
  import opened Wrappers
  import opened Ast
  import opened Script

  // ----- Decimal literals -----

  function DigitChar(d: nat): (c: char)
    requires d < 10
    ensures IsDigit(c) && DigitValue(c) == d
  {
    ('0' as int + d) as char
  }

  /** The decimal digits of `n`, without leading zeros. */
  function Digits(n: nat): (s: string)
    ensures |s| > 0
  {
    if n < 10 then [DigitChar(n)] else Digits(n / 10) + [DigitChar(n % 10)]
  }

  /** The decimal text of `n`, with a `-` when it is negative. */
  function Decimal(n: int): string
  {
    if n < 0 then "-" + Digits(-n) else Digits(n)
  }

  lemma {:induction false} DigitsValueOf(n: nat)
    ensures IsDigitString(Digits(n)) && DigitsValue(Digits(n)) == n
  {
    var s := Digits(n);
    if n >= 10 {
      DigitsValueOf(n / 10);
      assert s[..|s| - 1] == Digits(n / 10);
    }
  }

  /** `i32::from_str` reads back every `i32` from its decimal text, with or without a `+`. */
  lemma DecimalRoundTrip(n: i32)
    ensures ParseI32(Decimal(n)) == Some(n)
    ensures n >= 0 ==> ParseI32("+" + Decimal(n)) == Some(n)
  {
    if n < 0 {
      NegativeRoundTrip(-(n as int));
    } else {
      DigitsValueOf(n);
      PlusRoundTrip(n);
    }
  }

  lemma NegativeRoundTrip(m: nat)
    requires 0 < m <= -MinI32
    ensures ParseI32("-" + Digits(m)).Some? && ParseI32("-" + Digits(m)).value == -(m as int)
  {
    DigitsValueOf(m);
    var s := "-" + Digits(m);
    assert s[0] == '-';
    assert s[1..] == Digits(m);
  }

  lemma PlusRoundTrip(m: nat)
    requires m <= MaxI32
    ensures ParseI32("+" + Digits(m)) == Some(m)
  {
    DigitsValueOf(m);
    var s := "+" + Digits(m);
    assert s[0] == '+';
    assert s[1..] == Digits(m);
  }

  /** A digit string too large for 32 bits, or one with a non-digit in it, does not parse. */
  lemma ParseRejects(s: string)
    requires |s| > 0 && IsDigit(s[0])
    requires !IsDigitString(s) || DigitsValue(s) > MaxI32
    ensures ParseI32(s) == None
  {
  }

  // ----- Division -----

  /**
   * `TruncDiv` is division rounding toward zero: the remainder it leaves is
   * smaller than the divisor and has the sign of the dividend.
   */
  lemma TruncDivRemainder(a: int, b: int)
    requires b != 0
    ensures var r := a - TruncDiv(a, b) * b;
      Abs(r) < Abs(b) && (r == 0 || (r < 0 <==> a < 0))
  {
    var A: nat, B: nat := Abs(a), Abs(b);
    var q0: int := A / B;
    var P := q0 * B;
    EuclideanRemainder(A, B);
    var q := TruncDiv(a, b);
    var negQ := (a < 0) != (b < 0);
    assert q == (if negQ then -q0 else q0);
    assert b == (if b < 0 then -(B as int) else B);
    SignedProduct(q0, B, negQ, b < 0);
    assert q * b == (if a < 0 then -P else P);
    assert a == (if a < 0 then -(A as int) else A);
  }

  /** The Euclidean remainder of naturals is below the divisor. */
  lemma EuclideanRemainder(x: nat, y: nat)
    requires y > 0
    ensures 0 <= x - (x / y) * y < y
  {
  }

  /** The product of two values whose signs may have been flipped. */
  lemma SignedProduct(x: int, y: int, flipX: bool, flipY: bool)
    ensures (if flipX then -x else x) * (if flipY then -y else y) == (if flipX == flipY then x * y else -(x * y))
  {
    if flipX {
      NegatedProduct(x, y);
      if flipY {
        NegatedProduct(-x, y);
      }
    } else if flipY {
      NegatedProduct(x, y);
    }
  }

  lemma NegatedProduct(x: int, y: int)
    ensures x * -y == -(x * y) && -x * y == -(x * y)
  {
  }

  // ----- Expressions -----

  /** The mathematical value of an expression tree, over unbounded integers. */
  function Value(n: Node, env: Env): int
    requires IsExpr(n)
  {
    match n.kind
    case Additive =>
      var a, b := Value(n.children[0], env), Value(n.children[1], env);
      if n.text == "+" then a + b else a - b
    case Multiplicative =>
      var a, b := Value(n.children[0], env), Value(n.children[1], env);
      if n.text == "*" then a * b else if b == 0 then 0 else TruncDiv(a, b)
    case IntLiteral => ParseI32(n.text).GetOr(0)
    case Identifier => if n.text in env then env[n.text] else 0
  }

  /** Every intermediate value fits in 32 bits, and no divisor is zero. */
  predicate Fits(n: Node, env: Env)
    requires IsExpr(n)
  {
    match n.kind
    case Additive => Fits(n.children[0], env) && Fits(n.children[1], env) && InI32(Value(n, env))
    case Multiplicative =>
      && Fits(n.children[0], env) && Fits(n.children[1], env) && InI32(Value(n, env))
      && (n.text == "/" ==> Value(n.children[1], env) != 0)
    case _ => true
  }

  /**
   * An expression evaluates to its mathematical value exactly when it
   * fits, and panics otherwise; it never returns an error and never
   * changes the variables.
   */
  lemma {:induction false} EvalExpression(n: Node, env: Env)
    requires IsExpr(n)
    ensures Eval(n, env).1 == env
    ensures !Eval(n, env).0.Err?
    ensures Eval(n, env).0.Ok? <==> Fits(n, env)
    ensures Fits(n, env) ==> Eval(n, env).0 == Ok(Value(n, env))
  {
    if n.kind == NodeType.Additive || n.kind == NodeType.Multiplicative {
      var l, r := n.children[0], n.children[1];
      EvalExpression(l, env);
      EvalExpression(r, env);
      if Fits(l, env) && Fits(r, env) {
        var a, b := Value(l, env), Value(r, env);
        assert Eval(n, env).0 == Apply(n.text, a, b);
      }
    }
  }

  // ----- Statements -----

  /**
   * A declaration binds its name to its initializer's value, or to 0
   * without one, whether or not the name was bound before.
   */
  lemma DeclarationBinds(name: string, init: seq<Node>, env: Env)
    requires |init| == 0 || (|init| == 1 && IsExpr(init[0]) && Fits(init[0], env))
    ensures
      var v := if |init| == 0 then 0 else Value(init[0], env);
      InI32(v) && Eval(Node(NodeType.IntDeclaration, name, init), env) == (Ok(v), env[name := v])
  {
    if |init| == 1 {
      EvalExpression(init[0], env);
    }
  }

  /**
   * An assignment fails exactly when its name was never bound, and then
   * leaves the variables alone; otherwise it overwrites the binding with
   * its expression's value.
   */
  lemma AssignmentBinds(name: string, e: Node, env: Env)
    requires IsExpr(e)
    ensures Eval(Node(NodeType.AssignmentStmt, name, [e]), env).0.Err? <==> name !in env
    ensures name !in env ==> Eval(Node(NodeType.AssignmentStmt, name, [e]), env).1 == env
    ensures name in env && Fits(e, env) ==>
      Eval(Node(NodeType.AssignmentStmt, name, [e]), env) == (Ok(Value(e, env)), env[name := Value(e, env)])
  {
    EvalExpression(e, env);
  }

  /** No evaluation removes a variable. */
  lemma {:induction false} VariablesStay(n: Node, env: Env)
    ensures env.Keys <= Eval(n, env).1.Keys
    decreases n, |n.children| + 1
  {
    match n.kind
    case Program => ChildrenKeepVariables(n, 0, env, 0);
    case Additive | Multiplicative =>
      if |n.children| >= 2 {
        VariablesStay(n.children[0], env);
        var env1 := Eval(n.children[0], env).1;
        VariablesStay(n.children[1], env1);
      }
    case AssignmentStmt | IntDeclaration =>
      if |n.children| > 0 {
        VariablesStay(n.children[0], env);
      }
    case _ =>
  }

  lemma {:induction false} ChildrenKeepVariables(parent: Node, i: nat, env: Env, last: i32)
    requires i <= |parent.children|
    ensures env.Keys <= EvalChildren(parent, i, env, last).1.Keys
    decreases parent, |parent.children| - i
  {
    if i < |parent.children| {
      VariablesStay(parent.children[i], env);
      var (o, env1) := Eval(parent.children[i], env);
      if o.Ok? {
        ChildrenKeepVariables(parent, i + 1, env1, o.value);
      }
    }
  }

  // ----- Programs -----

  lemma {:induction false} ChildrenSuffix(whole: Node, tail: Node, k: nat, j: nat, env: Env, last: i32)
    requires k <= |whole.children| && whole.children[k..] == tail.children && j <= |tail.children|
    ensures EvalChildren(whole, k + j, env, last) == EvalChildren(tail, j, env, last)
    decreases |tail.children| - j
  {
    if j < |tail.children| {
      assert whole.children[k + j] == tail.children[j];
      var (o, env1) := Eval(tail.children[j], env);
      if o.Ok? {
        ChildrenSuffix(whole, tail, k, j + 1, env1, o.value);
      }
    }
  }

  lemma {:induction false} ChildrenSplit(whole: Node, head: Node, tail: Node, i: nat, env: Env, last: i32)
    requires whole.children == head.children + tail.children && i <= |head.children|
    ensures
      var (o, env1) := EvalChildren(head, i, env, last);
      EvalChildren(whole, i, env, last) == if !o.Ok? then (o, env1) else EvalChildren(tail, 0, env1, o.value)
    decreases |head.children| - i
  {
    if i == |head.children| {
      assert whole.children[i..] == tail.children;
      ChildrenSuffix(whole, tail, i, 0, env, last);
    } else {
      assert whole.children[i] == head.children[i];
      var (o, env1) := Eval(head.children[i], env);
      if o.Ok? {
        ChildrenSplit(whole, head, tail, i + 1, env1, o.value);
      }
    }
  }

  /**
   * Running a program is running its first part and then, if that
   * produced a value, its second part on the variables the first part
   * left: an error stops the rest but keeps the earlier updates, and the
   * value is that of the last statement.
   */
  lemma ProgramSequencing(text: string, first: seq<Node>, second: seq<Node>, env: Env)
    ensures
      var (o, env1) := Eval(Node(NodeType.Program, text, first), env);
      Eval(Node(NodeType.Program, text, first + second), env) ==
        if !o.Ok? || second == [] then (o, env1) else Eval(Node(NodeType.Program, text, second), env1)
  {
    var whole, head, tail := Node(NodeType.Program, text, first + second), Node(NodeType.Program, text, first), Node(NodeType.Program, text, second);
    ChildrenSplit(whole, head, tail, 0, env, 0);
    var (o, env1) := Eval(head, env);
    if o.Ok? && second == [] {
      assert EvalChildren(tail, 0, env1, o.value) == (o, env1);
    }
  }
}
