/**
 * The tree-walking evaluator (`SimpleScript` in
 * craft/src/lexer/simple_script.rs): 32-bit integer arithmetic over the
 * syntax tree, with a map from variable names to values that declarations
 * and assignments update.
 *
 * The arithmetic is that of a debug build: an `i32` operation that
 * overflows, and a division by zero, panic; a panic is the `Abort` outcome.
 */
module Script {
  import opened Wrappers
  import opened Ast

  const MinI32: int := -0x8000_0000
  const MaxI32: int := 0x7fff_ffff

  type i32 = x: int | MinI32 <= x <= MaxI32

  predicate InI32(x: int)
  {
    MinI32 <= x <= MaxI32
  }

  // ----- `i32::from_str` -----

  predicate IsDigit(c: char)
  {
    '0' <= c <= '9'
  }

  predicate IsDigitString(s: string)
  {
    forall i :: 0 <= i < |s| ==> IsDigit(s[i])
  }

  function DigitValue(c: char): nat
    requires IsDigit(c)
  {
    c as int - '0' as int
  }

  /** The value of a string of decimal digits, most significant first. */
  function DigitsValue(s: string): nat
    requires IsDigitString(s)
  {
    if |s| == 0 then 0
    else DigitsValue(s[..|s| - 1]) * 10 + DigitValue(s[|s| - 1])
  }

  /**
   * `i32::from_str`: an optional `+` or `-`, then at least one decimal
   * digit and nothing else, with a value that fits in 32 bits.
   */
  function ParseI32(s: string): (r: Option<i32>)
    ensures r.Some? ==> |s| > 0
    ensures r.Some? && IsDigit(s[0]) ==> IsDigitString(s) && r.value == DigitsValue(s)
  {
    if |s| == 0 then None
    else
      var signed := s[0] == '+' || s[0] == '-';
      var digits := if signed then s[1..] else s;
      if |digits| == 0 || !IsDigitString(digits) then None
      else
        var v: int := if s[0] == '-' then -(DigitsValue(digits) as int) else DigitsValue(digits);
        if InI32(v) then Some(v) else None
  }

  // ----- Arithmetic -----

  function Abs(x: int): nat
  {
    if x < 0 then -x else x
  }

  /** Integer division rounding toward zero, as `/` on `i32` does. */
  function TruncDiv(a: int, b: int): int
    requires b != 0
  {
    var q := Abs(a) / Abs(b);
    if (a < 0) == (b < 0) then q else -q
  }

  /** What evaluating a node comes to: a value, the error `evaluate` returns, or a panic. */
  datatype Outcome = Ok(value: i32) | Err(msg: string) | Abort(msg: string)

  function Checked(v: int, operation: string): (r: Outcome)
    ensures r.Ok? <==> InI32(v)
    ensures r.Ok? ==> r.value == v
  {
    if InI32(v) then Ok(v) else Abort("attempt to " + operation + " with overflow")
  }

  /**
   * The operator of a binary node applied to its operands' values: the
   * overflow and division checks of `i32` in a debug build, and 0 for an
   * operator other than `+ - * /`.
   */
  function Apply(op: string, a: i32, b: i32): Outcome
  {
    if op == "+" then Checked(a + b, "add")
    else if op == "-" then Checked(a - b, "subtract")
    else if op == "*" then Checked(a * b, "multiply")
    else if op == "/" then
      if b == 0 then Abort("attempt to divide by zero")
      else Checked(TruncDiv(a, b), "divide")
    else Ok(0)
  }

  // ----- The evaluation -----

  type Env = map<string, i32>

  /**
   * `evaluate` on a node, given the variables before it: the outcome and
   * the variables after it.
   */
  function Eval(n: Node, env: Env): (Outcome, Env)
    decreases n, |n.children| + 1
  {
    match n.kind
    case Program => EvalChildren(n, 0, env, 0)
    case Additive | Multiplicative =>
      if |n.children| == 0 then (Abort("child 1 not found"), env)
      else if |n.children| == 1 then (Abort("child 2 not found"), env)
      else
        var (left, env1) := Eval(n.children[0], env);
        if !left.Ok? then (left, env1)
        else
          var (right, env2) := Eval(n.children[1], env1);
          if !right.Ok? then (right, env2)
          else (Apply(n.text, left.value, right.value), env2)
    case IntLiteral => (Ok(ParseI32(n.text).GetOr(0)), env)
    case Identifier => (Ok(if n.text in env then env[n.text] else 0), env)
    case AssignmentStmt | IntDeclaration =>
      if n.kind == AssignmentStmt && n.text !in env then (Err("you dont define variable " + n.text), env)
      else if |n.children| == 0 then (Ok(0), env[n.text := 0])
      else
        var (value, env1) := Eval(n.children[0], env);
        if !value.Ok? then (value, env1)
        else (value, env1[n.text := value.value])
    case _ => (Ok(0), env)
  }

  /**
   * The loop of the `Program` arm from child `i` on, `last` being the value
   * of the child before it: it stops at the first child that does not
   * evaluate to a value.
   */
  function EvalChildren(parent: Node, i: nat, env: Env, last: i32): (Outcome, Env)
    requires i <= |parent.children|
    decreases parent, |parent.children| - i
  {
    if i == |parent.children| then (Ok(last), env)
    else
      var (o, env1) := Eval(parent.children[i], env);
      if !o.Ok? then (o, env1)
      else EvalChildren(parent, i + 1, env1, o.value)
  }

  // ----- The imperative code -----

  class SimpleScript {
    var variables: Env
    const verbose: bool

    constructor (verbose: bool)
      ensures variables == map[] && this.verbose == verbose
    {
      variables := map[];
      this.verbose := verbose;
    }

    method Evaluate(node: Node) returns (r: Outcome)
      modifies this
      ensures (r, variables) == Eval(node, old(variables))
      decreases node
    {
      var result: i32 := 0;
      match node.kind {
        case Program =>
          var i := 0;
          while i < |node.children|
            invariant i <= |node.children|
            invariant EvalChildren(node, i, variables, result) == Eval(node, old(variables))
          {
            var o := Evaluate(node.children[i]);
            if !o.Ok? {
              return o;
            }
            result := o.value;
            i := i + 1;
          }
        case Additive | Multiplicative =>
          if |node.children| == 0 {
            return Abort("child 1 not found");
          }
          if |node.children| == 1 {
            return Abort("child 2 not found");
          }
          var num1 := Evaluate(node.children[0]);
          if !num1.Ok? {
            return num1;
          }
          var num2 := Evaluate(node.children[1]);
          if !num2.Ok? {
            return num2;
          }
          var applied := Apply(node.text, num1.value, num2.value);
          if !applied.Ok? {
            return applied;
          }
          result := applied.value;
        case IntLiteral =>
          result := ParseI32(node.text).GetOr(0);
        case Identifier =>
          if node.text in variables {
            result := variables[node.text];
          }
        case AssignmentStmt | IntDeclaration =>
          if node.kind == AssignmentStmt && node.text !in variables {
            return Err("you dont define variable " + node.text);
          }
          var childResult: i32 := 0;
          if |node.children| > 0 {
            var o := Evaluate(node.children[0]);
            if !o.Ok? {
              return o;
            }
            result := o.value;
            childResult := result;
          }
          variables := variables[node.text := childResult];
        case _ =>
      }
      return Ok(result);
    }
  }
}
