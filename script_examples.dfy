/** Whole programs run through the evaluator, their trees written out as the parser builds them. */
module ScriptExamples {
  import opened Wrappers
  import opened Ast
  import opened Script
  import opened ScriptFacts

  function Lit(text: string): Node { Node(NodeType.IntLiteral, text, []) }
  function Var(name: string): Node { Node(NodeType.Identifier, name, []) }
  function Add(op: string, l: Node, r: Node): Node { Binary(NodeType.Additive, op, l, r) }
  function Mul(op: string, l: Node, r: Node): Node { Binary(NodeType.Multiplicative, op, l, r) }
  function Declare(name: string, e: Node): Node { Node(NodeType.IntDeclaration, name, [e]) }
  function Assign(name: string, e: Node): Node { Node(NodeType.AssignmentStmt, name, [e]) }
  function Run(statements: seq<Node>): (Outcome, Env) { Eval(Node(NodeType.Program, "SimpleParser", statements), map[]) }

  /** A literal spelled as `Digits(n)` reads as `n`: `DecimalRoundTrip` for the literals below. */
  lemma Literal(n: i32, text: string)
    requires n >= 0 && text == Digits(n as nat)
    ensures ParseI32(text) == Some(n)
  {
    DecimalRoundTrip(n);
  }

  /** `1+2-3;` is 0: additive operators group to the left. */
  lemma LeftToRight()
    ensures Run([Add("-", Add("+", Lit("1"), Lit("2")), Lit("3"))]) == (Ok(0), map[])
  {
    Literal(1, "1"); Literal(2, "2"); Literal(3, "3");
  }

  /** `2+3*4;` is 14, and `(2+3)*4;` is 20. */
  lemma Precedence()
    ensures Run([Add("+", Lit("2"), Mul("*", Lit("3"), Lit("4")))]) == (Ok(14), map[])
  {
    Literal(2, "2"); Literal(3, "3"); Literal(4, "4");
    OneStatement(Add("+", Lit("2"), Mul("*", Lit("3"), Lit("4"))), map[]);
  }

  lemma Parenthesised()
    ensures Run([Mul("*", Add("+", Lit("2"), Lit("3")), Lit("4"))]) == (Ok(20), map[])
  {
    Literal(2, "2"); Literal(3, "3"); Literal(4, "4");
    OneStatement(Mul("*", Add("+", Lit("2"), Lit("3")), Lit("4")), map[]);
  }

  /** A program of one statement comes to what that statement does. */
  lemma OneStatement(s: Node, env: Env)
    ensures Eval(Node(NodeType.Program, "SimpleParser", [s]), env) == Eval(s, env)
  {
    var p := Node(NodeType.Program, "SimpleParser", [s]);
    var (o, env1) := Eval(s, env);
    if o.Ok? {
      assert EvalChildren(p, 1, env1, o.value) == (o, env1);
    }
  }

  /** A program of three statements, one after the other. */
  lemma ThreeStatements(s1: Node, s2: Node, s3: Node, env: Env)
    ensures
      var (o1, env1) := Eval(s1, env);
      var (o2, env2) := Eval(s2, env1);
      Eval(Node(NodeType.Program, "SimpleParser", [s1, s2, s3]), env) ==
        if !o1.Ok? then (o1, env1)
        else if !o2.Ok? then (o2, env2)
        else Eval(s3, env2)
  {
    var o1, env1 := Eval(s1, env).0, Eval(s1, env).1;
    var o2, env2 := Eval(s2, env1).0, Eval(s2, env1).1;
    ProgramSequencing("SimpleParser", [s1], [s2, s3], env);
    assert [s1] + [s2, s3] == [s1, s2, s3];
    OneStatement(s1, env);
    if o1.Ok? {
      ProgramSequencing("SimpleParser", [s2], [s3], env1);
      assert [s2] + [s3] == [s2, s3];
      OneStatement(s2, env1);
      OneStatement(s3, env2);
      assert Eval(Node(NodeType.Program, "SimpleParser", [s1, s2, s3]), env) == Eval(Node(NodeType.Program, "SimpleParser", [s2, s3]), env1);
      assert Eval(Node(NodeType.Program, "SimpleParser", [s2, s3]), env1) == if !o2.Ok? then (o2, env2) else Eval(s3, env2);
    } else {
      assert Eval(Node(NodeType.Program, "SimpleParser", [s1, s2, s3]), env) == (o1, env1);
    }
  }

  /** The statements of `int age = 45+2; age= 20; age+10*2;`. */
  function AgeProgram(): seq<Node>
  {
    [Declare("age", Add("+", Lit("45"), Lit("2"))),
     Assign("age", Lit("20")),
     Add("+", Var("age"), Mul("*", Lit("10"), Lit("2")))]
  }

  /** `int age = 45+2; age= 20; age+10*2;` is 40, with `age` bound to 20. */
  lemma AgeScript()
    ensures Run(AgeProgram()) == (Ok(40), map["age" := 20])
  {
    var m1, m2: Env := map["age" := 47], map["age" := 20];
    AgeStatements(m1, m2);
    ThreeStatements(Declare("age", Add("+", Lit("45"), Lit("2"))), Assign("age", Lit("20")),
                    Add("+", Var("age"), Mul("*", Lit("10"), Lit("2"))), map[]);
  }

  lemma AgeStatements(m1: Env, m2: Env)
    requires m1 == map["age" := 47] && m2 == map["age" := 20]
    ensures Eval(Declare("age", Add("+", Lit("45"), Lit("2"))), map[]) == (Ok(47), m1)
    ensures Eval(Assign("age", Lit("20")), m1) == (Ok(20), m2)
    ensures Eval(Add("+", Var("age"), Mul("*", Lit("10"), Lit("2"))), m2) == (Ok(40), m2)
  {
    AgeDeclaration(m1);
    AgeAssignment(m1, m2);
    AgeExpression(m2);
  }

  lemma AgeAssignment(m1: Env, m2: Env)
    requires m1 == map["age" := 47] && m2 == map["age" := 20]
    ensures Eval(Assign("age", Lit("20")), m1) == (Ok(20), m2)
  {
    Literal(20, "20");
    assert m1["age" := 20] == m2;
  }

  lemma AgeDeclaration(m1: Env)
    requires m1 == map["age" := 47]
    ensures Eval(Declare("age", Add("+", Lit("45"), Lit("2"))), map[]) == (Ok(47), m1)
  {
    Literal(45, "45"); Literal(2, "2");
  }

  lemma AgeExpression(m2: Env)
    requires m2 == map["age" := 20]
    ensures Eval(Add("+", Var("age"), Mul("*", Lit("10"), Lit("2"))), m2) == (Ok(40), m2)
  {
    Literal(10, "10"); Literal(2, "2");
  }

  /** `int a = 1; a = 2; a;` is 2: a read sees the latest assignment. */
  lemma ReadAfterAssign()
    ensures Run([Declare("a", Lit("1")), Assign("a", Lit("2")), Var("a")]) == (Ok(2), map["a" := 2])
  {
    Literal(1, "1"); Literal(2, "2");
    var m1, m2: Env := map["a" := 1], map["a" := 2];
    assert Eval(Declare("a", Lit("1")), map[]) == (Ok(1), m1);
    assert m1["a" := 2] == m2;
    assert Eval(Assign("a", Lit("2")), m1) == (Ok(2), m2);
    ThreeStatements(Declare("a", Lit("1")), Assign("a", Lit("2")), Var("a"), map[]);
  }

  /** `b = 1;` without a declaration is an error, and nothing is bound. */
  lemma UndeclaredAssignment()
    ensures Run([Assign("b", Lit("1"))]) == (Err("you dont define variable b"), map[])
  {
    assert "you dont define variable " + "b" == "you dont define variable b";
    OneStatement(Assign("b", Lit("1")), map[]);
  }

  /** `int a = 5; b = 1; a;` stops at the error but keeps `a`. */
  lemma ErrorKeepsEarlierBindings()
    ensures Run([Declare("a", Lit("5")), Assign("b", Lit("1")), Var("a")]) == (Err("you dont define variable b"), map["a" := 5])
  {
    Literal(5, "5"); Literal(1, "1");
    var m1: Env := map["a" := 5];
    assert Eval(Declare("a", Lit("5")), map[]) == (Ok(5), m1);
    assert "you dont define variable " + "b" == "you dont define variable b";
    assert Eval(Assign("b", Lit("1")), m1) == (Err("you dont define variable b"), m1);
    ThreeStatements(Declare("a", Lit("5")), Assign("b", Lit("1")), Var("a"), map[]);
  }

  /** `1/0;` panics. */
  lemma DivideByZero()
    ensures Run([Mul("/", Lit("1"), Lit("0"))]).0 == Abort("attempt to divide by zero")
  {
    Literal(1, "1"); Literal(0, "0");
    OneStatement(Mul("/", Lit("1"), Lit("0")), map[]);
  }

  /** `1000*1000*1000*10;` panics: the last product needs 34 bits. */
  lemma MultiplyOverflow()
    ensures Run([Mul("*", Mul("*", Mul("*", Lit("1000"), Lit("1000")), Lit("1000")), Lit("10"))]).0
         == Abort("attempt to multiply with overflow")
  {
    var billion := Mul("*", Mul("*", Lit("1000"), Lit("1000")), Lit("1000"));
    Billion(billion);
    Literal(1000, "1000"); Literal(10, "10");
    MultiplyOverflowMessage();
    OneStatement(Mul("*", billion, Lit("10")), map[]);
  }

  lemma Billion(billion: Node)
    requires billion == Mul("*", Mul("*", Lit("1000"), Lit("1000")), Lit("1000"))
    ensures Eval(billion, map[]) == (Ok(1000000000), map[])
  {
    Literal(1000, "1000");
    var thousand := Lit("1000");
    Product(thousand, thousand, 1000, 1000, map[]);
    Product(Mul("*", thousand, thousand), thousand, 1000000, 1000, map[]);
  }

  /** A product of two operands that evaluate to values without touching the variables. */
  lemma Product(l: Node, r: Node, a: i32, b: i32, env: Env)
    requires Eval(l, env) == (Ok(a), env) && Eval(r, env) == (Ok(b), env)
    ensures Eval(Mul("*", l, r), env) == (Checked(a * b, "multiply"), env)
  {
  }

  lemma MultiplyOverflowMessage()
    ensures Checked(10000000000, "multiply") == Abort("attempt to multiply with overflow")
  {
  }

  /** `-7/2` rounds toward zero, to -3. */
  lemma DivisionTowardZero()
    ensures Apply("/", -7, 2) == Ok(-3) && Apply("/", 7, -2) == Ok(-3)
  {
  }
}
