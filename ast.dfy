/**
 * The syntax tree the parser builds and the evaluator walks: `SimpleASTNode`
 * of craft/src/lexer/simple_calculator.rs, as a value.
 */
module Ast {

  /** `ASTNodeType`: the kinds of node. */
  datatype NodeType =
    | Program | IntDeclaration | ExpressionStmt | AssignmentStmt
    | Primary | Multiplicative | Additive | Identifier | IntLiteral

  /** A node: its kind, its text (name, literal or operator) and its ordered children. */
  datatype Node = Node(kind: NodeType, text: string, children: seq<Node>)
  {
    function GetType(): NodeType
    {
      kind
    }

    function GetText(): string
    {
      text
    }

    function GetChildren(): seq<Node>
    {
      children
    }
  }

  /** `SimpleASTNode::new`: a node of the given kind and text, with no children. */
  function New(kind: NodeType, text: string): (n: Node)
    ensures n.GetType() == kind && n.GetText() == text && n.GetChildren() == []
  {
    Node(kind, text, [])
  }

  /**
   * `add_child`: the child goes last; the earlier children keep their order,
   * and the kind and text do not change.
   */
  function AddChild(n: Node, child: Node): (r: Node)
    ensures r.GetType() == n.GetType() && r.GetText() == n.GetText()
    ensures |r.GetChildren()| == |n.GetChildren()| + 1
    ensures r.GetChildren()[..|n.GetChildren()|] == n.GetChildren()
    ensures r.GetChildren()[|n.GetChildren()|] == child
  {
    n.(children := n.children + [child])
  }

  /** A binary node as the parser builds it: `new`, then the left and the right operand. */
  function Binary(kind: NodeType, op: string, left: Node, right: Node): (r: Node)
    ensures r == Node(kind, op, [left, right])
  {
    AddChild(AddChild(New(kind, op), left), right)
  }

  /**
   * An expression tree: `Additive` nodes have text `+` or `-` and
   * `Multiplicative` nodes `*` or `/`, each with exactly two operand trees;
   * literals and identifiers are leaves.
   */
  predicate IsExpr(n: Node)
  {
    match n.kind
    case Additive =>
      |n.children| == 2 && (n.text == "+" || n.text == "-") && IsExpr(n.children[0]) && IsExpr(n.children[1])
    case Multiplicative =>
      |n.children| == 2 && (n.text == "*" || n.text == "/") && IsExpr(n.children[0]) && IsExpr(n.children[1])
    case IntLiteral => n.children == []
    case Identifier => n.children == []
    case _ => false
  }

  /** A leaf of an expression tree. */
  predicate IsLeaf(n: Node)
  {
    (n.kind == IntLiteral || n.kind == Identifier) && n.children == []
  }
}
