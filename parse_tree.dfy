/**
 * Parse trees as the generated ANTLR recognizer hands them to the listener.
 * The recognizer itself is not part of this model: a tree is taken as given.
 *
 * A tree is either a terminal token, or a rule node of one of the grammar's
 * rule kinds with an ordered sequence of children (rule nodes and tokens,
 * interleaved as the grammar produces them). Every rule node carries a
 * handle that stands for its object identity, the key under which the
 * listener stores the node's attribute.
 */
module ParseTree {
  import opened Wrappers

  type NodeId = nat

  /** The rule kinds the listener has a handler for, and `Other` for every
      rule it has none for (the relational operator, constants, functions). */
  datatype Kind =
    | Equation | Expression | Term | Factor | SignedAtom | Atom
    | Scientific | Variable
    | Other(rule: string)

  datatype Tree =
    | Token(text: string)
    | Rule(id: NodeId, kind: Kind, kids: seq<Tree>)

  /** getChildCount(): a token has no children. */
  function Arity(t: Tree): nat
  {
    if t.Token? then 0 else |t.kids|
  }

  /** getText(): the concatenated text of the tokens below a node
      (whitespace is skipped by the lexer and so never appears). */
  function Text(t: Tree): string
    decreases t, Arity(t) + 1
  {
    match t
    case Token(s) => s
    case Rule(_, _, kids) => KidsText(t, |kids|)
  }

  /** The text of the first `n` children of a rule node. */
  function KidsText(t: Tree, n: nat): string
    requires t.Rule? && n <= |t.kids|
    decreases t, n
  {
    if n == 0 then "" else KidsText(t, n - 1) + Text(t.kids[n - 1])
  }

  /** The handles of all rule nodes of a tree. */
  function Ids(t: Tree): set<NodeId>
    decreases t, Arity(t) + 1
  {
    match t
    case Token(_) => {}
    case Rule(id, _, kids) => {id} + KidsIds(t, |kids|)
  }

  function KidsIds(t: Tree, n: nat): set<NodeId>
    requires t.Rule? && n <= |t.kids|
    decreases t, n
  {
    if n == 0 then {} else KidsIds(t, n - 1) + Ids(t.kids[n - 1])
  }

  /** Distinct rule nodes have distinct handles, as distinct objects have
      distinct identities. */
  predicate UniqueIds(t: Tree)
    decreases t, Arity(t) + 1
  {
    match t
    case Token(_) => true
    case Rule(id, _, kids) => id !in KidsIds(t, |kids|) && UniqueKids(t, |kids|)
  }

  predicate UniqueKids(t: Tree, n: nat)
    requires t.Rule? && n <= |t.kids|
    decreases t, n
  {
    n == 0 ||
    (UniqueKids(t, n - 1) && UniqueIds(t.kids[n - 1]) && KidsIds(t, n - 1) !! Ids(t.kids[n - 1]))
  }

  /** No `Equation` node occurs in the tree: walking it cannot touch the
      variables or the result. */
  predicate NoEquation(t: Tree)
    decreases t, Arity(t) + 1
  {
    match t
    case Token(_) => true
    case Rule(_, kind, kids) => !kind.Equation? && NoEquationKids(t, |kids|)
  }

  predicate NoEquationKids(t: Tree, n: nat)
    requires t.Rule? && n <= |t.kids|
    decreases t, n
  {
    n == 0 || (NoEquationKids(t, n - 1) && NoEquation(t.kids[n - 1]))
  }

  predicate IsExpression(t: Tree)
  {
    t.Rule? && t.kind.Expression?
  }

  /** How many of the nodes are Expression nodes. */
  function ExprCount(kids: seq<Tree>): nat
    decreases |kids|
  {
    if kids == [] then 0
    else (if IsExpression(kids[0]) then 1 else 0) + ExprCount(kids[1..])
  }

  /** ctx.expression(i): the i-th child (counting from 0) that is an
      Expression node, if there is one. */
  function NthExpression(kids: seq<Tree>, i: nat): (r: Option<Tree>)
    ensures r.Some? ==> r.value in kids && r.value.Rule? && r.value.kind.Expression?
    ensures i == 0 && r.None? ==> forall k :: k in kids ==> !(k.Rule? && k.kind.Expression?)
    decreases |kids|
  {
    if kids == [] then None
    else if IsExpression(kids[0]) then
      (if i == 0 then Some(kids[0]) else NthExpression(kids[1..], i - 1))
    else NthExpression(kids[1..], i)
  }

  /** expression(i) is absent exactly when there are at most i Expression
      children, and otherwise it is the child with exactly i Expression
      children before it. */
  lemma {:induction false} NthExpressionInOrder(kids: seq<Tree>, i: nat)
    ensures NthExpression(kids, i).None? <==> ExprCount(kids) <= i
    ensures NthExpression(kids, i).Some? ==>
              exists j :: 0 <= j < |kids| && kids[j] == NthExpression(kids, i).value && ExprCount(kids[..j]) == i
    decreases |kids|
  {
    if kids == [] {
    } else if IsExpression(kids[0]) && i == 0 {
      assert kids[..0] == [];
    } else {
      var i' := if IsExpression(kids[0]) then i - 1 else i;
      NthExpressionInOrder(kids[1..], i');
      var r := NthExpression(kids[1..], i');
      if r.Some? {
        var j :| 0 <= j < |kids[1..]| && kids[1..][j] == r.value && ExprCount(kids[1..][..j]) == i';
        CountShift(kids, j);
      }
    }
  }

  /** Counting a prefix of length j + 1 counts the first node and then a
      prefix of length j of the rest. */
  lemma CountShift(kids: seq<Tree>, j: nat)
    requires j < |kids| - 1
    ensures ExprCount(kids[..j + 1]) == (if IsExpression(kids[0]) then 1 else 0) + ExprCount(kids[1..][..j])
    ensures kids[j + 1] == kids[1..][j]
  {
    assert kids[..j + 1][1..] == kids[1..][..j];
  }

  lemma KidIdsIncluded(t: Tree, n: nat, i: nat)
    requires t.Rule? && i < n <= |t.kids|
    ensures Ids(t.kids[i]) <= KidsIds(t, n)
    decreases n
  {
    if i < n - 1 {
      KidIdsIncluded(t, n - 1, i);
    }
  }

  /** The chain of single-child nodes the grammar builds around a lone
      operand at the Term level: term -> factor -> signedAtom -> atom. */
  function Operand(id: NodeId, leaf: Tree): Tree
  {
    Rule(id, Term, [Rule(id + 1, Factor, [Rule(id + 2, SignedAtom, [Rule(id + 3, Atom, [leaf])])])])
  }

  /** A whole expression made of a lone operand. Uses handles id .. id + 4. */
  function Lone(id: NodeId, leaf: Tree): Tree
  {
    Rule(id, Expression, [Operand(id + 1, leaf)])
  }

  function Number(id: NodeId, digits: string): Tree
  {
    Rule(id, Scientific, [Token(digits)])
  }

  function Name(id: NodeId, name: string): Tree
  {
    Rule(id, Variable, [Token(name)])
  }

  /** The relational operator `=` between the two sides of an assignment. */
  function EqualsSign(id: NodeId): Tree
  {
    Rule(id, Other("relop"), [Token("=")])
  }

  /** `return e` */
  function ReturnLine(id: NodeId, e: Tree): Tree
  {
    Rule(id, Equation, [Token("return"), e])
  }

  /** `lhs op rhs`, the assignment form of an equation. */
  function AssignLine(id: NodeId, lhs: Tree, op: Tree, rhs: Tree): Tree
  {
    Rule(id, Equation, [lhs, op, rhs])
  }
}
