/**
 * The evaluator the repository's tests describe, beside the listener as
 * written: operator chains fold left to right, a parenthesised atom yields
 * the value of its expression, the assignment target is read from the tree
 * and never looked up, and a runner threads the variables through a
 * sequence of lines until one returns. Division is exact integer division;
 * a quotient that is not an integer is reported instead of being rounded.
 */
module Intended {
  import opened Wrappers
  import opened ParseTree
  import Semantics
  import WalkProperties
  import Scenarios

  datatype Fault =
    | Unbound(name: string)
    | Unsupported(kind: Kind)
    | BadLiteral(text: string)
    | DivisionByZero
    | NotIntegral
    | Malformed

  /** `a op b` for the operator token between two operands of a chain of
      the given kind: `+` and `-` join the terms of an Expression, `*` and
      `/` the factors of a Term, and any other operator is rejected.
      Division is defined exactly when the divisor divides the dividend. */
  function Combine(kind: Kind, op: Tree, a: int, b: int): (r: Result<int, Fault>)
    ensures kind.Expression? && op == Token("+") ==> r == Success(a + b)
    ensures kind.Expression? && op == Token("-") ==> r == Success(a - b)
    ensures kind.Term? && op == Token("*") ==> r == Success(a * b)
    ensures kind.Term? && op == Token("/") ==> (r.Success? <==> b != 0 && a % b == 0)
    ensures kind.Term? && op == Token("/") && r.Success? ==> r.value * b == a
    ensures kind.Term? && op == Token("/") && b == 0 ==> r == Failure(DivisionByZero)
    ensures r.Success? ==>
              || (kind.Expression? && (op == Token("+") || op == Token("-")))
              || (kind.Term? && (op == Token("*") || op == Token("/")))
  {
    if kind.Expression? && op == Token("+") then Success(a + b)
    else if kind.Expression? && op == Token("-") then Success(a - b)
    else if kind.Term? && op == Token("*") then Success(a * b)
    else if kind.Term? && op == Token("/") then
      if b == 0 then Failure(DivisionByZero)
      else if a % b != 0 then Failure(NotIntegral)
      else
        assert (a / b) * b == a by { QuotientOfMultiple(a, b); }
        Success(a / b)
    else Failure(Unsupported(kind))
  }

  lemma QuotientOfMultiple(a: int, b: int)
    requires b != 0 && a % b == 0
    ensures (a / b) * b == a
  {
    assert a == (a / b) * b + a % b;
  }

  /** The value of a node of an expression. */
  function Value(t: Tree, env: map<string, int>): Result<int, Fault>
    decreases t, Arity(t) + 1
  {
    match t
    case Token(_) => Failure(Malformed)
    case Rule(_, kind, kids) =>
      match kind
      case Scientific =>
        (match Semantics.ParseDecimal(Text(t))
         case None => Failure(BadLiteral(Text(t)))
         case Some(n) => Success(n))
      case Variable =>
        if Text(t) in env then Success(env[Text(t)]) else Failure(Unbound(Text(t)))
      case Expression =>
        if |kids| % 2 == 1 then Fold(t, |kids|, env) else Failure(Unsupported(kind))
      case Term =>
        if |kids| % 2 == 1 then Fold(t, |kids|, env) else Failure(Unsupported(kind))
      case Factor =>
        if |kids| == 1 then Value(kids[0], env) else Failure(Unsupported(kind))
      case SignedAtom =>
        if |kids| == 1 then Value(kids[0], env)
        else if |kids| == 2 && kids[0] == Token("+") then Value(kids[1], env)
        else if |kids| == 2 && kids[0] == Token("-") then
          (match Value(kids[1], env)
           case Failure(f) => Failure(f)
           case Success(v) => Success(-v))
        else Failure(Unsupported(kind))
      case Atom =>
        if |kids| == 1 then Value(kids[0], env)
        else if |kids| == 3 && kids[0] == Token("(") && kids[2] == Token(")") then Value(kids[1], env)
        else Failure(Unsupported(kind))
      case Equation => Failure(Malformed)
      case Other(_) => Failure(Unsupported(kind))
  }

  /** The first n children of an operator chain, operand (operator operand)*,
      reduced from the left. */
  function Fold(t: Tree, n: nat, env: map<string, int>): Result<int, Fault>
    requires t.Rule? && n % 2 == 1 && n <= |t.kids|
    decreases t, n
  {
    if n == 1 then Value(t.kids[0], env)
    else
      match Fold(t, n - 2, env)
      case Failure(f) => Failure(f)
      case Success(acc) =>
        match Value(t.kids[n - 1], env)
        case Failure(f) => Failure(f)
        case Success(v) => Combine(t.kind, t.kids[n - 2], acc, v)
  }

  /** The name an assignment binds: the Variable at the bottom of a chain
      of single-child nodes, read from the tree and not evaluated. It is
      the same string the listener uses as the key. */
  function TargetName(t: Tree): (r: Option<string>)
    ensures r.Some? ==> r.value == Text(t)
    decreases t
  {
    match t
    case Token(_) => None
    case Rule(_, kind, kids) =>
      if kind.Variable? then Some(Text(t))
      else if |kids| == 1 && Semantics.ForwardsOnlyChild(kind) then
        var r := TargetName(kids[0]);
        assert KidsText(t, 1) == KidsText(t, 0) + Text(kids[0]);
        r
      else None
  }

  datatype Effect = Assigned(env: map<string, int>) | Returned(value: int)

  /** One line: `return e` yields the value of e; `target = e` rebinds the
      target to the value of e and leaves every other name alone. */
  function EvalLine(eq: Tree, env: map<string, int>): Result<Effect, Fault>
  {
    if !(eq.Rule? && eq.kind.Equation?) then Failure(Malformed)
    else if Semantics.IsReturn(eq) then
      if |eq.kids| != 2 then Failure(Malformed)
      else
        match Value(eq.kids[1], env)
        case Failure(f) => Failure(f)
        case Success(v) => Success(Returned(v))
    else if |eq.kids| != 3 then Failure(Malformed)
    else
      match TargetName(eq.kids[0])
      case None => Failure(Malformed)
      case Some(x) =>
        match Value(eq.kids[2], env)
        case Failure(f) => Failure(f)
        case Success(v) => Success(Assigned(env[x := v]))
  }

  /** Where a run stopped: the variables as the last line left them, the
      returned value if a line returned, the fault if a line failed. */
  datatype RunEnd = RunEnd(env: map<string, int>, result: Option<int>, fault: Option<Fault>)

  /** The lines in order over one set of variables, up to the first line
      that returns or fails. */
  function Run(lines: seq<Tree>, env: map<string, int>): RunEnd
    decreases |lines|
  {
    if lines == [] then RunEnd(env, None, None)
    else
      match EvalLine(lines[0], env)
      case Failure(f) => RunEnd(env, None, Some(f))
      case Success(Returned(v)) => RunEnd(env, Some(v), None)
      case Success(Assigned(env2)) => Run(lines[1..], env2)
  }

  /** Lines after a return, or after a failing line, are never evaluated. */
  lemma {:induction false} RunStopsEarly(p: seq<Tree>, q: seq<Tree>, env: map<string, int>)
    requires Run(p, env).result.Some? || Run(p, env).fault.Some?
    ensures Run(p + q, env) == Run(p, env)
    decreases |p|
  {
    assert p != [];
    assert (p + q)[0] == p[0] && (p + q)[1..] == p[1..] + q;
    match EvalLine(p[0], env)
    case Failure(_) =>
    case Success(Returned(_)) =>
    case Success(Assigned(env2)) =>
      RunStopsEarly(p[1..], q, env2);
  }

  /** A run that neither returned nor failed hands its variables on to the
      lines that follow it. */
  lemma {:induction false} RunThreadsVariables(p: seq<Tree>, q: seq<Tree>, env: map<string, int>)
    requires Run(p, env).result.None? && Run(p, env).fault.None?
    ensures Run(p + q, env) == Run(q, Run(p, env).env)
    decreases |p|
  {
    if p == [] {
      assert p + q == q;
    } else {
      assert (p + q)[0] == p[0] && (p + q)[1..] == p[1..] + q;
      match EvalLine(p[0], env)
      case Failure(_) =>
      case Success(Returned(_)) =>
      case Success(Assigned(env2)) =>
        RunThreadsVariables(p[1..], q, env2);
    }
  }

  /** Wherever the listener as written gives a node a value, this evaluator
      gives it the same value. */
  lemma {:induction false} ExtendsAsWritten(t: Tree, env: map<string, int>, v: int)
    requires Semantics.Eval(t, env) == Success(Some(v))
    ensures Value(t, env) == Success(v)
    decreases t
  {
    match t
    case Token(_) =>
    case Rule(_, kind, kids) =>
      if Semantics.ForwardsOnlyChild(kind) {
        var vals := Semantics.EvalKids(t, |kids|, env).value;
        assert |kids| == 1 && vals[0] == Some(v);
        assert Semantics.EvalKids(t, 0, env) == Success([]);
        assert Semantics.Eval(kids[0], env) == Success(Some(v));
        ExtendsAsWritten(kids[0], env, v);
      }
  }

  /** A `return` line the listener completes returns the same value here. */
  lemma ReturnExtendsAsWritten(id: NodeId, e: Tree, s: Semantics.State)
    requires UniqueIds(ReturnLine(id, e)) && NoEquation(e) && Ids(ReturnLine(id, e)) !! s.props.Keys
    requires Semantics.Walk(ReturnLine(id, e), s).error.None?
    ensures EvalLine(ReturnLine(id, e), s.vars) == Success(Returned(Semantics.Walk(ReturnLine(id, e), s).state.result.value))
  {
    WalkProperties.ReturnSetsResult(id, e, s);
    var r := Semantics.Eval(e, s.vars);
    ExtendsAsWritten(e, s.vars, r.value.value);
  }

  /** An assignment the listener completes binds the same name to the same
      value here, provided its left side is a plain name. */
  lemma AssignExtendsAsWritten(id: NodeId, lhs: Tree, op: Tree, rhs: Tree, s: Semantics.State)
    requires lhs.Rule? && lhs.kind.Expression? && rhs.Rule? && rhs.kind.Expression?
    requires !(op.Rule? && op.kind.Expression?)
    requires NoEquation(lhs) && NoEquation(op) && NoEquation(rhs)
    requires UniqueIds(AssignLine(id, lhs, op, rhs)) && Ids(AssignLine(id, lhs, op, rhs)) !! s.props.Keys
    requires TargetName(lhs).Some?
    requires Semantics.Walk(AssignLine(id, lhs, op, rhs), s).error.None?
    ensures EvalLine(AssignLine(id, lhs, op, rhs), s.vars) == Success(Assigned(Semantics.Walk(AssignLine(id, lhs, op, rhs), s).state.vars))
  {
    var t := AssignLine(id, lhs, op, rhs);
    WalkProperties.AssignBindsText(id, lhs, op, rhs, s);
    var r := Semantics.Eval(rhs, s.vars);
    assert r.Success? && r.value.Some?;
    ExtendsAsWritten(rhs, s.vars, r.value.value);
    assert t.kids[0] == lhs && t.kids[2] == rhs && |t.kids| == 3;
    assert !Semantics.IsReturn(t);
    assert EvalLine(t, s.vars) == Success(Assigned(s.vars[Text(lhs) := r.value.value]));
  }

  // Shapes the tests use.

  /** A node with one child that a single-child node hands up. */
  lemma ValueSingle(t: Tree, env: map<string, int>)
    requires t.Rule? && |t.kids| == 1 && Semantics.ForwardsOnlyChild(t.kind)
    ensures Value(t, env) == Value(t.kids[0], env)
    ensures TargetName(t) == TargetName(t.kids[0])
  {
  }

  lemma ValueOperand(id: NodeId, leaf: Tree, env: map<string, int>)
    ensures Value(Operand(id, leaf), env) == Value(leaf, env)
    ensures TargetName(Operand(id, leaf)) == TargetName(leaf)
  {
    var atom := Rule(id + 3, Atom, [leaf]);
    var signed := Rule(id + 2, SignedAtom, [atom]);
    var factor := Rule(id + 1, Factor, [signed]);
    ValueSingle(atom, env);
    ValueSingle(signed, env);
    ValueSingle(factor, env);
    ValueSingle(Operand(id, leaf), env);
  }

  lemma ValueLone(id: NodeId, leaf: Tree, env: map<string, int>)
    ensures Value(Lone(id, leaf), env) == Value(leaf, env)
    ensures TargetName(Lone(id, leaf)) == TargetName(leaf)
  {
    ValueOperand(id + 1, leaf, env);
    ValueSingle(Lone(id, leaf), env);
  }

  lemma ValueNumeral(id: NodeId, n: nat, env: map<string, int>)
    ensures Value(Number(id, Semantics.Numeral(n)), env) == Success(n)
  {
    Scenarios.LeafShape(Number(id, Semantics.Numeral(n)), env);
    Semantics.ParseNumeral(n);
  }

  lemma NameText(id: NodeId, x: string, env: map<string, int>)
    ensures TargetName(Name(id, x)) == Some(x)
    ensures Value(Name(id, x), env) == if x in env then Success(env[x]) else Failure(Unbound(x))
  {
    Scenarios.LeafShape(Name(id, x), env);
  }

  /** A chain of three operands joined by two operators reduces the first
      pair before the last operand. */
  lemma FoldThree(t: Tree, a: int, b: int, c: int, env: map<string, int>)
    requires t.Rule? && t.kind.Expression? && |t.kids| == 5
    requires Value(t.kids[0], env) == Success(a)
    requires Value(t.kids[2], env) == Success(b)
    requires Value(t.kids[4], env) == Success(c)
    ensures Value(t, env) == (match Combine(Expression, t.kids[1], a, b)
                              case Failure(f) => Failure(f)
                              case Success(ab) => Combine(Expression, t.kids[3], ab, c))
  {
    assert Fold(t, 1, env) == Success(a);
    assert Fold(t, 3, env) == Combine(Expression, t.kids[1], a, b);
  }

  /** `x - y - z` is `(x - y) - z`: the chain the listener rejects. */
  lemma ChainFoldsLeft(x: nat, y: nat, z: nat, env: map<string, int>)
    ensures Value(Scenarios.Chain(x, y, z), env) == Success((x - y) - z)
  {
    var t := Scenarios.Chain(x, y, z);
    ValueOperand(9, Number(13, Semantics.Numeral(x)), env);
    ValueOperand(14, Number(18, Semantics.Numeral(y)), env);
    ValueOperand(19, Number(23, Semantics.Numeral(z)), env);
    ValueNumeral(13, x, env);
    ValueNumeral(18, y, env);
    ValueNumeral(23, z, env);
    assert t.kids[1] == Token("-") && t.kids[3] == Token("-");
    FoldThree(t, x, y, z, env);
  }

  /** `a = 3 - 1 - 1` binds a to 1. */
  lemma MultipleMinus()
    ensures Run([AssignLine(0, Lone(1, Name(6, "a")), EqualsSign(7), Scenarios.Chain(3, 1, 1))], map[])
         == RunEnd(map["a" := 1], None, None)
  {
    var line := AssignLine(0, Lone(1, Name(6, "a")), EqualsSign(7), Scenarios.Chain(3, 1, 1));
    ChainFoldsLeft(3, 1, 1, map[]);
    NameText(6, "a", map[]);
    ValueLone(1, Name(6, "a"), map[]);
    assert EvalLine(line, map[]) == Success(Assigned(map["a" := 1]));
    assert [line][1..] == [];
  }

  /** `x = n` then `return x` returns n, whether or not x was bound before:
      the target of an assignment is never looked up. */
  lemma AssignThenReturn(x: string, n: nat, env: map<string, int>)
    ensures Run([Scenarios.AssignNumeral(x, n), ReturnLine(14, Lone(15, Name(20, x)))], env)
         == RunEnd(env[x := n], Some(n), None)
  {
    var l1 := Scenarios.AssignNumeral(x, n);
    var l2 := ReturnLine(14, Lone(15, Name(20, x)));
    NameText(6, x, env);
    ValueLone(1, Name(6, x), env);
    ValueLone(8, Number(13, Semantics.Numeral(n)), env);
    ValueNumeral(13, n, env);
    assert EvalLine(l1, env) == Success(Assigned(env[x := n]));
    NameText(20, x, env[x := n]);
    ValueLone(15, Name(20, x), env[x := n]);
    assert EvalLine(l2, env[x := n]) == Success(Returned(n));
    assert [l1, l2][1..] == [l2];
  }

  /** `x * m` as an expression. */
  function Scaled(id: NodeId, x: string, m: nat): Tree
  {
    Rule(id, Expression, [Rule(id + 1, Term, [
      Rule(id + 2, Factor, [Rule(id + 3, SignedAtom, [Rule(id + 4, Atom, [Name(id + 5, x)])])]),
      Token("*"),
      Rule(id + 6, Factor, [Rule(id + 7, SignedAtom, [Rule(id + 8, Atom, [Number(id + 9, Semantics.Numeral(m))])])])])])
  }

  lemma ValueScaled(id: NodeId, x: string, m: nat, env: map<string, int>)
    requires x in env
    ensures Value(Scaled(id, x, m), env) == Success(env[x] * m)
  {
    var e := Scaled(id, x, m);
    var term := e.kids[0];
    var f1 := term.kids[0];
    var f2 := term.kids[2];
    NameText(id + 5, x, env);
    ValueNumeral(id + 9, m, env);
    ValueSingle(f1.kids[0].kids[0], env);
    ValueSingle(f1.kids[0], env);
    ValueSingle(f1, env);
    ValueSingle(f2.kids[0].kids[0], env);
    ValueSingle(f2.kids[0], env);
    ValueSingle(f2, env);
    assert Fold(term, 1, env) == Success(env[x]);
    assert Fold(term, 3, env) == Success(env[x] * m);
    ValueSingle(e, env);
  }

  /** `x = n`, `x = x * m`, `return x` returns n * m: later lines see and
      rebind earlier assignments. */
  lemma RebindThenReturn(x: string, n: nat, m: nat, env: map<string, int>)
    ensures Run([Scenarios.AssignNumeral(x, n),
                 AssignLine(14, Lone(15, Name(20, x)), EqualsSign(21), Scaled(22, x, m)),
                 ReturnLine(32, Lone(33, Name(38, x)))], env)
         == RunEnd(env[x := n * m], Some(n * m), None)
  {
    var l1 := Scenarios.AssignNumeral(x, n);
    var l2 := AssignLine(14, Lone(15, Name(20, x)), EqualsSign(21), Scaled(22, x, m));
    var l3 := ReturnLine(32, Lone(33, Name(38, x)));
    var env1 := env[x := n];
    var env2 := env[x := n * m];
    NameText(6, x, env);
    ValueLone(1, Name(6, x), env);
    ValueLone(8, Number(13, Semantics.Numeral(n)), env);
    ValueNumeral(13, n, env);
    assert EvalLine(l1, env) == Success(Assigned(env1));
    NameText(20, x, env1);
    ValueLone(15, Name(20, x), env1);
    ValueScaled(22, x, m, env1);
    assert env1[x := n * m] == env2;
    assert EvalLine(l2, env1) == Success(Assigned(env2));
    NameText(38, x, env2);
    ValueLone(33, Name(38, x), env2);
    assert EvalLine(l3, env2) == Success(Returned(n * m));
    assert Run([l3], env2) == RunEnd(env2, Some(n * m), None);
    assert [l2, l3][1..] == [l3];
    assert Run([l2, l3], env1) == Run([l3], env2);
    assert [l1, l2, l3][1..] == [l2, l3];
    assert Run([l1, l2, l3], env) == Run([l2, l3], env1);
  }

  /** `return x - y - z` returns `(x - y) - z`. */
  lemma ReturnChain(x: nat, y: nat, z: nat, env: map<string, int>)
    ensures Run([ReturnLine(0, Scenarios.Chain(x, y, z))], env) == RunEnd(env, Some((x - y) - z), None)
  {
    var line := ReturnLine(0, Scenarios.Chain(x, y, z));
    ChainFoldsLeft(x, y, z, env);
    assert EvalLine(line, env) == Success(Returned((x - y) - z));
  }

  /** An operand at the Term level made of a parenthesised expression. */
  function Grouped(id: NodeId, e: Tree): Tree
  {
    Rule(id, Term, [Rule(id + 1, Factor, [Rule(id + 2, SignedAtom, [
      Rule(id + 3, Atom, [Token("("), e, Token(")")])])])])
  }

  /** `a + b` for two operands at the Term level. */
  function Sum(id: NodeId, a: Tree, b: Tree): Tree
  {
    Rule(id, Expression, [a, Token("+"), b])
  }

  /** `(x + y) + (z + w)` */
  function ParenSum(x: nat, y: nat, z: nat, w: nat): Tree
  {
    Sum(0, Grouped(1, Sum(5, Operand(6, Number(10, Semantics.Numeral(x))), Operand(11, Number(15, Semantics.Numeral(y))))),
           Grouped(16, Sum(20, Operand(21, Number(25, Semantics.Numeral(z))), Operand(26, Number(30, Semantics.Numeral(w))))))
  }

  /** A parenthesised operand has the value of the expression inside. */
  lemma ValueGrouped(id: NodeId, e: Tree, env: map<string, int>)
    ensures Value(Grouped(id, e), env) == Value(e, env)
  {
    var atom := Rule(id + 3, Atom, [Token("("), e, Token(")")]);
    var signed := Rule(id + 2, SignedAtom, [atom]);
    var factor := Rule(id + 1, Factor, [signed]);
    assert Value(atom, env) == Value(e, env);
    ValueSingle(signed, env);
    ValueSingle(factor, env);
    ValueSingle(Grouped(id, e), env);
  }

  /** Two operands joined by `+` give their sum. */
  lemma ValueSum(id: NodeId, a: Tree, b: Tree, u: int, v: int, env: map<string, int>)
    requires Value(a, env) == Success(u) && Value(b, env) == Success(v)
    ensures Value(Sum(id, a, b), env) == Success(u + v)
  {
    var t := Sum(id, a, b);
    assert Fold(t, 1, env) == Success(u);
    assert Fold(t, 3, env) == Success(u + v);
  }

  lemma ValueNumeralOperand(id: NodeId, n: nat, env: map<string, int>)
    ensures Value(Operand(id, Number(id + 4, Semantics.Numeral(n))), env) == Success(n)
  {
    ValueOperand(id, Number(id + 4, Semantics.Numeral(n)), env);
    ValueNumeral(id + 4, n, env);
  }

  /** `(x + y) + (z + w)`: each group is evaluated to its own sum first. */
  lemma ParenthesesGroup(x: nat, y: nat, z: nat, w: nat, env: map<string, int>)
    ensures Value(ParenSum(x, y, z, w), env) == Success((x + y) + (z + w))
  {
    var a := Operand(6, Number(10, Semantics.Numeral(x)));
    var b := Operand(11, Number(15, Semantics.Numeral(y)));
    var c := Operand(21, Number(25, Semantics.Numeral(z)));
    var d := Operand(26, Number(30, Semantics.Numeral(w)));
    ValueNumeralOperand(6, x, env);
    ValueNumeralOperand(11, y, env);
    ValueNumeralOperand(21, z, env);
    ValueNumeralOperand(26, w, env);
    ValueSum(5, a, b, x, y, env);
    ValueSum(20, c, d, z, w, env);
    ValueGrouped(1, Sum(5, a, b), env);
    ValueGrouped(16, Sum(20, c, d), env);
    ValueSum(0, Grouped(1, Sum(5, a, b)), Grouped(16, Sum(20, c, d)), x + y, z + w, env);
  }

  /** `a = (1 + 1) + (1 + 1)` binds a to 4. */
  lemma Parentheses()
    ensures Run([AssignLine(40, Lone(41, Name(46, "a")), EqualsSign(47), ParenSum(1, 1, 1, 1))], map[])
         == RunEnd(map["a" := 4], None, None)
  {
    var line := AssignLine(40, Lone(41, Name(46, "a")), EqualsSign(47), ParenSum(1, 1, 1, 1));
    ParenthesesGroup(1, 1, 1, 1, map[]);
    NameText(46, "a", map[]);
    ValueLone(41, Name(46, "a"), map[]);
    assert EvalLine(line, map[]) == Success(Assigned(map["a" := 4]));
    assert [line][1..] == [];
  }
}

