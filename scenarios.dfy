/**
 * The listener as written, walked through the model on the lines the
 * repository's tests use.
 * A lone operand reaches the equation through the grammar's chain of
 * single-child nodes (expression, term, factor, signedAtom, atom).
 */
module Scenarios {
  import opened Wrappers
  import opened ParseTree
  import opened Semantics
  import opened WalkProperties

  /** What a single-child node makes of its child's reading. */
  function Forwarded(r: Result<Option<int>, Error>): Result<Option<int>, Error>
  {
    match r
    case Failure(e) => Failure(e)
    case Success(None) => Failure(MissingAttribute)
    case Success(Some(v)) => Success(Some(v))
  }

  /** Every handle in `ids` lies in lo .. hi. */
  ghost predicate Within(ids: set<NodeId>, lo: nat, hi: nat)
  {
    forall k :: k in ids ==> lo <= k <= hi
  }

  lemma SingleChildShape(t: Tree, env: map<string, int>)
    requires t.Rule? && |t.kids| == 1
    ensures Ids(t) == {t.id} + Ids(t.kids[0])
    ensures UniqueIds(t) <==> t.id !in Ids(t.kids[0]) && UniqueIds(t.kids[0])
    ensures NoEquation(t) <==> !t.kind.Equation? && NoEquation(t.kids[0])
    ensures Text(t) == Text(t.kids[0])
    ensures ForwardsOnlyChild(t.kind) ==> Eval(t, env) == Forwarded(Eval(t.kids[0], env))
  {
    assert KidsIds(t, 1) == Ids(t.kids[0]);
    assert KidsText(t, 1) == Text(t.kids[0]);
    assert UniqueKids(t, 1) <==> UniqueIds(t.kids[0]);
    assert NoEquationKids(t, 1) <==> NoEquation(t.kids[0]);
    match Eval(t.kids[0], env)
    case Failure(e) =>
      assert EvalKids(t, 1, env) == Failure(e);
    case Success(v) =>
      assert [] + [v] == [v];
      assert EvalKids(t, 1, env) == Success([v]);
  }

  /** A literal or a variable: a rule node over one token. */
  lemma LeafShape(t: Tree, env: map<string, int>)
    requires t.Rule? && |t.kids| == 1 && t.kids[0].Token?
    ensures Ids(t) == {t.id} && UniqueIds(t) && (NoEquation(t) <==> !t.kind.Equation?)
    ensures Text(t) == t.kids[0].text
    ensures t.kind.Scientific? ==>
              Eval(t, env) == match ParseDecimal(Text(t))
                              case None => Failure(NotAnInteger(Text(t)))
                              case Some(n) => Success(Some(n))
    ensures t.kind.Variable? ==>
              Eval(t, env) == if Text(t) in env then Success(Some(env[Text(t)]))
                              else Failure(UnboundName(Text(t)))
    ensures t.kind.Other? ==> Eval(t, env) == Success(None)
  {
    assert Ids(t.kids[0]) == {} && UniqueIds(t.kids[0]);
    assert UniqueKids(t, 1);
    var none: seq<Option<int>> := [None];
    assert [] + none == none;
    assert EvalKids(t, 1, env) == Success(none);
    SingleChildShape(t, env);
  }

  /** The chain of single-child nodes around a leaf with handle id + 5: its
      handles, and the fact that it hands the leaf's attribute up unchanged. */
  lemma LoneShape(id: NodeId, leaf: Tree, env: map<string, int>)
    requires leaf.Rule? && |leaf.kids| == 1 && leaf.kids[0].Token? && leaf.id == id + 5
    requires !leaf.kind.Equation?
    ensures UniqueIds(Operand(id + 1, leaf)) && NoEquation(Operand(id + 1, leaf))
    ensures Within(Ids(Operand(id + 1, leaf)), id + 1, id + 5)
    ensures UniqueIds(Lone(id, leaf)) && NoEquation(Lone(id, leaf))
    ensures Within(Ids(Lone(id, leaf)), id, id + 5)
    ensures Text(Lone(id, leaf)) == leaf.kids[0].text
    ensures Eval(Operand(id + 1, leaf), env) == Forwarded(Eval(leaf, env))
    ensures Eval(Lone(id, leaf), env) == Forwarded(Eval(leaf, env))
  {
    var atom := Rule(id + 4, Atom, [leaf]);
    var signed := Rule(id + 3, SignedAtom, [atom]);
    var factor := Rule(id + 2, Factor, [signed]);
    LeafShape(leaf, env);
    SingleChildShape(atom, env);
    SingleChildShape(signed, env);
    SingleChildShape(factor, env);
    SingleChildShape(Operand(id + 1, leaf), env);
    SingleChildShape(Lone(id, leaf), env);
  }

  /** A rule node with two children whose handles lie in consecutive ranges. */
  lemma TwoKidsShape(t: Tree, a: nat, b: nat)
    requires t.Rule? && |t.kids| == 2
    requires t.id <= a <= b
    requires UniqueIds(t.kids[0]) && Within(Ids(t.kids[0]), t.id + 1, a)
    requires UniqueIds(t.kids[1]) && Within(Ids(t.kids[1]), a + 1, b)
    ensures UniqueIds(t) && Within(Ids(t), t.id, b)
  {
    assert KidsIds(t, 1) == Ids(t.kids[0]);
    assert KidsIds(t, 2) == Ids(t.kids[0]) + Ids(t.kids[1]);
    assert Ids(t) == {t.id} + KidsIds(t, 2);
    assert UniqueKids(t, 1);
    assert UniqueKids(t, 2);
  }

  /** A rule node with three children whose handles lie in consecutive ranges. */
  lemma ThreeKidsShape(t: Tree, a: nat, b: nat, c: nat)
    requires t.Rule? && |t.kids| == 3
    requires t.id <= a <= b <= c
    requires UniqueIds(t.kids[0]) && Within(Ids(t.kids[0]), t.id + 1, a)
    requires UniqueIds(t.kids[1]) && Within(Ids(t.kids[1]), a + 1, b)
    requires UniqueIds(t.kids[2]) && Within(Ids(t.kids[2]), b + 1, c)
    ensures UniqueIds(t) && Within(Ids(t), t.id, c)
  {
    assert KidsIds(t, 1) == Ids(t.kids[0]);
    assert KidsIds(t, 2) == Ids(t.kids[0]) + Ids(t.kids[1]);
    assert KidsIds(t, 3) == KidsIds(t, 2) + Ids(t.kids[2]);
    assert Ids(t) == {t.id} + KidsIds(t, 3);
    assert Within(KidsIds(t, 2), t.id + 1, b);
    assert UniqueKids(t, 1);
    assert UniqueKids(t, 2);
    assert UniqueKids(t, 3);
  }

  /** `return n` for a numeral n, the line of test.py's test_return_const. */
  function ReturnNumeral(n: nat): Tree
  {
    ReturnLine(0, Lone(1, Number(6, Numeral(n))))
  }

  /** `return 2`, and any other numeral, sets the result to the numeral's
      value and leaves the bindings alone. */
  lemma ReturnsNumeral(n: nat, vars: map<string, int>)
    ensures var o := Walk(ReturnNumeral(n), Initial(vars));
      o.error == None && o.state.result == Some(n) && o.state.vars == vars
  {
    var leaf := Number(6, Numeral(n));
    LeafShape(leaf, vars);
    LoneShape(1, leaf, vars);
    ParseNumeral(n);
    TwoKidsShape(ReturnNumeral(n), 0, 6);
    ReturnSetsResult(0, Lone(1, leaf), Initial(vars));
  }

  /** `x = n`, the assignment line of test.py's test_assign. */
  function AssignNumeral(x: string, n: nat): Tree
  {
    AssignLine(0, Lone(1, Name(6, x)), EqualsSign(7), Lone(8, Number(13, Numeral(n))))
  }

  lemma AssignNumeralIds(x: string, n: nat)
    ensures UniqueIds(AssignNumeral(x, n)) && Within(Ids(AssignNumeral(x, n)), 0, 13)
  {
    LoneShape(1, Name(6, x), map[]);
    LeafShape(EqualsSign(7), map[]);
    LoneShape(8, Number(13, Numeral(n)), map[]);
    ThreeKidsShape(AssignNumeral(x, n), 6, 7, 13);
  }

  lemma AssignNumeralEval(x: string, n: nat, env: map<string, int>)
    ensures NoEquation(Lone(1, Name(6, x))) && NoEquation(EqualsSign(7))
            && NoEquation(Lone(8, Number(13, Numeral(n))))
    ensures Text(Lone(1, Name(6, x))) == x
    ensures Eval(Lone(1, Name(6, x)), env) ==
              if x in env then Success(Some(env[x])) else Failure(UnboundName(x))
    ensures Eval(EqualsSign(7), env) == Success(None)
    ensures Eval(Lone(8, Number(13, Numeral(n))), env) == Success(Some(n))
  {
    LeafShape(Name(6, x), env);
    LeafShape(EqualsSign(7), env);
    LeafShape(Number(13, Numeral(n)), env);
    LoneShape(1, Name(6, x), env);
    LoneShape(8, Number(13, Numeral(n)), env);
    ParseNumeral(n);
  }

  /** As written, the assignment target is looked up like any variable:
      `x = n` fails with an unbound-name error when `x` has no binding yet,
      and binds nothing. */
  lemma AssignToUnboundTargetFails(x: string, n: nat, s: State)
    requires x !in s.vars
    requires forall k :: k in s.props ==> 13 < k
    ensures var o := Walk(AssignNumeral(x, n), s);
      o.error == Some(UnboundName(x)) && o.state.vars == s.vars && o.state.result == s.result
  {
    AssignNumeralIds(x, n);
    AssignNumeralEval(x, n, s.vars);
    AssignBindsText(0, Lone(1, Name(6, x)), EqualsSign(7), Lone(8, Number(13, Numeral(n))), s);
  }

  /** test.py's test_assign: `a = 2` on a fresh listener. */
  lemma AssignOnFreshListenerFails()
    ensures Walk(AssignNumeral("a", 2), Initial(map[])).error == Some(UnboundName("a"))
  {
    AssignToUnboundTargetFails("a", 2, Initial(map[]));
  }

  /** `x = n` then `return x`, two walks over one listener: with `x` bound
      beforehand, the first binds `x` to `n` and the second returns `n`. */
  lemma AssignThenReturn(x: string, n: nat, s: State)
    requires x in s.vars
    requires forall k :: k in s.props ==> 20 < k
    ensures var o1 := Walk(AssignNumeral(x, n), s);
      var o2 := Walk(ReturnLine(14, Lone(15, Name(20, x))), o1.state);
      && o1.error == None && o1.state.vars == s.vars[x := n]
      && o2.error == None && o2.state.result == Some(n) && o2.state.vars == s.vars[x := n]
  {
    AssignNumeralIds(x, n);
    AssignNumeralEval(x, n, s.vars);
    AssignBindsText(0, Lone(1, Name(6, x)), EqualsSign(7), Lone(8, Number(13, Numeral(n))), s);
    var o1 := Walk(AssignNumeral(x, n), s);
    WalkFrame(AssignNumeral(x, n), s);
    var vars := o1.state.vars;
    var e := Lone(15, Name(20, x));
    LeafShape(Name(20, x), vars);
    LoneShape(15, Name(20, x), vars);
    TwoKidsShape(ReturnLine(14, e), 14, 20);
    ReturnSetsResult(14, e, o1.state);
  }

  /** `x - y - z` for numerals x, y, z: an expression node with five
      children, three operands and two operator tokens. */
  function Chain(x: nat, y: nat, z: nat): Tree
  {
    Rule(8, Expression, [Operand(9, Number(13, Numeral(x))), Token("-"),
                         Operand(14, Number(18, Numeral(y))), Token("-"),
                         Operand(19, Number(23, Numeral(z)))])
  }

  /** A rule node with three operands, in consecutive handle ranges, joined
      by two operator tokens. */
  lemma ChainShape(t: Tree, a: nat, b: nat, c: nat)
    requires t.Rule? && |t.kids| == 5 && t.kids[1].Token? && t.kids[3].Token?
    requires t.id <= a <= b <= c
    requires UniqueIds(t.kids[0]) && Within(Ids(t.kids[0]), t.id + 1, a)
    requires UniqueIds(t.kids[2]) && Within(Ids(t.kids[2]), a + 1, b)
    requires UniqueIds(t.kids[4]) && Within(Ids(t.kids[4]), b + 1, c)
    ensures UniqueIds(t) && Within(Ids(t), t.id, c)
  {
    assert Ids(t.kids[1]) == {} && UniqueIds(t.kids[1]);
    assert Ids(t.kids[3]) == {} && UniqueIds(t.kids[3]);
    assert KidsIds(t, 1) == Ids(t.kids[0]);
    assert KidsIds(t, 2) == KidsIds(t, 1);
    assert KidsIds(t, 3) == KidsIds(t, 2) + Ids(t.kids[2]);
    assert KidsIds(t, 4) == KidsIds(t, 3);
    assert KidsIds(t, 5) == KidsIds(t, 4) + Ids(t.kids[4]);
    assert Ids(t) == {t.id} + KidsIds(t, 5);
    assert Within(KidsIds(t, 3), t.id + 1, b);
    assert UniqueKids(t, 1);
    assert UniqueKids(t, 2);
    assert UniqueKids(t, 3);
    assert UniqueKids(t, 4);
    assert UniqueKids(t, 5);
  }

  lemma ChainIds(x: nat, y: nat, z: nat)
    ensures UniqueIds(Chain(x, y, z)) && Within(Ids(Chain(x, y, z)), 8, 23)
  {
    var a := Operand(9, Number(13, Numeral(x)));
    var b := Operand(14, Number(18, Numeral(y)));
    var c := Operand(19, Number(23, Numeral(z)));
    LoneShape(8, Number(13, Numeral(x)), map[]);
    LoneShape(13, Number(18, Numeral(y)), map[]);
    LoneShape(18, Number(23, Numeral(z)), map[]);
    var t := Rule(8, Expression, [a, Token("-"), b, Token("-"), c]);
    assert t == Chain(x, y, z);
    ChainShape(t, 13, 18, 23);
  }

  /** Children that all evaluate and hold no equation: so does every
      prefix of them. */
  lemma {:induction false} KidsEvaluate(t: Tree, n: nat, env: map<string, int>)
    requires t.Rule? && n <= |t.kids|
    requires forall i :: 0 <= i < n ==> Eval(t.kids[i], env).Success? && NoEquation(t.kids[i])
    ensures EvalKids(t, n, env).Success? && NoEquationKids(t, n)
    decreases n
  {
    if n > 0 {
      KidsEvaluate(t, n - 1, env);
    }
  }

  /** A numeral operand at the Term level evaluates to its number. */
  lemma OperandNumeral(id: NodeId, n: nat, env: map<string, int>)
    ensures Eval(Operand(id + 1, Number(id + 5, Numeral(n))), env) == Success(Some(n))
    ensures NoEquation(Operand(id + 1, Number(id + 5, Numeral(n))))
  {
    LoneShape(id, Number(id + 5, Numeral(n)), env);
    LeafShape(Number(id + 5, Numeral(n)), env);
    ParseNumeral(n);
  }

  /** An Expression whose five children all evaluate is not implemented. */
  lemma FiveKidsRejected(t: Tree, env: map<string, int>)
    requires t.Rule? && t.kind.Expression? && |t.kids| == 5
    requires forall i :: 0 <= i < 5 ==> Eval(t.kids[i], env).Success? && NoEquation(t.kids[i])
    ensures NoEquation(t)
    ensures Eval(t, env) == Failure(NotImplemented(Expression))
  {
    KidsEvaluate(t, 5, env);
  }

  lemma ChainEval(x: nat, y: nat, z: nat, env: map<string, int>)
    ensures NoEquation(Chain(x, y, z))
    ensures Eval(Chain(x, y, z), env) == Failure(NotImplemented(Expression))
  {
    var a := Operand(9, Number(13, Numeral(x)));
    var b := Operand(14, Number(18, Numeral(y)));
    var c := Operand(19, Number(23, Numeral(z)));
    OperandNumeral(8, x, env);
    OperandNumeral(13, y, env);
    OperandNumeral(18, z, env);
    var t := Rule(8, Expression, [a, Token("-"), b, Token("-"), c]);
    assert t == Chain(x, y, z);
    assert Eval(Token("-"), env).Success? && NoEquation(Token("-"));
    FiveKidsRejected(t, env);
  }

  /** test.py's test_multiple_minus, `a = 3 - 1 - 1`: as written, a node
      with more than one child is not implemented, so even with `a` bound
      the line fails and binds nothing. */
  lemma ChainIsRejected(x: nat, y: nat, z: nat, s: State)
    requires "a" in s.vars
    requires forall k :: k in s.props ==> 23 < k
    ensures var o := Walk(AssignLine(0, Lone(1, Name(6, "a")), EqualsSign(7), Chain(x, y, z)), s);
      o.error == Some(NotImplemented(Expression)) && o.state.vars == s.vars
  {
    AssignNumeralEval("a", 0, s.vars);
    LoneShape(1, Name(6, "a"), s.vars);
    LeafShape(EqualsSign(7), s.vars);
    ChainIds(x, y, z);
    ChainEval(x, y, z, s.vars);
    ThreeKidsShape(AssignLine(0, Lone(1, Name(6, "a")), EqualsSign(7), Chain(x, y, z)), 6, 7, 23);
    AssignBindsText(0, Lone(1, Name(6, "a")), EqualsSign(7), Chain(x, y, z), s);
  }

  /** `return x - y - z`: the chain is rejected before anything is looked
      up, so this fails even on a fresh listener, which holds no
      variables. Neither variables nor result change. */
  lemma ReturnChainIsRejected(x: nat, y: nat, z: nat, s: State)
    requires forall k :: k in s.props ==> 23 < k
    ensures var o := Walk(ReturnLine(0, Chain(x, y, z)), s);
      && o.error == Some(NotImplemented(Expression))
      && o.state.vars == s.vars && o.state.result == s.result
  {
    var e := Chain(x, y, z);
    var t := ReturnLine(0, e);
    ChainIds(x, y, z);
    ChainEval(x, y, z, s.vars);
    TwoKidsShape(t, 7, 23);
    ReturnSetsResult(0, e, s);
    WalkMatchesEval(e, s);
    assert t.kids[0] == Token("return") && t.kids[1] == e;
    assert WalkKids(t, 1, s) == Outcome(s, None);
    assert WalkKids(t, 2, s) == Walk(e, s);
  }

  /** test_multiple_minus's chain on the listener `evaluate_line` builds. */
  lemma ReturnChainOnFreshListener()
    ensures Walk(ReturnLine(0, Chain(3, 1, 1)), Initial(map[])).error == Some(NotImplemented(Expression))
  {
    ReturnChainIsRejected(3, 1, 1, Initial(map[]));
  }
}
