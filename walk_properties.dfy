/**
 * Properties of a walk of the listener over a parse tree: what it may write,
 * the attribute each node ends up with, and what a `return` line and an
 * assignment line do to the result and to the variables.
 */
module WalkProperties {
  import opened Wrappers
  import opened ParseTree
  import opened Semantics

  /** From `s` to `s2` no attribute and no binding was removed, and only
      the attributes of the nodes in `ids` were written. */
  ghost predicate Grows(s: State, s2: State, ids: set<NodeId>)
  {
    && s.props.Keys <= s2.props.Keys <= s.props.Keys + ids
    && (forall k :: k in s.props && k !in ids ==> s2.props[k] == s.props[k])
    && s.vars.Keys <= s2.vars.Keys
  }

  lemma GrowsTransitive(s1: State, s2: State, s3: State, a: set<NodeId>, b: set<NodeId>)
    requires Grows(s1, s2, a) && Grows(s2, s3, b)
    ensures Grows(s1, s3, a + b)
  {
  }

  /** Once a child's walk raises, the later children are not walked. */
  lemma {:induction false} WalkKidsStops(t: Tree, m: nat, n: nat, s: State)
    requires t.Rule? && m <= n <= |t.kids|
    requires WalkKids(t, m, s).error.Some?
    ensures WalkKids(t, n, s) == WalkKids(t, m, s)
    decreases n
  {
    if m < n {
      WalkKidsStops(t, m, n - 1, s);
    }
  }

  /** Each handler writes at most its own node's attribute; only the exit
      of an equation writes a binding or the result, and none removes one. */
  lemma StepFrame(t: Tree, s: State)
    requires t.Rule?
    ensures Grows(s, Apply(Enter(t, s), s).state, {t.id})
    ensures Apply(Enter(t, s), s).state.vars == s.vars && Apply(Enter(t, s), s).state.result == s.result
    ensures Grows(s, Apply(Exit(t, s), s).state, {t.id})
    ensures !t.kind.Equation? ==>
              Apply(Exit(t, s), s).state.vars == s.vars && Apply(Exit(t, s), s).state.result == s.result
  {
  }

  /** A walk never removes a binding or an attribute, writes attributes only
      for the nodes of the walked tree, and leaves the variables and the
      result alone when the tree holds no equation. */
  lemma {:induction false} WalkFrame(t: Tree, s: State)
    ensures Grows(s, Walk(t, s).state, Ids(t))
    ensures NoEquation(t) ==> Walk(t, s).state.vars == s.vars && Walk(t, s).state.result == s.result
    decreases t, Arity(t) + 1
  {
    match t
    case Token(_) =>
    case Rule(id, kind, kids) =>
      StepFrame(t, s);
      match Enter(t, s)
      case Raise(_) =>
      case Next(s1) =>
        WalkKidsFrame(t, |kids|, s1);
        GrowsTransitive(s, s1, WalkKids(t, |kids|, s1).state, {id}, KidsIds(t, |kids|));
        var o := WalkKids(t, |kids|, s1);
        if o.error.None? {
          StepFrame(t, o.state);
          assert Walk(t, s) == Apply(Exit(t, o.state), o.state);
          GrowsTransitive(s, o.state, Walk(t, s).state, {id} + KidsIds(t, |kids|), {id});
        }
  }

  lemma {:induction false} WalkKidsFrame(t: Tree, n: nat, s: State)
    requires t.Rule? && n <= |t.kids|
    ensures Grows(s, WalkKids(t, n, s).state, KidsIds(t, n))
    ensures NoEquationKids(t, n) ==>
      WalkKids(t, n, s).state.vars == s.vars && WalkKids(t, n, s).state.result == s.result
    decreases t, n
  {
    if n > 0 {
      WalkKidsFrame(t, n - 1, s);
      var o := WalkKids(t, n - 1, s);
      if o.error.None? {
        WalkFrame(t.kids[n - 1], o.state);
        GrowsTransitive(s, o.state, WalkKids(t, n, s).state, KidsIds(t, n - 1), Ids(t.kids[n - 1]));
      }
    }
  }

  /** On a tree of fresh, distinct nodes without equations, the walk
      succeeds exactly when the reference reading does, raises the error that
      reading names, leaves variables and result alone, and stores for the
      root exactly the attribute the reading gives it. */
  lemma {:induction false} WalkMatchesEval(t: Tree, s: State)
    requires UniqueIds(t) && NoEquation(t) && Ids(t) !! s.props.Keys
    ensures var o := Walk(t, s); var r := Eval(t, s.vars);
      && o.state.vars == s.vars && o.state.result == s.result
      && (o.error.None? <==> r.Success?)
      && (o.error.Some? ==> r == Failure(o.error.value))
      && (r.Success? ==> AttrOf(t, o.state.props) == r.value)
    decreases t, Arity(t) + 1
  {
    match t
    case Token(_) =>
    case Rule(id, kind, kids) =>
      match Enter(t, s)
      case Raise(_) =>
      case Next(s1) =>
        WalkKidsMatchEval(t, |kids|, s1);
        WalkKidsFrame(t, |kids|, s1);
  }

  lemma {:induction false} WalkKidsMatchEval(t: Tree, n: nat, s: State)
    requires t.Rule? && n <= |t.kids|
    requires UniqueKids(t, n) && NoEquationKids(t, n) && KidsIds(t, n) !! s.props.Keys
    ensures var o := WalkKids(t, n, s); var r := EvalKids(t, n, s.vars);
      && o.state.vars == s.vars && o.state.result == s.result
      && (o.error.None? <==> r.Success?)
      && (o.error.Some? ==> r == Failure(o.error.value))
      && (r.Success? ==> forall i :: 0 <= i < n ==> AttrOf(t.kids[i], o.state.props) == r.value[i])
    decreases t, n
  {
    if n > 0 {
      WalkKidsMatchEval(t, n - 1, s);
      WalkKidsFrame(t, n - 1, s);
      var o := WalkKids(t, n - 1, s);
      if o.error.None? {
        var last := t.kids[n - 1];
        WalkMatchesEval(last, o.state);
        WalkFrame(last, o.state);
        var o2 := Walk(last, o.state);
        forall i | 0 <= i < n - 1
          ensures AttrOf(t.kids[i], o2.state.props) == AttrOf(t.kids[i], o.state.props)
        {
          KidIdsIncluded(t, n - 1, i);
        }
      }
    }
  }

  /** `return e`: the result becomes the attribute computed for `e`, and the
      variables are not touched; without an attribute for `e` the line fails
      and the result keeps its old value. */
  lemma ReturnSetsResult(id: NodeId, e: Tree, s: State)
    requires UniqueIds(ReturnLine(id, e)) && NoEquation(e) && Ids(ReturnLine(id, e)) !! s.props.Keys
    ensures var o := Walk(ReturnLine(id, e), s); var r := Eval(e, s.vars);
      && o.state.vars == s.vars
      && (o.error.None? <==> r.Success? && r.value.Some?)
      && (o.error.None? ==> o.state.result == r.value)
      && (o.error.Some? ==> o.state.result == s.result)
  {
    var t := ReturnLine(id, e);
    assert t.kids[0] == Token("return") && t.kids[1] == e;
    assert KidsIds(t, 1) == {};
    assert KidsIds(t, 2) == Ids(e);
    assert WalkKids(t, 1, s) == Outcome(s, None);
    assert WalkKids(t, 2, s) == Walk(e, s);
    WalkMatchesEval(e, s);
  }

  /** `lhs = rhs` as written: the walk evaluates the left side too, and on
      success binds exactly one key, the text of the left side, to the
      attribute of the right side; the result never changes, and a failing
      line leaves the variables as they were. */
  lemma AssignBindsText(id: NodeId, lhs: Tree, op: Tree, rhs: Tree, s: State)
    requires lhs.Rule? && lhs.kind.Expression? && rhs.Rule? && rhs.kind.Expression?
    requires !(op.Rule? && op.kind.Expression?)
    requires NoEquation(lhs) && NoEquation(op) && NoEquation(rhs)
    requires UniqueIds(AssignLine(id, lhs, op, rhs)) && Ids(AssignLine(id, lhs, op, rhs)) !! s.props.Keys
    ensures var o := Walk(AssignLine(id, lhs, op, rhs), s);
      var l, m, r := Eval(lhs, s.vars), Eval(op, s.vars), Eval(rhs, s.vars);
      && o.state.result == s.result
      && (o.error.None? <==> l.Success? && m.Success? && r.Success? && r.value.Some?)
      && (o.error.None? ==> o.state.vars == s.vars[Text(lhs) := r.value.value])
      && (o.error.Some? ==> o.state.vars == s.vars)
      && (l.Failure? ==> o.error == Some(l.error))
      && (l.Success? && m.Failure? ==> o.error == Some(m.error))
      && (l.Success? && m.Success? && r.Failure? ==> o.error == Some(r.error))
  {
    var t := AssignLine(id, lhs, op, rhs);
    assert t.kids[0] == lhs && t.kids[1] == op && t.kids[2] == rhs;
    assert KidsIds(t, 1) == Ids(lhs);
    assert KidsIds(t, 2) == Ids(lhs) + Ids(op);
    assert UniqueKids(t, 2) && UniqueKids(t, 1);
    assert Enter(t, s) == Next(s);
    WalkMatchesEval(lhs, s);
    WalkFrame(lhs, s);
    var o1 := Walk(lhs, s);
    assert WalkKids(t, 1, s) == o1;
    if o1.error.Some? {
      assert WalkKids(t, 2, s) == o1;
      assert WalkKids(t, 3, s) == o1;
    } else {
      WalkMatchesEval(op, o1.state);
      WalkFrame(op, o1.state);
      var o2 := Walk(op, o1.state);
      assert WalkKids(t, 2, s) == o2;
      if o2.error.Some? {
        assert WalkKids(t, 3, s) == o2;
      } else {
        WalkMatchesEval(rhs, o2.state);
        assert [lhs, op, rhs][1..] == [op, rhs];
        assert [op, rhs][1..] == [rhs];
        assert NthExpression(t.kids, 0) == Some(lhs);
        assert NthExpression(t.kids, 1) == Some(rhs);
      }
    }
  }
}
