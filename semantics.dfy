/**
 * What the listener's handlers do, as functions on the listener's state, and
 * what a whole walk of the tree does with them (dsl_listener.py, class DSL).
 *
 * The state is the three pieces the listener keeps: the attribute table
 * (`parseTreeProperties`), the variable environment (`variables`) and the
 * result slot. A handler either steps to a new state or raises; a raise
 * stops the walk, leaving whatever earlier handlers wrote.
 *
 * `Eval` is an independent, stateless reading of the same rules: the
 * attribute each node ends up with. `WalkMatchesEval` connects the two.
 */
module Semantics {
  import opened Wrappers
  import opened ParseTree

  /** The exceptions a handler can raise. */
  datatype Error =
    | UnboundName(name: string)    // KeyError from the variables dict
    | MissingAttribute             // KeyError from the attribute table
    | NotImplemented(kind: Kind)   // NotImplementedError from a node with other than one child
    | NotAnInteger(text: string)   // ValueError from int() on a literal's text
    | NoTarget                     // AttributeError: an assignment without an Expression child

  datatype State = State(props: map<NodeId, int>, vars: map<string, int>, result: Option<int>)

  /** The state of a freshly constructed listener over the given bindings. */
  function Initial(vars: map<string, int>): State
  {
    State(map[], vars, None)
  }

  /** What one handler does: a new state, or an exception. */
  datatype Step = Next(state: State) | Raise(error: Error)

  /** Where a walk stops: the state reached and, if it was cut short, why. */
  datatype Outcome = Outcome(state: State, error: Option<Error>)

  // ---------------------------------------------------------------------
  // Literal text to integer (Python's int() on the literal's text)

  predicate IsDigit(c: char)
  {
    '0' <= c <= '9'
  }

  predicate AllDigits(s: string)
  {
    forall i :: 0 <= i < |s| ==> IsDigit(s[i])
  }

  function DigitsValue(s: string): nat
    requires AllDigits(s)
  {
    if s == [] then 0
    else DigitsValue(s[..|s| - 1]) * 10 + (s[|s| - 1] as int - '0' as int)
  }

  /** int(text): the decimal value of a non-empty string of digits; any
      other text is refused. */
  function ParseDecimal(s: string): Option<nat>
  {
    if s != [] && AllDigits(s) then Some(DigitsValue(s)) else None
  }

  /** The decimal numeral of `n`, the inverse of ParseDecimal. */
  function Numeral(n: nat): (s: string)
    ensures s != [] && AllDigits(s)
  {
    var d := ['0' + (n % 10) as char];
    if n < 10 then d else Numeral(n / 10) + d
  }

  lemma {:induction false} ParseNumeral(n: nat)
    ensures ParseDecimal(Numeral(n)) == Some(n)
  {
    var s := Numeral(n);
    assert s[|s| - 1] as int - '0' as int == n % 10;
    if n >= 10 {
      ParseNumeral(n / 10);
      assert s[..|s| - 1] == Numeral(n / 10);
    } else {
      assert s[..|s| - 1] == [];
      assert DigitsValue(s) == DigitsValue([]) * 10 + n;
    }
  }

  // ---------------------------------------------------------------------
  // The handlers

  /** parseTreeProperties[child]: the attribute stored for a child, if any.
      No handler writes an entry for a token, so a token never has one. */
  function AttrOf(t: Tree, props: map<NodeId, int>): Option<int>
  {
    if t.Rule? && t.id in props then Some(props[t.id]) else None
  }

  /** An equation whose first child is the token `return`. */
  predicate IsReturn(t: Tree)
    requires t.Rule?
  {
    |t.kids| > 0 && t.kids[0] == Token("return")
  }

  /** parseTreeProperties[ctx.getChild(1)] of a return equation. */
  function ReturnedAttr(t: Tree, props: map<NodeId, int>): Option<int>
    requires t.Rule?
  {
    if |t.kids| > 1 then AttrOf(t.kids[1], props) else None
  }

  /** ctx.expression(0).getText(): the binding key of an assignment. */
  function Target(t: Tree): Option<string>
    requires t.Rule?
  {
    match NthExpression(t.kids, 0)
    case None => None
    case Some(e) => Some(Text(e))
  }

  /** parseTreeProperties[ctx.expression(1)]: the value an assignment binds. */
  function AssignedAttr(t: Tree, props: map<NodeId, int>): Option<int>
    requires t.Rule?
  {
    match NthExpression(t.kids, 1)
    case None => None
    case Some(e) => AttrOf(e, props)
  }

  /** exitEquation */
  function ExitEquation(t: Tree, s: State): Step
    requires t.Rule?
  {
    if IsReturn(t) then
      match ReturnedAttr(t, s.props)
      case None => Raise(MissingAttribute)
      case Some(v) => Next(s.(result := Some(v)))
    else
      match Target(t)
      case None => Raise(NoTarget)
      case Some(key) =>
        match AssignedAttr(t, s.props)
        case None => Raise(MissingAttribute)
        case Some(v) => Next(s.(vars := s.vars[key := v]))
  }

  /** The kinds whose exit handler forwards the attribute of a single child. */
  predicate ForwardsOnlyChild(k: Kind)
  {
    k.Expression? || k.Term? || k.Factor? || k.SignedAtom? || k.Atom?
  }

  /** exitExpression, exitTerm, exitFactor, exitSignedAtom, exitAtom */
  function ExitSingleChild(t: Tree, s: State): Step
    requires t.Rule?
  {
    if |t.kids| != 1 then Raise(NotImplemented(t.kind))
    else
      match AttrOf(t.kids[0], s.props)
      case None => Raise(MissingAttribute)
      case Some(v) => Next(s.(props := s.props[t.id := v]))
  }

  /** exitScientific */
  function ExitScientific(t: Tree, s: State): Step
    requires t.Rule?
  {
    match ParseDecimal(Text(t))
    case None => Raise(NotAnInteger(Text(t)))
    case Some(n) => Next(s.(props := s.props[t.id := n]))
  }

  /** enterVariable */
  function EnterVariable(t: Tree, s: State): Step
    requires t.Rule?
  {
    if Text(t) in s.vars then Next(s.(props := s.props[t.id := s.vars[Text(t)]]))
    else Raise(UnboundName(Text(t)))
  }

  /** The walker's call of the enter handler for a rule node. */
  function Enter(t: Tree, s: State): Step
    requires t.Rule?
  {
    if t.kind.Variable? then EnterVariable(t, s) else Next(s)
  }

  /** The walker's call of the exit handler for a rule node. */
  function Exit(t: Tree, s: State): Step
    requires t.Rule?
  {
    match t.kind
    case Equation => ExitEquation(t, s)
    case Scientific => ExitScientific(t, s)
    case Variable => Next(s)
    case Other(_) => Next(s)
    case _ => ExitSingleChild(t, s)
  }

  function Apply(step: Step, s: State): Outcome
  {
    match step
    case Next(s') => Outcome(s', None)
    case Raise(e) => Outcome(s, Some(e))
  }

  // ---------------------------------------------------------------------
  // The walk: enter a rule node, walk its children in order, exit it

  function Walk(t: Tree, s: State): Outcome
    decreases t, Arity(t) + 1
  {
    match t
    case Token(_) => Outcome(s, None)
    case Rule(_, _, kids) =>
      match Enter(t, s)
      case Raise(e) => Outcome(s, Some(e))
      case Next(s1) =>
        var o := WalkKids(t, |kids|, s1);
        if o.error.Some? then o else Apply(Exit(t, o.state), o.state)
  }

  /** Walking the first `n` children of a rule node, stopping at a raise. */
  function WalkKids(t: Tree, n: nat, s: State): Outcome
    requires t.Rule? && n <= |t.kids|
    decreases t, n
  {
    if n == 0 then Outcome(s, None)
    else
      var o := WalkKids(t, n - 1, s);
      if o.error.Some? then o else Walk(t.kids[n - 1], o.state)
  }

  // ---------------------------------------------------------------------
  // The reference reading: the attribute of each node, without a table

  /** The attribute a node receives (None: no handler gives it one), or the
      first error met in walk order. */
  function Eval(t: Tree, env: map<string, int>): Result<Option<int>, Error>
    decreases t, Arity(t) + 1
  {
    match t
    case Token(_) => Success(None)
    case Rule(_, kind, kids) =>
      if kind.Variable? && Text(t) !in env then Failure(UnboundName(Text(t)))
      else
        match EvalKids(t, |kids|, env)
        case Failure(e) => Failure(e)
        case Success(vals) => Reduce(t, vals, env)
  }

  function EvalKids(t: Tree, n: nat, env: map<string, int>): (r: Result<seq<Option<int>>, Error>)
    requires t.Rule? && n <= |t.kids|
    ensures r.Success? ==> |r.value| == n
    decreases t, n
  {
    if n == 0 then Success([])
    else
      match EvalKids(t, n - 1, env)
      case Failure(e) => Failure(e)
      case Success(vals) =>
        match Eval(t.kids[n - 1], env)
        case Failure(e) => Failure(e)
        case Success(v) => Success(vals + [v])
  }

  /** A node's own rule, given its children's attributes. */
  function Reduce(t: Tree, vals: seq<Option<int>>, env: map<string, int>): Result<Option<int>, Error>
    requires t.Rule? && (t.kind.Variable? ==> Text(t) in env)
  {
    match t.kind
    case Variable => Success(Some(env[Text(t)]))
    case Scientific =>
      (match ParseDecimal(Text(t))
       case None => Failure(NotAnInteger(Text(t)))
       case Some(n) => Success(Some(n)))
    case Equation => Success(None)
    case Other(_) => Success(None)
    case _ =>
      if |vals| != 1 then Failure(NotImplemented(t.kind))
      else if vals[0].None? then Failure(MissingAttribute)
      else Success(vals[0])
  }
}
