/**
 * The listener object of dsl_listener.py: class DSL with its three pieces
 * of state, one method per handler, the walker that fires the handlers in
 * tree order, and evaluate_line without its lexer and parser.
 */
module Dsl {
  import opened Wrappers
  import opened ParseTree
  import opened Semantics
  import WalkProperties

  /** A dict of variable bindings, held by reference, so that a listener
      built over a caller's dict writes into the caller's dict. */
  class Env {
    var bindings: map<string, int>

    constructor (bindings: map<string, int>)
      ensures this.bindings == bindings
    {
      this.bindings := bindings;
    }
  }

  class DSL {
    var result: Option<int>
    /** parseTreeProperties: the attribute of each node walked so far. */
    var props: map<NodeId, int>
    const variables: Env

    function Snapshot(): State
      reads this, variables
    {
      State(props, variables.bindings, result)
    }

    /** A missing or empty dict is replaced by a fresh empty one, so an empty
        dict the caller supplies is not shared; a non-empty one is. */
    constructor (supplied: Env?)
      ensures result == None && props == map[]
      ensures supplied != null && supplied.bindings != map[] ==> variables == supplied
      ensures supplied == null || supplied.bindings == map[] ==>
                fresh(variables) && variables.bindings == map[]
    {
      result := None;
      props := map[];
      if supplied != null && supplied.bindings != map[] {
        variables := supplied;
      } else {
        variables := new Env(map[]);
      }
    }

    /** `return e` stores the attribute of child 1 as the result; otherwise
        the text of the first Expression child is bound to the attribute of
        the second. Nothing else changes, and a raise changes nothing. */
    method ExitEquation(ctx: Tree) returns (err: Option<Error>)
      requires ctx.Rule? && ctx.kind.Equation?
      modifies this`result, variables`bindings
      ensures IsReturn(ctx) ==> variables.bindings == old(variables.bindings)
      ensures IsReturn(ctx) ==>
                match ReturnedAttr(ctx, props)
                case Some(v) => err == None && result == Some(v)
                case None => err == Some(MissingAttribute) && result == old(result)
      ensures !IsReturn(ctx) ==> result == old(result)
      ensures !IsReturn(ctx) && Target(ctx).None? ==>
                err == Some(NoTarget) && variables.bindings == old(variables.bindings)
      ensures !IsReturn(ctx) && Target(ctx).Some? ==>
                match AssignedAttr(ctx, props)
                case Some(v) => err == None && variables.bindings == old(variables.bindings)[Target(ctx).value := v]
                case None => err == Some(MissingAttribute) && variables.bindings == old(variables.bindings)
    {
      if IsReturn(ctx) {
        match ReturnedAttr(ctx, props)
        case None =>
          err := Some(MissingAttribute);
        case Some(v) =>
          result := Some(v);
          err := None;
      } else {
        match Target(ctx)
        case None =>
          err := Some(NoTarget);
        case Some(key) =>
          match AssignedAttr(ctx, props)
          case None =>
            err := Some(MissingAttribute);
          case Some(v) =>
            variables.bindings := variables.bindings[key := v];
            err := None;
      }
    }

    /** A single-child Expression takes its child's attribute; any other
        number of children is not implemented, and nothing is written. */
    method ExitExpression(ctx: Tree) returns (err: Option<Error>)
      requires ctx.Rule? && ctx.kind.Expression?
      modifies this`props
      ensures |ctx.kids| != 1 ==> err == Some(NotImplemented(Expression)) && props == old(props)
      ensures |ctx.kids| == 1 ==>
                match AttrOf(ctx.kids[0], old(props))
                case Some(v) => err == None && props == old(props)[ctx.id := v]
                case None => err == Some(MissingAttribute) && props == old(props)
    {
      if |ctx.kids| != 1 {
        err := Some(NotImplemented(Expression));
      } else {
        match AttrOf(ctx.kids[0], props)
        case None =>
          err := Some(MissingAttribute);
        case Some(v) =>
          props := props[ctx.id := v];
          err := None;
      }
    }

    /** As ExitExpression, for a Term. */
    method ExitTerm(ctx: Tree) returns (err: Option<Error>)
      requires ctx.Rule? && ctx.kind.Term?
      modifies this`props
      ensures |ctx.kids| != 1 ==> err == Some(NotImplemented(Term)) && props == old(props)
      ensures |ctx.kids| == 1 ==>
                match AttrOf(ctx.kids[0], old(props))
                case Some(v) => err == None && props == old(props)[ctx.id := v]
                case None => err == Some(MissingAttribute) && props == old(props)
    {
      if |ctx.kids| != 1 {
        err := Some(NotImplemented(Term));
      } else {
        match AttrOf(ctx.kids[0], props)
        case None =>
          err := Some(MissingAttribute);
        case Some(v) =>
          props := props[ctx.id := v];
          err := None;
      }
    }

    /** As ExitExpression, for a Factor. */
    method ExitFactor(ctx: Tree) returns (err: Option<Error>)
      requires ctx.Rule? && ctx.kind.Factor?
      modifies this`props
      ensures |ctx.kids| != 1 ==> err == Some(NotImplemented(Factor)) && props == old(props)
      ensures |ctx.kids| == 1 ==>
                match AttrOf(ctx.kids[0], old(props))
                case Some(v) => err == None && props == old(props)[ctx.id := v]
                case None => err == Some(MissingAttribute) && props == old(props)
    {
      if |ctx.kids| != 1 {
        err := Some(NotImplemented(Factor));
      } else {
        match AttrOf(ctx.kids[0], props)
        case None =>
          err := Some(MissingAttribute);
        case Some(v) =>
          props := props[ctx.id := v];
          err := None;
      }
    }

    /** As ExitExpression, for a SignedAtom. */
    method ExitSignedAtom(ctx: Tree) returns (err: Option<Error>)
      requires ctx.Rule? && ctx.kind.SignedAtom?
      modifies this`props
      ensures |ctx.kids| != 1 ==> err == Some(NotImplemented(SignedAtom)) && props == old(props)
      ensures |ctx.kids| == 1 ==>
                match AttrOf(ctx.kids[0], old(props))
                case Some(v) => err == None && props == old(props)[ctx.id := v]
                case None => err == Some(MissingAttribute) && props == old(props)
    {
      if |ctx.kids| != 1 {
        err := Some(NotImplemented(SignedAtom));
      } else {
        match AttrOf(ctx.kids[0], props)
        case None =>
          err := Some(MissingAttribute);
        case Some(v) =>
          props := props[ctx.id := v];
          err := None;
      }
    }

    /** A literal's attribute is the decimal value of its text; text that is
        not a decimal integer raises and writes nothing. */
    method ExitScientific(ctx: Tree) returns (err: Option<Error>)
      requires ctx.Rule? && ctx.kind.Scientific?
      modifies this`props
      ensures match ParseDecimal(Text(ctx))
              case Some(n) => err == None && props == old(props)[ctx.id := n]
              case None => err == Some(NotAnInteger(Text(ctx))) && props == old(props)
    {
      match ParseDecimal(Text(ctx))
      case None =>
        err := Some(NotAnInteger(Text(ctx)));
      case Some(n) =>
        props := props[ctx.id := n];
        err := None;
    }

    /** As ExitExpression, for an Atom (so a parenthesised expression, with
        three children, is not implemented). */
    method ExitAtom(ctx: Tree) returns (err: Option<Error>)
      requires ctx.Rule? && ctx.kind.Atom?
      modifies this`props
      ensures |ctx.kids| != 1 ==> err == Some(NotImplemented(Atom)) && props == old(props)
      ensures |ctx.kids| == 1 ==>
                match AttrOf(ctx.kids[0], old(props))
                case Some(v) => err == None && props == old(props)[ctx.id := v]
                case None => err == Some(MissingAttribute) && props == old(props)
    {
      if |ctx.kids| != 1 {
        err := Some(NotImplemented(Atom));
      } else {
        match AttrOf(ctx.kids[0], props)
        case None =>
          err := Some(MissingAttribute);
        case Some(v) =>
          props := props[ctx.id := v];
          err := None;
      }
    }

    /** On entry to a Variable node, its attribute is the binding of its
        text; an unbound name raises and writes nothing. */
    method EnterVariable(ctx: Tree) returns (err: Option<Error>)
      requires ctx.Rule? && ctx.kind.Variable?
      modifies this`props
      ensures Text(ctx) in variables.bindings ==>
                err == None && props == old(props)[ctx.id := variables.bindings[Text(ctx)]]
      ensures Text(ctx) !in variables.bindings ==>
                err == Some(UnboundName(Text(ctx))) && props == old(props)
    {
      var name := Text(ctx);
      if name in variables.bindings {
        props := props[ctx.id := variables.bindings[name]];
        err := None;
      } else {
        err := Some(UnboundName(name));
      }
    }

    /** The walker's entry into a rule node: the enter handler of its kind. */
    method EnterRule(ctx: Tree) returns (err: Option<Error>)
      requires ctx.Rule?
      modifies this`props
      ensures Outcome(Snapshot(), err) == Apply(Enter(ctx, old(Snapshot())), old(Snapshot()))
    {
      if ctx.kind.Variable? {
        err := EnterVariable(ctx);
      } else {
        err := None;
      }
    }

    /** The walker's exit from a rule node: the exit handler of its kind. */
    method ExitRule(ctx: Tree) returns (err: Option<Error>)
      requires ctx.Rule?
      modifies this`props, this`result, variables`bindings
      ensures Outcome(Snapshot(), err) == Apply(Exit(ctx, old(Snapshot())), old(Snapshot()))
    {
      match ctx.kind
      case Equation => err := ExitEquation(ctx);
      case Expression => err := ExitExpression(ctx);
      case Term => err := ExitTerm(ctx);
      case Factor => err := ExitFactor(ctx);
      case SignedAtom => err := ExitSignedAtom(ctx);
      case Atom => err := ExitAtom(ctx);
      case Scientific => err := ExitScientific(ctx);
      case Variable => err := None;
      case Other(_) => err := None;
    }

    /** ParseTreeWalker.walk: a token is visited without effect; a rule node
        is entered, its children are walked in order, and it is exited. The
        first raise stops the walk, leaving what was written before it. */
    method Walk(t: Tree) returns (err: Option<Error>)
      modifies this`props, this`result, variables`bindings
      ensures Outcome(Snapshot(), err) == Semantics.Walk(t, old(Snapshot()))
      decreases t
    {
      if t.Token? {
        return None;
      }
      err := EnterRule(t);
      if err.Some? {
        return;
      }
      ghost var entered := Snapshot();
      var i := 0;
      while i < |t.kids|
        invariant i <= |t.kids|
        invariant WalkKids(t, i, entered) == Outcome(Snapshot(), None)
      {
        err := Walk(t.kids[i]);
        if err.Some? {
          WalkProperties.WalkKidsStops(t, i + 1, |t.kids|, entered);
          return;
        }
        i := i + 1;
      }
      err := ExitRule(t);
    }
  }

  /** evaluate_line, from the parse tree on: a fresh listener over a fresh
      empty dict walks the tree and is handed back. */
  method EvaluateLine(tree: Tree) returns (dsl: DSL, err: Option<Error>)
    ensures fresh(dsl) && fresh(dsl.variables)
    ensures Outcome(dsl.Snapshot(), err) == Semantics.Walk(tree, Initial(map[]))
  {
    dsl := new DSL(null);
    err := dsl.Walk(tree);
  }
}
