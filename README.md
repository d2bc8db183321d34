# Arithmetic DSL listener, modelled in Dafny

The repository evaluates one line of a small arithmetic language. A line is either
`return <expr>` or `<name> = <expr>`. A generated ANTLR parser turns the line into
a parse tree. Class `DSL` in `dsl_listener.py` is a listener: the ANTLR walker
visits the tree depth-first and calls the listener's handlers.
- `enterVariable` runs when a node is entered.
- Every other handler runs when a node is exited, so its children have already
  been handled.

The handlers work on three pieces of state:
- the attribute table `parseTreeProperties`, which maps a node to its value;
- the variable dict `variables`;
- the `result` slot.

The model has five layers:

- `ParseTree` (parse_tree.dfy): the parse tree. It is a generic ordered tree of
  tokens and rule nodes. Each rule node has a kind (`Equation`, `Expression`,
  `Term`, `Factor`, `SignedAtom`, `Atom`, `Scientific`, `Variable`, or another
  grammar rule) and a handle (`NodeId`) that stands for the node object's identity.
  The layer also defines `getText()` (`Text`), `expression(i)` (`NthExpression`),
  and builders for the tree shapes the grammar produces.
- `Semantics` (semantics.dfy): each handler as a function from the listener's
  state to its next state or a raised error. `Walk` is the walker's post-order
  traversal over those functions. A raise stops the walk and keeps everything
  written before it, as a Python exception does. `Eval` is a stateless reference
  that computes the attribute of one node from its subtree.
- `WalkProperties` (walk_properties.dfy) proves four things about the walk:
  - its frame: nothing is removed, and only the walked nodes' entries are written;
  - its agreement with `Eval`;
  - what a `return` line does;
  - what an assignment line does.
- `Dsl` (dsl.dfy): class `DSL` itself.
  - Its fields are `result`, `props` (the attribute table) and `variables`.
  - `variables` is a reference to an `Env` object, because the listener writes
    into the very dict a caller supplies.
  - There is one method per handler, a recursive `Walk` method that fires them in
    the walker's order, and `EvaluateLine`.
  - Each method is proved equal to its `Semantics` counterpart.
- `Scenarios` (scenarios.dfy): whole lines walked through the model, for example
  `return n`, `x = n` followed by `return x`, `a = 2` on a fresh listener, and
  `a = x - y - z` and `return x - y - z`.
- `Intended` (intended.dfy): a separate evaluator that behaves as the tests in
  `test.py` expect. It is kept apart from the listener as written.
  - Operator chains fold from the left.
  - Parentheses are unwrapped.
  - A unary `+` or `-` on a signed atom is evaluated as well, beyond what the tests ask.
  - The assignment target is read from the tree and never looked up.
  - A runner threads the variables through a sequence of lines and stops at the
    first `return`.
  - It is proved to give every node the value the listener gives it, to return what
    the listener returns on a `return` line, and to bind what the listener binds on
    an assignment whose left side is a plain name.

The code and the tests disagree in places. The model follows the code:
- nodes with several children raise;
- the assignment target is looked up as a variable;
- the binding key is the text of the whole left expression;
- `evaluate_line` takes one argument;
- `evaluate_lines` does not exist.

## Model

| member | source | states |
|---|---|---|
| ParseTree.NthExpression | dsl_listener.py:23-25 | `expression(i)` yields an `Expression` child, and `expression(0)` is absent only when no child is an `Expression` |
| ParseTree.NthExpressionInOrder | dsl_listener.py:23-25 | `expression(i)` is absent exactly when there are at most i `Expression` children; otherwise it is the child with exactly i `Expression` children before it |
| Semantics.ParseNumeral | dsl_listener.py:51-52 | `int()` of the decimal digits of n is n |
| Dsl.Env.constructor | dsl_listener.py:12-16 | a dict object holding exactly the given bindings |
| Dsl.DSL.constructor | dsl_listener.py:12-16 | result is None and the table is empty; a supplied non-empty dict is shared; a missing or empty one is replaced by a fresh empty dict |
| Dsl.DSL.ExitEquation | dsl_listener.py:18-25 | `return`: result becomes child 1's attribute and variables are unchanged. Otherwise: the text of `expression(0)` is bound to the attribute of `expression(1)`, only that key changes and result is unchanged. A missing attribute or target raises and writes nothing |
| Dsl.DSL.ExitExpression | dsl_listener.py:27-31 | one child: the node's entry becomes the child's attribute and nothing else is written; any other child count raises NotImplemented and writes nothing |
| Dsl.DSL.ExitTerm | dsl_listener.py:33-37 | as ExitExpression, for a Term |
| Dsl.DSL.ExitFactor | dsl_listener.py:39-43 | as ExitExpression, for a Factor |
| Dsl.DSL.ExitSignedAtom | dsl_listener.py:45-49 | as ExitExpression, for a SignedAtom |
| Dsl.DSL.ExitScientific | dsl_listener.py:51-52 | the node's entry becomes the decimal value of its text; text that is not a decimal integer raises NotAnInteger and writes nothing |
| Dsl.DSL.ExitAtom | dsl_listener.py:54-58 | as ExitExpression, for an Atom, so a parenthesised atom raises |
| Dsl.DSL.EnterVariable | dsl_listener.py:60-61 | a bound name's value becomes the node's entry; an unbound name raises UnboundName and writes nothing |
| Dsl.DSL.EnterRule | dsl_listener.py:60-61 | entering a rule node runs the enter handler of its kind, as its state function does |
| Dsl.DSL.ExitRule | dsl_listener.py:18-58 | exiting a rule node runs the exit handler of its kind, as its state function does |
| Dsl.DSL.Walk | dsl_listener.py:78 | the walk leaves the listener in the state, and returns the error, that the post-order walk `Semantics.Walk` gives |
| Dsl.EvaluateLine | dsl_listener.py:71-79 | a fresh listener over a fresh empty dict walks the tree, and its final state is the walk from the initial state |
| WalkProperties.StepFrame | dsl_listener.py:21-61 | each enter or exit handler writes at most its own node's attribute; only the exit of an equation can change variables or result, and no handler removes a binding or an attribute |
| WalkProperties.WalkKidsStops | dsl_listener.py:78 | after a child raises, the later children are not walked |
| WalkProperties.WalkFrame | dsl_listener.py:21-61 | a walk never removes a binding or an attribute, writes attributes only for nodes of the walked tree, and changes neither variables nor result when the tree has no equation |
| WalkProperties.WalkKidsFrame | dsl_listener.py:21-61 | the same frame for walking the first n children of a node |
| WalkProperties.WalkMatchesEval | dsl_listener.py:27-61 | on a tree with unique fresh handles and no equation: the walk raises exactly when the reference evaluator fails, with the same error; otherwise the node's entry is the reference value |
| WalkProperties.WalkKidsMatchEval | dsl_listener.py:27-61 | the same agreement, child by child, for the first n children |
| WalkProperties.ReturnSetsResult | dsl_listener.py:20-21 | `return e` succeeds exactly when e has a value, and then sets result to it; variables never change, and result is unchanged on failure |
| WalkProperties.AssignBindsText | dsl_listener.py:22-25 | an assignment succeeds exactly when both sides and the operator evaluate and the right side has a value; it then binds exactly the text of the left side and leaves result alone. On failure variables are unchanged, and the error is that of the first of left side, operator and right side to fail |
| Scenarios.ReturnsNumeral | dsl_listener.py:20-21 | `return n` sets result to n and leaves variables alone |
| Scenarios.AssignToUnboundTargetFails | dsl_listener.py:60-61 | `x = n` with x unbound raises UnboundName(x) and changes neither variables nor result |
| Scenarios.AssignOnFreshListenerFails | dsl_listener.py:60-61 | `a = 2` on a fresh listener raises UnboundName("a") |
| Scenarios.AssignThenReturn | dsl_listener.py:18-25 | two walks over the same state, `x = n` (x already bound) and then `return x`, leave x bound to n and result n |
| Scenarios.ChainEval | dsl_listener.py:27-31 | the reference value of `x - y - z` is the NotImplemented failure of its Expression |
| Scenarios.ChainIsRejected | dsl_listener.py:27-31 | `a = x - y - z` with `a` already bound raises NotImplemented(Expression) and leaves variables unchanged (with `a` unbound the walk stops earlier, at the target lookup) |
| Scenarios.ReturnChainIsRejected | dsl_listener.py:27-31 | `return x - y - z` raises NotImplemented(Expression) whatever variables are bound, and changes neither variables nor result |
| Scenarios.ReturnChainOnFreshListener | dsl_listener.py:27-31 | `return 3 - 1 - 1` on a fresh listener raises NotImplemented(Expression) |
| Intended.Combine | test.py:24-47 | in an Expression chain `+` and `-` give the sum and difference; in a Term chain `*` gives the product and `/` succeeds exactly when the divisor is non-zero and divides the dividend, then giving the exact quotient; an operator of the other level is rejected |
| Intended.TargetName | dsl_listener.py:23 | the name read from the tree is the same string as the left side's text, which the listener uses as the key |
| Intended.FoldThree | test.py:49-57 | a three-operand chain applies its first operator before its second |
| Intended.ExtendsAsWritten | dsl_listener.py:27-61 | wherever the reference evaluator of the listener gives a node a value, the intended evaluator gives the same value |
| Intended.ReturnExtendsAsWritten | dsl_listener.py:20-21 | a `return` line the listener completes returns the listener's result here too |
| Intended.AssignExtendsAsWritten | dsl_listener.py:22-25 | an assignment the listener completes, whose left side is a plain name, yields the listener's variables here too |
| Intended.RunStopsEarly | test.py:64-69 | lines after a `return` or a failing line are never evaluated |
| Intended.RunThreadsVariables | test.py:71-77 | a run that neither returned nor failed hands its variables to the following lines |
| Intended.ChainFoldsLeft | test.py:49-52 | `x - y - z` evaluates to `(x - y) - z` |
| Intended.MultipleMinus | test.py:49-52 | `a = 3 - 1 - 1` binds a to 1 |
| Intended.ReturnChain | test.py:49-52 | a run of the single line `return x - y - z` returns `(x - y) - z` and leaves the variables alone |
| Intended.ValueGrouped | test.py:59-62 | a parenthesised operand has the value of the expression inside it |
| Intended.ValueSum | test.py:24-27 | two operands joined by `+` evaluate to the sum of their values |
| Intended.ParenthesesGroup | test.py:59-62 | `(x + y) + (z + w)` evaluates to the sum of the two group sums |
| Intended.Parentheses | test.py:59-62 | `a = (1 + 1) + (1 + 1)` binds a to 4 |
| Intended.AssignThenReturn | test.py:12-15 | `x = n` followed by `return x` returns n and binds x to n, whether or not x was bound before |
| Intended.ValueScaled | test.py:71-77 | `x * m` with x bound evaluates to x's value times m |
| Intended.RebindThenReturn | test.py:71-77 | `x = n`, `x = x * m`, `return x` returns n * m and leaves x bound to n * m |

## Left out

- The ANTLR lexer, parser and generated listener (dsl_listener.py:3-7, 72-75). The parse tree is an input of the model. The grammar file is not part of this model.
- `main` and its `fileinput` loop (dsl_listener.py:64-68): console input.
- `print(var_name)` (dsl_listener.py:24): console output.
- Node identity. Python keys the table by node object. The model keys it by a `NodeId` handle. The agreement lemmas assume that handles are unique within a tree and not yet in the table; fresh node objects guarantee this.
- Semantics.ParseDecimal: accepts only non-empty strings of ASCII digits. Python's `int()` also accepts a sign, surrounding whitespace, underscores and non-ASCII digits. Which strings the grammar's literal token admits is not part of this model; any other text raises NotAnInteger.
- Values are unbounded integers. Genericity over other value types (test.py:79-93, pandas frames) is not modelled.
- Intended.EvalLine: rejects as Malformed an assignment whose left side is not a plain name, such as `3 = 5`. The listener as written completes that line and binds the key "3" (dsl_listener.py:23-25). So Intended.AssignExtendsAsWritten is stated only for plain-name targets.
- Intended.Combine: models division only when it is exact. Python's `/` would give a float, and a non-integral quotient is reported as NotIntegral.
- Exceptions are modelled as a returned error. What the handlers wrote before the raise stays in the state, as in Python. Dsl.EvaluateLine returns the listener together with the error instead of raising out of `evaluate_line`.
- `evaluate_lines` and the two-argument `evaluate_line(line, d)` that test.py uses do not exist in dsl_listener.py. `Intended.Run` is the runner those tests describe. On the listener itself, carrying variables across lines is modelled as several walks over one state (Scenarios.AssignThenReturn).
- Handlers the generated base listener defines as no-ops (`enterEveryRule`, `visitTerminal`, and the enter and exit handlers of other rules) are modelled as doing nothing.

## Findings

| source | as written | input that shows it | evidently intended | confidence | as-written member | corrected member |
|---|---|---|---|---|---|---|
| dsl_listener.py:60-61 | `enterVariable` looks up every Variable node, including the assignment target on the left of `=` | `a = 2` with no variable bound | `a` is bound to 2 (test.py:12-15) | not executed; follows from the walker entering the left expression before exitEquation runs | Scenarios.AssignOnFreshListenerFails | Intended.AssignThenReturn |
| dsl_listener.py:27-31 | an Expression with more than one child raises NotImplementedError | `return 3 - 1 - 1` on a fresh listener | the chain folds from the left and gives 1, as test.py:49-52 expects of `a = 3 - 1 - 1` | not executed; the tests at test.py:24-62 all use operator chains | Scenarios.ReturnChainOnFreshListener | Intended.ReturnChain |
