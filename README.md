# Scalar computation-graph node (`Value`)

A Dafny model of the `Value` class of `backprop.py`, the forward half of a
tiny reverse-mode automatic-differentiation engine. A `Value` holds a number
(`data`), a gradient accumulator (`grad`, starting at 0), the tag of the
operation that produced it (`op`), the ordered tuple of operand nodes it was
computed from (`parent`) and a diagnostic label. `a + b` and `a * b` build a
fresh node whose `parent` is `(a, b)`; a raw number on the right is first
wrapped into a leaf. The script at the end of the file builds `L = w * x + b`
with w = 4, x = 5, b = 2, labels every node and seeds `L.grad = 1`.

Everything lives in one module, `Backprop` (`backprop.dfy`):

- `class Value` has the five fields of the Python class. `data`, `op` and
  `parent` are `const`: nothing in the file writes them after `__init__`.
  `grad` and the label are `var`, because the script writes them. The label
  field is called `name`, since `label` is a Dafny keyword. `parent` is a
  `seq<Value>`: empty for a leaf, `[self, other]` for an operator result.
- Numbers are `real`. The script's integers are modelled exactly; Python's
  floating-point rounding is not modelled.
- The right-hand operand of `+` and `*` is the datatype
  `Operand = Node(Value) | Number(real)`. This is the `isinstance` test.
  `Promote` wraps a `Number` into a fresh leaf and passes a `Node` through
  unchanged.
- Acyclicity is made explicit with a ghost `depth`. Each node's depth is one
  more than its deepest parent's. `Valid()` is the object invariant: every
  parent is shallower and valid itself. The constructor establishes it from
  valid parents, so every `Value` ever built satisfies it. It appears in
  `requires` clauses only because Dafny has no class invariants.
  `Ancestors(v)` is the set of nodes reachable through `parent` links. Its
  contract says `v` is not among them and that all of them are shallower.
- A reference meaning for the stored numbers: `Unfold(v)` reads the graph
  below `v` as an arithmetic expression (`Expr`), and `Eval` computes its
  value. `Consistent(v)` says every node below `v` obeys its own `+`/`*`
  rule. `+` and `*` preserve consistency. A graph is consistent exactly when
  every node's `data` equals the value of the expression it records.

## Model

| member | source | states |
|---|---|---|
| Backprop.Value.constructor | backprop.py:13-18 | The new node stores the given `data`, `parent`, `op` and label exactly, with `grad` 0. With the defaults it is a leaf: no parents, empty `op`, empty label. It is valid, so its parents are strictly older. |
| Backprop.Promote | backprop.py:21 | A `Value` operand is returned as the very same object. A raw number becomes a freshly allocated leaf: that `data`, no parents, `op ""`, empty label, `grad` 0. |
| Backprop.Value.Add | backprop.py:20-22 | The result is fresh, with `data == self.data + other.data` and `parent == [self, promoted other]` in that order. Its `op` is `"+"`, its label is empty and its `grad` is 0. Both operands keep their `grad` and label. It unfolds to `Sum` of the operands' expressions. Its ancestors are the two operands plus their ancestors. It preserves consistency. |
| Backprop.Value.Mul | backprop.py:24-26 | The same as `Add`, with `data == self.data * other.data`, `op == "*"` and a `Product` expression. |
| Backprop.Ancestors | backprop.py:17 | Following `parent` links from a node reaches only valid, strictly shallower nodes. The node never reaches itself, so the graph is acyclic and every walk terminates. |
| Backprop.Reach | backprop.py:17 | Every node reachable from a list of nodes is valid and no deeper than the deepest of them. |
| Backprop.AncestorsClosed | backprop.py:17 | Each parent of a node is one of its ancestors, and so is each of that parent's ancestors. |
| Backprop.PairAncestors | backprop.py:22 | For a node with parents `(a, b)`, the ancestors are exactly `a`, `b` and their ancestors. |
| Backprop.ForwardValue | backprop.py:20-26 | In a graph where every `+`/`*` node obeys its rule, each node's `data` equals `Eval` of the expression the graph records below it. |
| Backprop.ConsistentIffEvaluates | backprop.py:20-26 | Both directions: the graph below `v` obeys the `+`/`*` rules if and only if every node in it stores the value of its recorded expression. |
| Backprop.SelfProduct | backprop.py:24-26 | `x * x` records `x` twice, `parent == [x, x]`, with no deduplication. Its data is `x.data * x.data`. Its ancestor set is `{x}` plus the ancestors of `x`. |
| Backprop.WorkedExample | backprop.py:34-49 | `wx.data == 20` with `wx.parent == [w, x]` and `op "*"`. `L.data == 22` with `L.parent == [wx, b]` and `op "+"`. Every node carries its label. After `L.grad = 1`, every other node's `grad` is still 0. `L`'s ancestors are exactly `{wx, b, w, x}`, and it unfolds to `(4 * 5) + 2`. |

## Left out

- `__repr__` (backprop.py:28-29) only formats diagnostic text.
- The `networkx`/`matplotlib` imports and the commented-out drawing code
  (backprop.py:8-9, 51-58) are external visualisation libraries with no logic.
- Floating-point semantics: `data` and `grad` are exact `real`s.
- Promotion of non-numeric right operands: Python wraps any object, and the
  result then depends on what Python's `+`/`*` do with that data. Often that
  is a TypeError, but `Value(3) * "ab"` yields data `"ababab"`. `Operand`
  admits only numbers and nodes.
- A raw number on the left (`3 + v`): the class defines no `__radd__` or
  `__rmul__`, so the source does not support it either.
- Writes to `data`, `op` or `parent` after construction: Python allows them,
  but the file never does them. The model makes these fields `const`, which is
  what keeps the graph acyclic.
- Gradient propagation, topological ordering and any other operators are not
  in `backprop.py`. Apart from the manual `L.grad = 1`, no code computes a
  gradient.
