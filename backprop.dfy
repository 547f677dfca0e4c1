/** The scalar node of a computation graph: each node stores a number, a
    gradient accumulator, the operation tag that produced it and the ordered
    operand nodes it was computed from. `+` and `*` build a fresh node from two
    existing ones, so the graph grows leaf-first and stays acyclic. */
module Backprop {

  /** The arithmetic expression that a node spells out when its parent links
      are followed: the reference meaning of the numbers the graph stores. */
  datatype Expr = Const(x: real) | Sum(left: Expr, right: Expr) | Product(left: Expr, right: Expr)

  function Eval(e: Expr): real
  {
    match e
    case Const(x) => x
    case Sum(l, r) => Eval(l) + Eval(r)
    case Product(l, r) => Eval(l) * Eval(r)
  }

  /** The right-hand operand of `+` and `*`: either an existing node, used as
      it is, or a raw number, which is first wrapped into a new leaf. */
  datatype Operand = Node(node: Value) | Number(x: real)
  {
    ghost predicate Valid()
    {
      Node? ==> node.Valid()
    }

    /** The number the operand stands for. */
    function Data(): real
    {
      match this
      case Node(v) => v.data
      case Number(x) => x
    }
  }

  class Value {
    const data: real
    var grad: real
    const op: string
    const parent: seq<Value>
    var name: string
    /** One more than the deepest parent: every parent link goes strictly down. */
    ghost const depth: nat

    /** The object invariant: parents are shallower than this node and valid
        themselves. Every node the constructor builds satisfies it. */
    ghost predicate Valid()
      decreases depth
    {
      MaxDepth(parent) < depth &&
      forall i | 0 <= i < |parent| :: parent[i].depth < depth && parent[i].Valid()
    }

    /** A node holding the given fields with `grad` 0; with the default
        arguments, a leaf: no parents, no operation tag, no label. */
    constructor (data: real, parent: seq<Value> := [], op: string := "", name: string := "")
      requires forall i | 0 <= i < |parent| :: parent[i].Valid()
      ensures this.data == data && this.parent == parent && this.op == op && this.name == name
      ensures grad == 0.0
      ensures Valid()
    {
      this.data := data;
      this.grad := 0.0;
      this.op := op;
      this.parent := parent;
      this.name := name;
      this.depth := 1 + MaxDepth(parent);
    }

    /** `self + other`: a fresh node whose parents are `(self, other)` in that
        order, with `other` promoted to a leaf when it is a raw number. Neither
        operand is changed. */
    method Add(other: Operand) returns (r: Value)
      requires Valid() && other.Valid()
      ensures fresh(r) && r.Valid()
      ensures r.data == data + other.Data()
      ensures |r.parent| == 2 && r.parent[0] == this && Promoted(other, r.parent[1])
      ensures other.Number? ==> fresh(r.parent[1])
      ensures r.op == "+" && r.name == "" && r.grad == 0.0
      ensures grad == old(grad) && name == old(name)
      ensures other.Node? ==> other.node.grad == old(other.node.grad) && other.node.name == old(other.node.name)
      ensures Unfold(r) == Sum(Unfold(this), Unfold(r.parent[1]))
      ensures Ancestors(r) == {this, r.parent[1]} + Ancestors(this) + Ancestors(r.parent[1])
      ensures Consistent(this) && (other.Node? ==> Consistent(other.node)) ==> Consistent(r)
    {
      var o := Promote(other);
      r := new Value(data + o.data, [this, o], "+");
      PairAncestors(r);
    }

    /** `self * other`: as `Add`, with the product and the tag `"*"`. */
    method Mul(other: Operand) returns (r: Value)
      requires Valid() && other.Valid()
      ensures fresh(r) && r.Valid()
      ensures r.data == data * other.Data()
      ensures |r.parent| == 2 && r.parent[0] == this && Promoted(other, r.parent[1])
      ensures other.Number? ==> fresh(r.parent[1])
      ensures r.op == "*" && r.name == "" && r.grad == 0.0
      ensures grad == old(grad) && name == old(name)
      ensures other.Node? ==> other.node.grad == old(other.node.grad) && other.node.name == old(other.node.name)
      ensures Unfold(r) == Product(Unfold(this), Unfold(r.parent[1]))
      ensures Ancestors(r) == {this, r.parent[1]} + Ancestors(this) + Ancestors(r.parent[1])
      ensures Consistent(this) && (other.Node? ==> Consistent(other.node)) ==> Consistent(r)
    {
      var o := Promote(other);
      r := new Value(data * o.data, [this, o], "*");
      PairAncestors(r);
    }
  }

  /** `o` is what the operand becomes: the node itself, or a bare leaf
      holding the raw number. */
  ghost predicate Promoted(other: Operand, o: Value)
    reads o
  {
    o.data == other.Data() &&
    (other.Node? ==> o == other.node) &&
    (other.Number? ==> o.parent == [] && o.op == "" && o.name == "" && o.grad == 0.0)
  }

  /** Promote the right operand: a node is returned as it is; a raw number
      becomes a fresh leaf holding it. */
  method Promote(other: Operand) returns (o: Value)
    requires other.Valid()
    ensures o.Valid() && Promoted(other, o)
    ensures other.Number? ==> fresh(o)
  {
    match other
    case Node(v) =>
      o := v;
    case Number(x) =>
      o := new Value(x);
  }

  /** The largest depth among the given nodes, 0 when there are none. */
  ghost function MaxDepth(ps: seq<Value>): (m: nat)
    ensures forall i | 0 <= i < |ps| :: ps[i].depth <= m
  {
    if ps == [] then 0
    else if MaxDepth(ps[1..]) < ps[0].depth then ps[0].depth
    else MaxDepth(ps[1..])
  }

  /** Every node reachable from the given nodes by following parent links,
      the given nodes included. */
  ghost function Reach(ps: seq<Value>): (r: set<Value>)
    requires forall i | 0 <= i < |ps| :: ps[i].Valid()
    ensures forall a | a in r :: a.Valid() && a.depth <= MaxDepth(ps)
    decreases MaxDepth(ps), |ps|
  {
    if ps == [] then {}
    else
      var p := ps[0];
      assert p.Valid();
      {p} + Reach(p.parent) + Reach(ps[1..])
  }

  /** The nodes `v` was computed from, directly or transitively. `v` is not
      among them and all of them are shallower: the graph is acyclic, and
      following parent links always terminates. */
  ghost function Ancestors(v: Value): (r: set<Value>)
    requires v.Valid()
    ensures forall a | a in r :: a.Valid() && a.depth < v.depth
    ensures v !in r
  {
    Reach(v.parent)
  }

  /** The reachable set contains each given node and everything reachable
      from that node's parents. */
  lemma {:induction false} ReachClosed(ps: seq<Value>)
    requires forall i | 0 <= i < |ps| :: ps[i].Valid()
    ensures forall i | 0 <= i < |ps| :: ps[i] in Reach(ps) && Reach(ps[i].parent) <= Reach(ps)
    decreases |ps|
  {
    if ps != [] {
      ReachClosed(ps[1..]);
      forall i | 1 <= i < |ps|
        ensures ps[i] in Reach(ps) && Reach(ps[i].parent) <= Reach(ps)
      {
        assert ps[i] == ps[1..][i - 1];
      }
    }
  }

  /** Every parent of `v` is an ancestor of `v`, and so is each of its own
      ancestors. */
  lemma AncestorsClosed(v: Value)
    requires v.Valid()
    ensures forall i | 0 <= i < |v.parent| :: v.parent[i] in Ancestors(v) && Ancestors(v.parent[i]) <= Ancestors(v)
  {
    ReachClosed(v.parent);
  }

  /** The ancestors of a node with two parents are the two parents and their
      ancestors. */
  lemma PairAncestors(v: Value)
    requires v.Valid() && |v.parent| == 2
    ensures Ancestors(v) == {v.parent[0], v.parent[1]} + Ancestors(v.parent[0]) + Ancestors(v.parent[1])
  {
    var ps := v.parent;
    assert ps[1..][1..] == [];
    assert Reach(ps[1..]) == {ps[1]} + Reach(ps[1].parent) + Reach(ps[1..][1..]);
  }

  /** The expression a node records: `+` and `*` nodes with two parents
      unfold into their operands, every other node is a constant. */
  ghost function Unfold(v: Value): Expr
    requires v.Valid()
    decreases v.depth
  {
    if |v.parent| == 2 && v.op == "+" then Sum(Unfold(v.parent[0]), Unfold(v.parent[1]))
    else if |v.parent| == 2 && v.op == "*" then Product(Unfold(v.parent[0]), Unfold(v.parent[1]))
    else Const(v.data)
  }

  /** The node's own data is the sum or product of its two parents' data, as
      its tag says. */
  ghost predicate LocalRule(v: Value)
  {
    |v.parent| == 2 ==>
      (v.op == "+" ==> v.data == v.parent[0].data + v.parent[1].data) &&
      (v.op == "*" ==> v.data == v.parent[0].data * v.parent[1].data)
  }

  /** Every node from `v` down obeys its local rule, as every node that `+`
      and `*` build does. */
  ghost predicate Consistent(v: Value)
    requires v.Valid()
    decreases v.depth
  {
    LocalRule(v) && forall i | 0 <= i < |v.parent| :: Consistent(v.parent[i])
  }

  /** In a consistent graph the stored data is the value of the recorded
      expression: the forward pass computed what the graph says. */
  lemma {:induction false} ForwardValue(v: Value)
    requires v.Valid() && Consistent(v)
    ensures Eval(Unfold(v)) == v.data
    decreases v.depth
  {
    if |v.parent| == 2 && (v.op == "+" || v.op == "*") {
      ForwardValue(v.parent[0]);
      ForwardValue(v.parent[1]);
    }
  }

  /** Consistency is inherited by every node reachable from consistent nodes. */
  lemma {:induction false} ConsistentReach(ps: seq<Value>)
    requires forall i | 0 <= i < |ps| :: ps[i].Valid() && Consistent(ps[i])
    ensures forall a | a in Reach(ps) :: Consistent(a)
    decreases MaxDepth(ps), |ps|
  {
    if ps != [] {
      ConsistentReach(ps[0].parent);
      ConsistentReach(ps[1..]);
    }
  }

  /** All nodes reachable from `v`, `v` included, store the value of the
      expression they record. */
  ghost predicate Evaluates(v: Value)
    requires v.Valid()
  {
    Eval(Unfold(v)) == v.data &&
    forall a | a in Ancestors(v) :: Eval(Unfold(a)) == a.data
  }

  /** Every node of a consistent graph stores the value of the expression it
      records. */
  lemma ConsistentEvaluates(v: Value)
    requires v.Valid() && Consistent(v)
    ensures Evaluates(v)
  {
    ConsistentReach(v.parent);
    ForwardValue(v);
    forall a | a in Ancestors(v)
      ensures Eval(Unfold(a)) == a.data
    {
      ForwardValue(a);
    }
  }

  /** A graph whose every node stores the value of its expression is
      consistent. */
  lemma {:induction false} EvaluatesConsistent(v: Value)
    requires v.Valid() && Evaluates(v)
    ensures Consistent(v)
    decreases v.depth
  {
    AncestorsClosed(v);
    forall i | 0 <= i < |v.parent|
      ensures Consistent(v.parent[i])
    {
      var p := v.parent[i];
      assert Evaluates(p);
      EvaluatesConsistent(p);
    }
    if |v.parent| == 2 {
      assert Eval(Unfold(v.parent[0])) == v.parent[0].data;
      assert Eval(Unfold(v.parent[1])) == v.parent[1].data;
    }
  }

  /** A graph is consistent exactly when every node in it stores the value of
      the expression it records. */
  lemma ConsistentIffEvaluates(v: Value)
    requires v.Valid()
    ensures Consistent(v) <==> Evaluates(v)
  {
    if Consistent(v) {
      ConsistentEvaluates(v);
    }
    if Evaluates(v) {
      EvaluatesConsistent(v);
    }
  }

  /** `x * x` records the same node twice among the parents: edges are not
      deduplicated, although the set of ancestors holds `x` once. */
  method SelfProduct(x: Value) returns (y: Value)
    requires x.Valid()
    ensures y.Valid()
    ensures y.parent == [x, x] && y.op == "*" && y.data == x.data * x.data
    ensures Ancestors(y) == {x} + Ancestors(x)
  {
    y := x.Mul(Node(x));
  }

  /** The script `L = w * x + b` with w = 4, x = 5, b = 2, each node labelled
      and the output's gradient seeded with 1. */
  method WorkedExample() returns (w: Value, x: Value, b: Value, wx: Value, L: Value)
    ensures w.data == 4.0 && x.data == 5.0 && b.data == 2.0
    ensures wx.data == 20.0 && wx.parent == [w, x] && wx.op == "*"
    ensures L.data == 22.0 && L.parent == [wx, b] && L.op == "+"
    ensures w.name == "w" && x.name == "x" && b.name == "b" && wx.name == "wx" && L.name == "L"
    ensures L.grad == 1.0 && w.grad == 0.0 && x.grad == 0.0 && b.grad == 0.0 && wx.grad == 0.0
    ensures L.Valid() && Ancestors(L) == {wx, b, w, x}
    ensures Unfold(L) == Sum(Product(Const(4.0), Const(5.0)), Const(2.0))
  {
    w := new Value(4.0);
    w.name := "w";

    x := new Value(5.0);
    x.name := "x";

    b := new Value(2.0);
    b.name := "b";

    wx := w.Mul(Node(x));
    wx.name := "wx";

    L := wx.Add(Node(b));
    L.name := "L";

    L.grad := 1.0;
  }
}
