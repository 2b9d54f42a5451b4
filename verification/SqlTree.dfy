/** The syntax tree the validator walks.

    As in sqlglot there is a single sort of node: whether a node is a query, a FROM item or an
    expression is a question asked of it, not a type it has. `Kids` lists the children in visiting
    order; a `WITH` list belongs to the query it decorates. Names are already folded to lower case. */
module SqlTree {
  import opened Prelude

  datatype Field = Field(name: string, v: Value)

  /** A composite (`Row`) is what a whole-row reference evaluates to, and `NullRow` the NULL composite it
      is for a row an outer join made up; `Fault` is an evaluation error. */
  datatype Value =
    | Null
    | Int(i: int)
    | Bool(b: bool)
    | Str(s: string)
    | Row(fields: seq<Field>)
    | NullRow(fields: seq<Field>)
    | Fault

  predicate IsNull(v: Value) { v.Null? || v.NullRow? }

  datatype SetKind = UnionAll | Union | Intersect | Except

  datatype JoinSide = Inner | LeftOuter | RightOuter | FullOuter

  datatype Node =
    | Lit(v: Value)
    | Col(qual: Option<string>, name: string)
    | Star(of: Option<string>)
    | Count(distinct: bool, arg: Node)
    | Agg(fn: string, arg: Node)
    | Call(fn: string, typedSrf: bool, args: seq<Node>)
    | Table(schema: string, name: string, alias: string)
    | TableFunc(call: Node)
    | Derived(query: Node, alias: string)
    | Join(natural: bool, side: JoinSide, left: Node, right: Node, on: Option<Node>)
    | As(e: Node, out: string)
    | Ordered(e: Node, desc: bool)
    | Test(op: string, e: Node, query: Node)
    | Cte(alias: string, body: Node)
    | Select(ctes: seq<Node>, recursive: bool, distinct: bool, projs: seq<Node>, sources: seq<Node>,
             cond: Option<Node>, keys: seq<Node>, having: Option<Node>, order: seq<Node>,
             limit: Option<Node>, into: Option<string>)
    | SetOp(ctes: seq<Node>, recursive: bool, kind: SetKind, left: Node, right: Node, order: seq<Node>,
            limit: Option<Node>)
    | Insert(target: Node, source: Node)
    | Delete(target: Node)

  type TableId = (string, string)

  predicate IsQuery(n: Node) { n.Select? || n.SetOp? }

  function OptSeq(o: Option<Node>): seq<Node> { if o.Some? then [o.value] else [] }

  /** The `WITH` list a node carries; empty for anything but a query. */
  function Ctes(n: Node): seq<Node> { if IsQuery(n) then n.ctes else [] }

  /** The children of a node other than its `WITH` list. */
  function Rest(n: Node): seq<Node> {
    match n
    case Lit(_) => []
    case Col(_, _) => []
    case Star(_) => []
    case Count(_, arg) => [arg]
    case Agg(_, arg) => [arg]
    case Call(_, _, args) => args
    case Table(_, _, _) => []
    case TableFunc(call) => [call]
    case Derived(query, _) => [query]
    case Join(_, _, left, right, on) => [left, right] + OptSeq(on)
    case As(e, _) => [e]
    case Ordered(e, _) => [e]
    case Test(_, e, query) => [e, query]
    case Cte(_, body) => [body]
    case Select(_, _, _, projs, sources, cond, keys, having, order, limit, _) =>
      projs + sources + OptSeq(cond) + keys + OptSeq(having) + order + OptSeq(limit)
    case SetOp(_, _, _, left, right, order, limit) => [left, right] + order + OptSeq(limit)
    case Insert(target, source) => [target, source]
    case Delete(target) => [target]
  }

  function Kids(n: Node): seq<Node> { Ctes(n) + Rest(n) }

  /** Every element of `ns` is a proper part of `ctx`: what lets a walk over a child list terminate. */
  ghost predicate Under(ns: seq<Node>, ctx: Node) { forall i | 0 <= i < |ns| :: ns[i] < ctx }

  lemma UnderConcat(xs: seq<Node>, ys: seq<Node>, ctx: Node)
    requires Under(xs, ctx) && Under(ys, ctx)
    ensures Under(xs + ys, ctx)
  {
  }

  lemma RestSmaller(n: Node)
    ensures Under(Rest(n), n)
  {
    if n.Select? {
      UnderConcat(n.projs, n.sources, n);
      UnderConcat(n.projs + n.sources, OptSeq(n.cond), n);
      UnderConcat(n.projs + n.sources + OptSeq(n.cond), n.keys, n);
      UnderConcat(n.projs + n.sources + OptSeq(n.cond) + n.keys, OptSeq(n.having), n);
      UnderConcat(n.projs + n.sources + OptSeq(n.cond) + n.keys + OptSeq(n.having), n.order, n);
      UnderConcat(n.projs + n.sources + OptSeq(n.cond) + n.keys + OptSeq(n.having) + n.order, OptSeq(n.limit), n);
    } else if n.SetOp? {
      UnderConcat([n.left, n.right], n.order, n);
      UnderConcat([n.left, n.right] + n.order, OptSeq(n.limit), n);
    }
  }

  lemma KidsSmaller(n: Node)
    ensures Under(Kids(n), n) && Under(Ctes(n), n) && Under(Rest(n), n)
  {
    RestSmaller(n);
    UnderConcat(Ctes(n), Rest(n), n);
  }

  /** Every node of the tree, the root included. */
  ghost function Nodes(n: Node): set<Node>
    decreases n
  {
    KidsSmaller(n);
    {n} + NodesAll(n, Kids(n))
  }

  ghost function NodesAll(ctx: Node, ns: seq<Node>): set<Node>
    requires Under(ns, ctx)
    decreases ctx, |ns|
  {
    if ns == [] then {} else Nodes(ns[0]) + NodesAll(ctx, ns[1..])
  }

  lemma NodesAllCons(ctx: Node, x: Node, ns: seq<Node>)
    requires Under([x] + ns, ctx)
    ensures Under(ns, ctx) && NodesAll(ctx, [x] + ns) == Nodes(x) + NodesAll(ctx, ns)
  {
    assert ([x] + ns)[1..] == ns;
    assert ([x] + ns)[0] == x;
  }

  lemma {:induction false} NodesAllMember(ctx: Node, ns: seq<Node>, k: Node)
    requires Under(ns, ctx)
    requires k in ns
    ensures Nodes(k) <= NodesAll(ctx, ns)
  {
    if k != ns[0] {
      assert k in ns[1..];
      NodesAllMember(ctx, ns[1..], k);
    }
  }

  lemma KidNodes(n: Node, k: Node)
    requires k in Kids(n)
    ensures Nodes(k) <= Nodes(n) && k in Nodes(n) && k < n
  {
    KidsSmaller(n);
    NodesAllMember(n, Kids(n), k);
  }

  /** A node together with its ancestors, nearest first. */
  datatype Visited = Visited(node: Node, anc: seq<Node>)

  /** Everything a full walk from `n` meets, in pre-order, each node with its ancestor chain. */
  function Visit(n: Node, anc: seq<Node>): seq<Visited>
    decreases n
  {
    KidsSmaller(n);
    [Visited(n, anc)] + VisitAll(n, Kids(n), [n] + anc)
  }

  function VisitAll(ctx: Node, ns: seq<Node>, anc: seq<Node>): seq<Visited>
    requires Under(ns, ctx)
    decreases ctx, |ns|
  {
    if ns == [] then [] else Visit(ns[0], anc) + VisitAll(ctx, ns[1..], anc)
  }

  /** The walk meets exactly the nodes of the tree. */
  lemma {:induction false} VisitMeetsNodes(n: Node, anc: seq<Node>)
    ensures forall m :: m in Nodes(n) <==> exists v | v in Visit(n, anc) :: v.node == m
    decreases n
  {
    KidsSmaller(n);
    VisitAllMeetsNodes(n, Kids(n), [n] + anc);
    var root := Visited(n, anc);
    var below := VisitAll(n, Kids(n), [n] + anc);
    assert Visit(n, anc) == [root] + below;
    forall m
      ensures m in Nodes(n) <==> exists v | v in Visit(n, anc) :: v.node == m
    {
      if m in Nodes(n) {
        if m == n {
          assert root in Visit(n, anc);
        } else {
          assert m in NodesAll(n, Kids(n));
          var v :| v in below && v.node == m;
          assert v in Visit(n, anc);
        }
      }
    }
  }

  lemma {:induction false} VisitAllMeetsNodes(ctx: Node, ns: seq<Node>, anc: seq<Node>)
    requires Under(ns, ctx)
    ensures forall m :: m in NodesAll(ctx, ns) <==> exists v | v in VisitAll(ctx, ns, anc) :: v.node == m
    decreases ctx, |ns|
  {
    if ns != [] {
      VisitMeetsNodes(ns[0], anc);
      VisitAllMeetsNodes(ctx, ns[1..], anc);
      var head, tail := Visit(ns[0], anc), VisitAll(ctx, ns[1..], anc);
      assert VisitAll(ctx, ns, anc) == head + tail;
      forall m
        ensures m in NodesAll(ctx, ns) <==> exists v | v in VisitAll(ctx, ns, anc) :: v.node == m
      {
        if m in Nodes(ns[0]) {
          var v :| v in head && v.node == m;
          assert v in head + tail;
        } else if m in NodesAll(ctx, ns[1..]) {
          var v :| v in tail && v.node == m;
          assert v in head + tail;
        }
      }
    }
  }
}
