/** What the validator lets through, node by node and in full for the smallest statements.

    `AcceptedNodeByNode` says what no accepted statement contains, at any depth; the gates say, for a
    statement with one table, one call or one star, exactly when it is accepted. They speak of the
    configured lists and of the names' characters. */
module SqlGates {
  import opened Prelude
  import opened SqlTree
  import opened SqlScope
  import opened SqlEval
  import opened SqlRun
  import opened SqlValidator
  import opened SqlSafety
  import opened SqlGrowth
  import opened SqlGaps

  /** The schema or the unqualified name is PostgreSQL's own. */
  predicate Catalogued(schema: string, name: string) {
    schema == "information_schema" || StartsWith(schema, "pg_") || (schema == "" && StartsWith(name, "pg_"))
  }

  /** The function is on no deny list. */
  predicate Unlisted(d: DenyLists, fn: string) {
    fn == "" || (fn !in d.exact && fn !in d.srf && forall i | 0 <= i < |d.prefixes| :: !StartsWith(fn, d.prefixes[i]))
  }

  lemma SystemIsCatalogued(t: Node)
    requires t.Table?
    ensures OffLimits(t) <==> Catalogued(t.schema, t.name)
  {
    assert "pg_catalog"[..3] == "pg_";
  }

  /** Nothing in the node is forbidden by itself. */
  predicate Ordinary(d: DenyLists, m: Node) {
    && (m.Table? ==> m.name != "" && !Catalogued(m.schema, m.name))
    && (m.Call? || m.Agg? ==> Unlisted(d, m.fn))
    && (m.Call? ==> !m.typedSrf) && !m.TableFunc?
    && (m.Col? && m.qual.None? ==> m.name !in d.keywords)
    && (IsQuery(m) ==> !m.recursive) && (m.Select? ==> m.into.None?) && (m.Cte? ==> IsQuery(m.body))
  }

  lemma OrdinaryIs(d: DenyLists, m: Node)
    ensures Ordinary(d, m) <==> Harmless(d, m) && (m.Table? ==> m.name != "" && !OffLimits(m))
  {
    if m.Table? { SystemIsCatalogued(m); }
    hide OffLimits, Catalogued;
  }

  /** At no depth does an accepted statement name a system table, call a listed or row-expanding function,
      read a listed keyword, recurse, write or hold a data-modifying CTE. */
  lemma AcceptedNodeByNode(p: Policy, root: Node)
    requires Accepts(p, root)
    ensures forall m | m in Nodes(root) :: Ordinary(p.deny, m)
  {
    VisitMeetsNodes(root, []);
    forall m | m in Nodes(root) ensures Ordinary(p.deny, m) {
      var v :| v in Visit(root, []) && v.node == m;
      assert NodeAccepted(p, root, v);
      OrdinaryIs(p.deny, m);
    }
  }

  // ----- statements without CTEs -----

  lemma {:induction false} NothingBound(n: Node, anc: seq<Node>)
    requires Bound(anc) == {} && forall m | m in Nodes(n) :: Ctes(m) == []
    ensures forall v | v in Visit(n, anc) :: Bound(v.anc) == {}
    decreases n
  {
    KidsSmaller(n);
    assert n in Nodes(n);
    BoundCons(n, anc);
    NothingBoundAll(n, Kids(n), [n] + anc);
  }

  lemma {:induction false} NothingBoundAll(ctx: Node, ns: seq<Node>, anc: seq<Node>)
    requires Under(ns, ctx) && Bound(anc) == {} && forall m | m in NodesAll(ctx, ns) :: Ctes(m) == []
    ensures forall v | v in VisitAll(ctx, ns, anc) :: Bound(v.anc) == {}
    decreases ctx, |ns|
  {
    if ns != [] {
      NothingBound(ns[0], anc);
      NothingBoundAll(ctx, ns[1..], anc);
    }
  }

  ghost predicate Admissible(p: Policy, q: Node, m: Node) {
    && Ordinary(p.deny, m)
    && (m.Table? ==> m.name in p.allowed)
    && (p.banStar && m.Select? ==> ProjectsColumns(TableNames(q), m))
  }

  /** Without CTEs acceptance is a matter of single nodes, but for the ancestors of stars. */
  lemma AcceptedIff(p: Policy, q: Node)
    requires IsQuery(q) && forall m | m in Nodes(q) :: Ctes(m) == []
    ensures Accepts(p, q) <==> (p.banStar ==> StarsHeld(q, [])) && forall m | m in Nodes(q) :: Admissible(p, q, m)
  {
    VisitMeetsNodes(q, []);
    NothingBound(q, []);
    forall v | v in Visit(q, [])
      ensures NodeAccepted(p, q, v) <==> Admissible(p, q, v.node) && (p.banStar && v.node.Star? ==> !StarEscapes(v.anc))
    {
      OrdinaryIs(p.deny, v.node);
      hide Ordinary, Harmless, OffLimits, StarEscapes, ProjectsColumns, TableNames;
    }
    hide Admissible, NodeAccepted, StarEscapes;
    if Accepts(p, q) {
      forall m | m in Nodes(q) ensures Admissible(p, q, m) {
        var v :| v in Visit(q, []) && v.node == m;
      }
    }
  }

  // ----- the gates -----

  function OneTable(proj: Node, t: Node): Node { Plain([], [proj], [t]) }

  lemma LeafNodes(leaf: Node, t: Node)
    requires (leaf.Col? || leaf.Star?) && t.Table?
    ensures var q := OneTable(leaf, t); Nodes(q) == {q, leaf, t} && !IsQuery(leaf) && !IsQuery(t)
  {
    var q := OneTable(leaf, t);
    ShortKids(q);
    assert Kids(q) == [leaf, t];
    NodesOf2(q, leaf, t);
    NodesOfLeaf(leaf);
    NodesOfLeaf(t);
    hide Nodes, Kids;
  }

  lemma CallNodes(call: Node, leaf: Node, t: Node)
    requires (call.Call? && call.args == [leaf]) || (call.Agg? && call.arg == leaf)
    requires (leaf.Col? || leaf.Star?) && t.Table?
    ensures var q := OneTable(call, t); Nodes(q) == {q, call, leaf, t}
    ensures Nodes(call) == {call, leaf}
  {
    var q := OneTable(call, t);
    ShortKids(q);
    assert Kids(q) == [call, t] && Kids(call) == [leaf];
    NodesOf2(q, call, t);
    NodesOf1(call, leaf);
    NodesOfLeaf(leaf);
    NodesOfLeaf(t);
    hide Nodes, Kids;
  }

  /** The table may be read and its name is no other name's. */
  predicate Readable(p: Policy, t: Node)
    requires t.Table?
  {
    t.name != "" && t.name in p.allowed && !Catalogued(t.schema, t.name)
  }

  lemma TableAdmissible(p: Policy, q: Node, t: Node)
    requires t.Table?
    ensures Admissible(p, q, t) <==> Readable(p, t)
  {
  }

  /** SELECT x FROM schema.t is accepted exactly when the table is named, whitelisted and no system table,
      and `x` is neither a listed keyword nor, under the star ban, the table's own name. */
  lemma TableGate(p: Policy, schema: string, t: string, x: string)
    ensures Accepts(p, OneTable(Col(None, x), Table(schema, t, ""))) <==>
              t != "" && t in p.allowed && !Catalogued(schema, t) && x !in p.deny.keywords && (p.banStar ==> x != t)
  {
    var col, table := Col(None, x), Table(schema, t, "");
    var q := OneTable(col, table);
    LeafNodes(col, table);
    AcceptedIff(p, q);
    NoStarsHeld(q);
    TableAdmissible(p, q, table);
    ColumnProjected(q, x, table);
    hide Nodes, StarsHeld, Accepts, Catalogued, ProjectsColumns, TableNames;
    assert Admissible(p, q, col) <==> x !in p.deny.keywords;
    assert Admissible(p, q, q) <==> (p.banStar ==> ProjectsColumns(TableNames(q), q));
  }

  lemma ColumnProjected(q: Node, x: string, t: Node)
    requires q == OneTable(Col(None, x), t) && t.Table? && t.alias == ""
    ensures ProjectsColumns(TableNames(q), q) <==> !(x == t.name && t.name != "")
  {
    NodesOfLeaf(Col(None, x));
    assert Col(None, x) in q.projs && Col(None, x) in Nodes(Col(None, x));
    LeafNodes(Col(None, x), t);
    assert x in TableNames(q) <==> x == t.name && t.name != "" by { assert EffAlias(t) == t.name; }
  }

  /** SELECT t.* and SELECT f(t.*) are accepted exactly when stars are not banned. */
  lemma StarGate(p: Policy, t: string, f: Option<string>)
    requires Readable(p, Stored(t)) && (f.Some? ==> Unlisted(p.deny, f.value))
    ensures var star := Star(Some(t));
            var proj := if f.Some? then Call(f.value, false, [star]) else star;
            Accepts(p, OneTable(proj, Stored(t))) <==> !p.banStar
  {
    var star := Star(Some(t));
    var proj := if f.Some? then Call(f.value, false, [star]) else star;
    var q := OneTable(proj, Stored(t));
    if f.Some? { CallNodes(proj, star, Stored(t)); } else { LeafNodes(star, Stored(t)); }
    AcceptedIff(p, q);
    TableAdmissible(p, q, Stored(t));
    StarReaches(q, proj, star, Stored(t));
    StarAdmissible(p, q, proj, star);
    hide Nodes, StarsHeld, Accepts, Admissible, Readable, Unlisted;
  }

  lemma StarAdmissible(p: Policy, q: Node, proj: Node, star: Node)
    requires q.Select? && !q.recursive && q.into.None? && star.Star?
    requires proj == star || (proj.Call? && !proj.typedSrf && Unlisted(p.deny, proj.fn))
    ensures Admissible(p, q, star) && Admissible(p, q, proj) && (!p.banStar ==> Admissible(p, q, q))
  {
    hide Unlisted, Catalogued, ProjectsColumns, TableNames;
  }

  lemma StarReaches(q: Node, proj: Node, star: Node, t: Node)
    requires q == OneTable(proj, t) && star.Star? && t.Table? && (proj == star || (proj.Call? && proj.args == [star]))
    ensures !StarsHeld(q, [])
  {
    ShortKids(q);
    assert Kids(q) == [proj, t];
    var below := [q] + [];
    assert below[0] == q && StarEscapes(below);
    hide Kids, StarEscapes;
    if proj == star {
      VisitFirst(q, proj, [], Visited(star, below));
    } else {
      ShortCall(proj, star, below);
      VisitFirst(q, proj, [], Visited(star, [proj] + below));
    }
  }

  /** Above a star inside a call the walk goes on past the call. */
  lemma ShortCall(call: Node, star: Node, anc: seq<Node>)
    requires call.Call? && call.args == [star] && StarEscapes(anc)
    ensures StarEscapes([call] + anc) && Visited(star, [call] + anc) in Visit(call, anc)
  {
    assert ([call] + anc)[1..] == anc;
    assert Kids(call) == [star];
    VisitFirst(call, star, anc, Visited(star, [call] + anc));
  }

  lemma VisitFirst(n: Node, k: Node, anc: seq<Node>, v: Visited)
    requires Kids(n) != [] && Kids(n)[0] == k
    requires v == Visited(k, [n] + anc) || v in Visit(k, [n] + anc)
    ensures v in Visit(n, anc)
  {
    KidsSmaller(n);
    assert Visit(k, [n] + anc)[0] == Visited(k, [n] + anc);
    assert VisitAll(n, Kids(n), [n] + anc) == Visit(k, [n] + anc) + VisitAll(n, Kids(n)[1..], [n] + anc);
  }

  /** SELECT f(t.x) FROM t, for a function or an aggregate `f`, is accepted exactly when `f` is on no deny
      list and not one that the parser types as row-expanding. */
  lemma CallGate(p: Policy, t: string, x: string, f: string, typedSrf: bool, aggregate: bool)
    requires Readable(p, Stored(t))
    ensures var col := Col(Some(t), x);
            var proj := if aggregate then Agg(f, col) else Call(f, typedSrf, [col]);
            Accepts(p, OneTable(proj, Stored(t))) <==> Unlisted(p.deny, f) && (typedSrf ==> aggregate)
  {
    var col := Col(Some(t), x);
    var proj := if aggregate then Agg(f, col) else Call(f, typedSrf, [col]);
    var q := OneTable(proj, Stored(t));
    CallNodes(proj, col, Stored(t));
    AcceptedIff(p, q);
    NoStarsHeld(q);
    TableAdmissible(p, q, Stored(t));
    CallAdmissible(p, q, proj, col);
    hide Nodes, StarsHeld, Accepts, Admissible, Readable, Unlisted;
  }

  lemma CallAdmissible(p: Policy, q: Node, proj: Node, col: Node)
    requires q.Select? && q.projs == [proj] && !q.recursive && q.into.None? && Nodes(proj) == {proj, col}
    requires proj.Call? || proj.Agg?
    requires col.Col? && col.qual.Some?
    ensures Admissible(p, q, proj) <==> Unlisted(p.deny, proj.fn) && (proj.Call? ==> !proj.typedSrf)
    ensures Admissible(p, q, col) && Admissible(p, q, q)
  {
    NamelessProjection(q, proj, col);
    hide Nodes, ProjectsColumns, TableNames, Unlisted, Catalogued;
  }

  /** A projection whose only column is qualified names no row alias. */
  lemma NamelessProjection(q: Node, proj: Node, col: Node)
    requires q.Select? && q.projs == [proj] && Nodes(proj) == {proj, col} && !proj.Col? && (col.Col? ==> col.qual.Some?)
    ensures ProjectsColumns(TableNames(q), q)
  {
    hide Nodes, TableNames;
  }
}
